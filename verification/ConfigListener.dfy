/**
 Which address a node serves: the one it started on, or one that was bound for
 it. And what a failed bind or a failed write leaves behind.
 */
module ConfigListener {
  import opened Results
  import opened NodeConfig
  import opened ConfigText
  import opened BareMode
  import opened ConfigStore

  /** The address an update asks for. */
  function AddressOf(body: ConfigUpdate): string {
    if body.http.Some? then body.http.value.bind else "0.0.0.0:5760"
  }

  /** The addresses that operations asked for and that could be bound when they did. */
  function BoundBy(ops: seq<Operation>): set<string> {
    if ops == [] then {}
    else
      var rest := BoundBy(ops[1..]);
      match ops[0]
      case Apply(body, _, fate) => if fate.bindOk then {AddressOf(body)} + rest else rest
      case Persist(_, _) => rest
  }

  lemma ReadAddress(s: State, body: ConfigUpdate, version: Option<u64>)
    requires FromYaml(Rendered(body, s.config, version)).Success?
    ensures FromYaml(Rendered(body, s.config, version)).value.http.bind == AddressOf(body)
  {
    hide FromYaml, Rendered, BodyFitsLines;
    AnyModeReads(body, s.config, version);
  }

  /** An update to another address that cannot be bound is refused, and leaves the whole node as it was. */
  lemma FailedBindChangesNothing(s: State, body: ConfigUpdate, version: Option<u64>, fate: Fate)
    requires AddressOf(body) != s.config.http.bind && !fate.bindOk
    ensures var o := Applied(s, body, version, fate); o.result.Failure? && o.state == s
  {
    hide FromYaml, Rendered;
    if FromYaml(Rendered(body, s.config, version)).Success? {
      ReadAddress(s, body, version);
    }
  }

  /**
   Exactly when an update succeeds: its text loads, its address is the one it
   had or can be bound, and all steps of the write succeed. Otherwise nothing
   changes, and the error tells a bad config from a failed node.
   */
  lemma AppliedExactlyWhen(s: State, body: ConfigUpdate, version: Option<u64>, fate: Fate)
    ensures var o, loads := Applied(s, body, version, fate), FromYaml(Rendered(body, s.config, version)).Success?;
            && (o.result.Success? <==>
                  loads && (AddressOf(body) == s.config.http.bind || fate.bindOk) && fate.stop >= 4)
            && (o.result.Failure? ==> o.state == s && (o.result.error.Invalid? <==> !loads))
  {
    hide FromYaml, Rendered;
    if FromYaml(Rendered(body, s.config, version)).Success? {
      ReadAddress(s, body, version);
    }
  }

  lemma StepServesBound(s: State, op: Operation)
    ensures Step(s, op).serving == s.serving || Step(s, op).serving in BoundBy([op])
  {
    hide FromYaml, Rendered;
    if op.Apply? && FromYaml(Rendered(op.body, s.config, op.version)).Success? {
      ReadAddress(s, op.body, op.version);
    }
  }

  lemma BoundFirst(ops: seq<Operation>)
    requires ops != []
    ensures BoundBy(ops) == BoundBy([ops[0]]) + BoundBy(ops[1..])
  {
    assert [ops[0]][1..] == [];
  }

  /**
   Over every run, through any failing binds and writes, the address served is
   the first one or one that an operation of the run asked for and got bound.
   */
  lemma {:induction false} ServesWhatWasBound(s: State, ops: seq<Operation>)
    ensures var served := ConfigStore.Run(s, ops).serving; served == s.serving || served in BoundBy(ops)
    decreases |ops|
  {
    hide Step, BoundBy;
    if ops != [] {
      BoundFirst(ops);
      StepServesBound(s, ops[0]);
      ServesWhatWasBound(Step(s, ops[0]), ops[1..]);
    }
  }

  /** Nor is the config about it: what is active names the address that is served, and it was bound. */
  lemma ActiveAddressWasBound(s: State, ops: seq<Operation>)
    requires Consistent(s)
    ensures var c := ConfigStore.Run(s, ops).config; c.http.bind == s.config.http.bind || c.http.bind in BoundBy(ops)
  {
    hide Acceptable, SameButVersion, FromYaml, Step, BoundBy;
    RunKeepsConsistent(s, ops);
    ServesWhatWasBound(s, ops);
  }
}

/**
 Where the node's version comes from, and when it only rises.
 */
module SyncVersions {
  import opened Results
  import opened BareMode
  import opened NodeConfig
  import opened ConfigText
  import opened ConfigStore
  import opened SyncConfigs
  import opened SyncProtocol
  import opened YamlRoundTrip

  // ---------------- provenance ------------------------------------------

  /** The node's version is none, the one it started with, or one the website sent. */
  predicate Provenance(w: World, boot: u64) {
    Version(w) == 0 || Version(w) == boot || Version(w) in w.offered
  }

  predicate Offered(offered: set<u64>, f: DownFrame) {
    match f
    case HelloAck => true
    case ConfigPush(v, _) => v in offered
    case Accepted(v) => v in offered
  }

  predicate AllOffered(w: World) {
    forall i | 0 <= i < |w.down| :: Offered(w.offered, w.down[i])
  }

  /** A local edit that is applied has its own block, or a mode that brings no version but a known one. */
  predicate Vouched(w: World, e: Event, boot: u64) {
    EditLands(w, e) ==>
      || e.body.microwaveprop.Some? || BroughtVersion(e.body) == 0
      || BroughtVersion(e.body) == boot || BroughtVersion(e.body) in w.offered
  }

  predicate VouchedRun(w: World, es: seq<Event>, boot: u64)
    decreases |es|
  {
    es != [] ==> Vouched(w, es[0], boot) && VouchedRun(Next(w, es[0]), es[1..], boot)
  }

  lemma PushVersion(s: State, p: PushFrame, fate: Fate)
    ensures var v := AppliedVersion(Pushed(s, p, fate).state.config);
            v == AppliedVersion(s.config) || (v == p.version > AppliedVersion(s.config))
  {
    hide Pushed, FromConfig, Overwritten, WithVersion, AppliedVersion, Reading, SameContent;
    PushedConfig(s, p, fate);
    var c := Pushed(s, p, fate).state.config;
    OverwrittenFacts(s.config, FromConfig(c), p.version);
    VersionedFacts(s.config, p.version);
  }

  lemma ServerOffers(w: World, valid: bool)
    requires AllOffered(w)
    ensures var w' := Next(w, ServerTakes(valid)); AllOffered(w') && w.offered <= w'.offered && w'.node == w.node
  {
    if Enabled(w, ServerTakes(valid)) {
      var mid, f := w.(up := w.up[1..]), w.up[0];
      AnsweringIs(mid, f, valid);
      var w', added := Answering(mid, f, valid), AnswersTo(mid, f, valid);
      assert forall i | 0 <= i < |added| :: Offered(w'.offered, added[i]);
      hide Answering, AnswersTo;
    }
  }

  lemma StepKeepsProvenance(w: World, e: Event, boot: u64)
    requires AllOffered(w) && Provenance(w, boot) && Vouched(w, e, boot)
    ensures AllOffered(Next(w, e)) && Provenance(Next(w, e), boot)
  {
    hide Applied, Pushed, Persisted, FromConfig, AppliedVersion, PreservedToken, BroughtVersion, Answering;
    match e
    case LocalEdit(body, fate) => EditedConfig(w, body, fate);
    case Deliver(fate) =>
      if Enabled(w, e) {
        assert Offered(w.offered, w.down[0]);
        match w.down[0]
        case HelloAck =>
        case ConfigPush(v, c) => PushVersion(w.node, Push(v, c), fate);
        case Accepted(v) => PersistedConfig(w.node, v, fate);
      }
    case ServerTakes(valid) => ServerOffers(w, valid);
    case PollReport(answer, fate) =>
      if Enabled(w, e) { PersistedConfig(w.node, |w.log| + 1, fate); }
    case PollPull(fate) =>
      if Enabled(w, e) { PushVersion(w.node, Newest(w), fate); }
    case _ =>
  }

  /**
   Over every run, from any state, with any tokens and any log: the node's
   version is none, the one it started with, or one the website sent, as long
   as each local edit is vouched for.
   */
  lemma {:induction false} VersionsComeFromTheWebsite(w: World, es: seq<Event>, boot: u64)
    requires AllOffered(w) && Provenance(w, boot) && VouchedRun(w, es, boot)
    ensures Provenance(SyncProtocol.Run(w, es), boot)
    decreases |es|
  {
    hide AllOffered, Provenance, Next, Vouched;
    if es != [] {
      StepKeepsProvenance(w, es[0], boot);
      VersionsComeFromTheWebsite(Next(w, es[0]), es[1..], boot);
    }
  }

  /** That condition is exact: an applied edit that is not vouched for leaves a version from nowhere. */
  lemma EditKeepsProvenanceExactly(w: World, body: ConfigUpdate, fate: Fate, boot: u64)
    requires Provenance(w, boot) && EditLands(w, LocalEdit(body, fate))
    ensures Provenance(Next(w, LocalEdit(body, fate)), boot) <==>
            Vouched(w, LocalEdit(body, fate), boot)
  {
    hide Applied, FromConfig, AppliedVersion, BroughtVersion;
    EditedConfig(w, body, fate);
  }

  /**
   What an applied local edit does to the version, exactly. It is gone or as it
   was if and only if the edit has its own block, or its mode brings none, or
   one without a version, or one with the version there is.
   */
  lemma EditVersionExactly(w: World, body: ConfigUpdate, fate: Fate)
    requires EditLands(w, LocalEdit(body, fate))
    ensures var v, brought := Version(Next(w, LocalEdit(body, fate))), BroughtBlock(body);
            && (v == 0 || v == Version(w) <==>
                || body.microwaveprop.Some? || brought.None?
                || brought.value.configVersion == 0 || brought.value.configVersion == Version(w))
            && (v == Version(w) <==> body.microwaveprop.Some? || BroughtVersion(body) == Version(w))
  {
    hide Applied, FromConfig, AppliedVersion, BroughtBlock;
    EditedConfig(w, body, fate);
  }

  /**
   A local edit can bring any version and any token: one that has no block of
   its own, with a block's lines behind its mode.
   */
  lemma AnInjectedEditSetsTheVersion(w: World, body: ConfigUpdate, fate: Fate, token: string, version: u64)
    requires CleanScalar(body.mode) && body.microwaveprop.None? && CleanScalar(token) && Reliable(fate)
    requires FromYaml(Rendered(body, w.node.config, None)).Success?
    ensures var injected := body.(mode := WithLines(body.mode, BareMode.Block(token, version)));
            var w' := Next(w, LocalEdit(injected, fate));
            && BroughtVersion(injected) == version
            && w'.edits == w.edits + 1 && Version(w') == version && PreservedToken(w'.node.config) == token
            && w'.offered == w.offered
  {
    hide FromYaml, Rendered, CleanScalar, WithLines, BareMode.Block, BroughtVersion;
    var injected := body.(mode := WithLines(body.mode, BareMode.Block(token, version)));
    InjectedVersionIsTaken(body, w.node.config, token, version);
    VersionExactly(injected, w.node.config);
  }

  // ---------------- versions only rise ----------------------------------

  function VersionOfFrame(f: DownFrame): nat {
    match f
    case HelloAck => 0
    case ConfigPush(v, _) => v
    case Accepted(v) => v
  }

  /** The node is not ahead of the log, and an acceptance is newer than the node and every frame before it. */
  predicate Ordered(w: World) {
    && Version(w) <= |w.log| && (!w.connected ==> w.down == [])
    && (forall i | 0 <= i < |w.down| :: VersionOfFrame(w.down[i]) <= |w.log|)
    && (forall i | 0 <= i < |w.down| :: w.down[i].Accepted? ==> Version(w) <= w.down[i].version)
    && (forall i, j | 0 <= i < j < |w.down| ::
          w.down[j].Accepted? ==> VersionOfFrame(w.down[i]) <= w.down[j].version)
  }

  /** A local edit that is applied leaves the version as it was. */
  predicate Steady(w: World, e: Event) {
    EditLands(w, e) ==> e.body.microwaveprop.Some? || BroughtVersion(e.body) == Version(w)
  }

  predicate SteadyRun(w: World, es: seq<Event>)
    decreases |es|
  {
    es != [] ==> Steady(w, es[0]) && SteadyRun(Next(w, es[0]), es[1..])
  }

  lemma ServerOrders(w: World, valid: bool)
    requires Ordered(w)
    ensures Ordered(Next(w, ServerTakes(valid))) && Next(w, ServerTakes(valid)).node == w.node
  {
    if Enabled(w, ServerTakes(valid)) {
      var mid, f := w.(up := w.up[1..]), w.up[0];
      AnsweringIs(mid, f, valid);
      var w', added := Answering(mid, f, valid), AnswersTo(mid, f, valid);
      assert forall i | 0 <= i < |added| :: VersionOfFrame(added[i]) <= |w'.log|;
      assert forall i | 0 <= i < |added| :: added[i].Accepted? ==> added[i].version == |w'.log|;
      hide Answering, AnswersTo, LoggedFor, VersionOfFrame;
    }
  }

  lemma DeliverOrders(w: World, fate: Fate)
    requires Ordered(w) && Enabled(w, Deliver(fate))
    ensures Ordered(Next(w, Deliver(fate))) && Version(w) <= Version(Next(w, Deliver(fate)))
  {
    hide Pushed, Persisted, AppliedVersion;
    var rest := w.down[1..];
    assert forall i | 0 <= i < |rest| :: rest[i] == w.down[i + 1];
    match w.down[0]
    case HelloAck =>
    case ConfigPush(v, c) => PushVersion(w.node, Push(v, c), fate);
    case Accepted(v) =>
      PersistedConfig(w.node, v, fate);
      VersionMeansBlock(w.node.config);
  }

  lemma VersionMeansBlock(c: Config)
    ensures c.microwaveprop.None? ==> AppliedVersion(c) == 0
  {
  }

  /** No step lowers the version, and no steady local edit moves it at all. */
  lemma StepRaisesVersion(w: World, e: Event)
    requires Ordered(w) && Steady(w, e)
    ensures var w' := Next(w, e);
            Ordered(w') && Version(w) <= Version(w') && (e.LocalEdit? ==> Version(w') == Version(w))
  {
    hide Applied, Pushed, Persisted, FromConfig, AppliedVersion, PreservedToken, BroughtVersion, Answering;
    match e
    case LocalEdit(body, fate) => EditedConfig(w, body, fate);
    case Deliver(fate) =>
      if Enabled(w, e) { DeliverOrders(w, fate); }
    case ServerTakes(valid) => ServerOrders(w, valid);
    case PollReport(answer, fate) =>
      if Enabled(w, e) {
        PersistedConfig(w.node, |w.log| + 1, fate);
        VersionMeansBlock(w.node.config);
      }
    case PollPull(fate) =>
      if Enabled(w, e) { PushVersion(w.node, Newest(w), fate); }
    case _ =>
  }

  /**
   Over every run whose local edits are steady, against a log that reaches the
   node's version, the version only rises.
   */
  lemma {:induction false} VersionsOnlyRise(w: World, es: seq<Event>)
    requires Ordered(w) && SteadyRun(w, es)
    ensures Version(w) <= Version(SyncProtocol.Run(w, es))
    decreases |es|
  {
    hide Next, Ordered, Version, Steady;
    if es != [] {
      StepRaisesVersion(w, es[0]);
      VersionsOnlyRise(Next(w, es[0]), es[1..]);
    }
  }

  /** A blockless edit whose mode brings no block takes the version away with it; a clean mode word brings none. */
  lemma DroppingTheBlockDropsTheVersion(w: World, body: ConfigUpdate, fate: Fate)
    requires EditLands(w, LocalEdit(body, fate)) && body.microwaveprop.None?
    requires BroughtBlock(body).None? || CleanScalar(body.mode)
    ensures Version(Next(w, LocalEdit(body, fate))) == 0
  {
    hide Applied, FromConfig, AppliedVersion, BroughtBlock, CleanScalar, Brought;
    EditedConfig(w, body, fate);
    if CleanScalar(body.mode) { CleanBringsNothing(body); }
  }
}

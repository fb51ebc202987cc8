/**
 The node and the website keeping one config in agreement: reports going up,
 versions coming down, over sessions that drop and a polling fallback. This is
 the transition system; `SyncEdits`, `SyncAgreement` and `SyncVersions` prove
 what its runs keep.
 */
module SyncProtocol {
  import opened Results
  import opened BareMode
  import opened NodeConfig
  import opened ConfigText
  import opened ConfigStore
  import opened SyncConfigs

  // ---------------- the report bookkeeping ------------------------------

  datatype Flags = Flags(pending: bool, awaitingAck: bool, dirty: bool)

  function Marked(f: Flags): Flags {
    if f.awaitingAck then f.(dirty := true) else f.(pending := true)
  }

  function Acknowledged(f: Flags): Flags {
    Flags(f.dirty, false, false)
  }

  function InNewSession(f: Flags): Flags {
    Flags(f.pending || f.dirty, false, false)
  }

  class ReportState {
    var pending: bool
    var awaitingAck: bool
    var dirty: bool

    ghost function View(): Flags
      reads this
    {
      Flags(pending, awaitingAck, dirty)
    }

    constructor ()
      ensures View() == Flags(false, false, false)
    {
      pending, awaitingAck, dirty := false, false, false;
    }

    method MarkEdit()
      modifies this
      ensures View() == Marked(old(View()))
    {
      if awaitingAck {
        dirty := true;
      } else {
        pending := true;
      }
    }

    method Acked()
      modifies this
      ensures View() == Acknowledged(old(View()))
    {
      awaitingAck := false;
      if dirty {
        dirty := false;
        pending := true;
      } else {
        pending := false;
      }
    }

    /** The head of `run_session`: a report in flight is given up on. */
    method BeginSession()
      modifies this
      ensures View() == InNewSession(old(View()))
    {
      awaitingAck := false;
      if dirty {
        pending := true;
        dirty := false;
      }
    }
  }

  /** `latch_local_edit`: marks a change of the watched counter, once. */
  method LatchLocalEdit(report: ReportState, edits: nat, seen: nat) returns (seen': nat)
    modifies report
    ensures seen' == edits
    ensures report.View() == if seen != edits then Marked(old(report.View())) else old(report.View())
  {
    if seen != edits {
      report.MarkEdit();
    }
    seen' := edits;
  }

  // ---------------- frames and the world --------------------------------

  /** One version in the website's log, and whether it was adopted from a `hello`. */
  datatype Logged = Logged(config: SyncConfig, byHello: bool)

  datatype UpFrame = Hello(applied: u64, config: SyncConfig) | Report(config: SyncConfig)

  datatype DownFrame =
    | HelloAck
    | ConfigPush(version: u64, config: SyncConfig)
    | Accepted(version: u64)

  /** `handle_server_frame` on the node's state. */
  function Handled(s: State, f: DownFrame, fate: Fate): State {
    match f
    case HelloAck => s
    case ConfigPush(v, c) => Pushed(s, Push(v, c), fate).state
    case Accepted(v) => Persisted(s, v, fate).state
  }

  /** `handle_server_frame`: the reply is the `config_applied` to send, if any. */
  method HandleServerFrame(store: Store, report: ReportState, f: DownFrame, fate: Fate)
    returns (reply: Option<(u64, bool)>)
    requires store.Valid()
    modifies store`config, store`serving, store`worker, store.fs, report
    ensures store.Valid() && store.View() == Handled(old(store.View()), f, fate)
    ensures report.View() == if f.Accepted? then Acknowledged(old(report.View())) else old(report.View())
    ensures reply == if f.ConfigPush? && f.version > AppliedVersion(old(store.config))
                     then Some((f.version, Pushed(old(store.View()), Push(f.version, f.config), fate).result))
                     else None
  {
    hide Pushed, Persisted, SameContent, FromConfig;
    reply := None;
    match f
    case HelloAck =>
    case ConfigPush(v, c) =>
      var decision, ok := ApplyPush(store, Push(v, c), fate);
      if decision != Stale {
        reply := Some((v, ok));
      }
    case Accepted(v) =>
      var ok := store.PersistConfigVersion(v, fate);
      report.Acked();
  }

  datatype World = World(
    node: State,
    edits: nat,             // successful local edits so far: the watched counter
    seen: nat,              // the counter value the sync task last looked at
    flags: Flags,
    idle: bool,             // sitting in `wait_for_token`
    connected: bool,
    up: seq<UpFrame>,
    down: seq<DownFrame>,
    log: seq<Logged>,       // version v of the website is log[v - 1]
    snap: SyncConfig,       // history: what the last report carried
    latest: SyncConfig,     // history: what the node ran right after the last local edit
    mark: nat,              // history: the length of the log at that moment
    offered: set<u64>       // history: versions the website has sent
  )

  datatype Answer = Lost | Unanswered | Answered

  datatype Event =
    | LocalEdit(body: ConfigUpdate, fate: Fate)
    | Latch
    | Idle
    | TokenWait(woken: bool)
    | Connect
    | SendReport
    | NoticeEdit
    | Deliver(fate: Fate)
    | ServerTakes(valid: bool)
    | Website(config: SyncConfig, announced: bool)
    | Drop
    | PollReport(answer: Answer, fate: Fate)
    | PollPull(fate: Fate)

  predicate HasToken(w: World) {
    PreservedToken(w.node.config) != ""
  }

  function Version(w: World): u64 {
    AppliedVersion(w.node.config)
  }

  /** What the node runs, and what a report sent now would carry. */
  function Content(w: World): SyncConfig {
    FromConfig(w.node.config)
  }

  predicate CanMint(w: World) {
    |w.log| + 1 < 0x1_0000_0000_0000_0000
  }

  /** Between sessions, with a token in hand: the one the loop took, whatever the config says by now. */
  predicate Ready(w: World) {
    !w.connected && !w.idle
  }

  predicate Enabled(w: World, e: Event) {
    match e
    case LocalEdit(_, _) => true
    case Latch => Ready(w)
    case Idle => !w.connected && !HasToken(w)
    case TokenWait(_) => !w.connected && w.idle
    case Connect => Ready(w)
    case SendReport => w.connected && w.flags.pending && !w.flags.awaitingAck
    case NoticeEdit => w.connected && w.seen != w.edits
    case Deliver(_) => w.connected && w.down != []
    case ServerTakes(_) => w.connected && w.up != [] && CanMint(w)
    case Website(_, _) => CanMint(w)
    case Drop => w.connected
    case PollReport(_, _) => Ready(w) && w.flags.pending && CanMint(w)
    case PollPull(_) => Ready(w) && 0 < |w.log| < 0x1_0000_0000_0000_0000
  }

  /** The website answers the head of its queue; a report or a first `hello` may be refused. */
  function Answering(w: World, f: UpFrame, valid: bool): World
    requires CanMint(w)
  {
    match f
    case Hello(applied, config) =>
      if w.log == [] then
        if valid then
          w.(log := [Logged(config, true)], down := w.down + [HelloAck, Accepted(1)], offered := w.offered + {1})
        else w.(down := w.down + [HelloAck])
      else if applied < |w.log| then
        w.(down := w.down + [HelloAck, ConfigPush(|w.log|, w.log[|w.log| - 1].config)],
           offered := w.offered + {|w.log|})
      else w.(down := w.down + [HelloAck])
    case Report(config) =>
      if valid then
        w.(log := w.log + [Logged(config, false)], down := w.down + [Accepted(|w.log| + 1)],
           offered := w.offered + {|w.log| + 1})
      else w
  }

  function Delivered(w: World, f: DownFrame, fate: Fate): World {
    var node := Handled(w.node, f, fate);
    if f.Accepted? then w.(node := node, flags := Acknowledged(w.flags)) else w.(node := node)
  }

  function Polled(w: World, answer: Answer, fate: Fate): World
    requires CanMint(w)
  {
    match answer
    case Lost => w
    case Unanswered => w.(log := w.log + [Logged(Content(w), false)])
    case Answered =>
      var v := |w.log| + 1;
      w.(log := w.log + [Logged(Content(w), false)], node := Persisted(w.node, v, fate).state,
         flags := Acknowledged(w.flags), offered := w.offered + {v})
  }

  /** The newest version, as a pull reads it. */
  function Newest(w: World): PushFrame
    requires 0 < |w.log| < 0x1_0000_0000_0000_0000
  {
    Push(|w.log|, w.log[|w.log| - 1].config)
  }

  function Next(w: World, e: Event): World {
    if !Enabled(w, e) then w
    else
      match e
      case LocalEdit(body, fate) =>
        var o := Applied(w.node, body, None, fate);
        if o.result.Success? then
          w.(node := o.state, edits := w.edits + 1, latest := FromConfig(o.state.config), mark := |w.log|)
        else w
      case Latch =>
        if w.seen == w.edits then w else w.(seen := w.edits, flags := Marked(w.flags))
      case Idle => w.(idle := true)
      case TokenWait(woken) => w.(seen := if woken then w.edits else w.seen, idle := !HasToken(w))
      case Connect =>
        w.(connected := true, flags := InNewSession(w.flags), up := [Hello(Version(w), Content(w))], down := [])
      case SendReport =>
        w.(up := w.up + [Report(Content(w))], snap := Content(w), flags := w.flags.(awaitingAck := true))
      case NoticeEdit => w.(seen := w.edits, flags := Marked(w.flags))
      case Deliver(fate) => Delivered(w.(down := w.down[1..]), w.down[0], fate)
      case ServerTakes(valid) => Answering(w.(up := w.up[1..]), w.up[0], valid)
      case Website(config, announced) =>
        var w' := w.(log := w.log + [Logged(config, false)]);
        if w.connected && announced then
          w'.(down := w.down + [ConfigPush(|w.log| + 1, config)], offered := w.offered + {|w.log| + 1})
        else w'
      case Drop => w.(connected := false, up := [], down := [])
      case PollReport(answer, fate) => Polled(w, answer, fate)
      case PollPull(fate) =>
        w.(node := Pushed(w.node, Newest(w), fate).state, offered := w.offered + {|w.log|})
  }

  function Run(w: World, es: seq<Event>): World
    decreases |es|
  {
    if es == [] then w else Run(Next(w, es[0]), es[1..])
  }

  /** A process that has just loaded `text` and has not spoken to the website. */
  function Started(text: string, c: Config, log: seq<Logged>): World {
    World(Opened(text, c), 0, 0, Flags(false, false, false), false, false, [], [], log, FromConfig(c),
          FromConfig(c), 0, {})
  }

  // ---------------- steps that hypotheses speak of ----------------------

  /** The event hands the node a push. */
  predicate Pushes(w: World, e: Event) {
    Enabled(w, e) && (e.PollPull? || (e.Deliver? && w.down[0].ConfigPush?))
  }

  function PushOf(w: World, e: Event): PushFrame
    requires Pushes(w, e)
  {
    if e.PollPull? then Newest(w) else Push(w.down[0].version, w.down[0].config)
  }

  /** The event hands the node a push that is to replace its content. */
  predicate Replaces(w: World, e: Event) {
    Pushes(w, e) &&
    DecidePush(PushOf(w, e).version, Version(w), PushOf(w, e).config, Content(w)) == ApplyIt
  }

  /** A local edit is unseen in the watch, or pending. */
  predicate Outstanding(w: World) {
    w.seen != w.edits || w.flags.pending
  }

  /** A report in flight that no later edit has overtaken. */
  predicate Current(w: World) {
    w.connected && w.flags.awaitingAck && !w.flags.dirty && w.seen == w.edits
  }

  /** The acceptance of an adopted `hello` arrives while a report is owed, which it does not answer. */
  predicate Stray(w: World, e: Event) {
    && e.Deliver? && Enabled(w, e) && w.down[0].Accepted? && w.flags.pending
    && 0 < w.down[0].version <= |w.log| && w.log[w.down[0].version - 1].byHello
  }

  /** The wait for a token, woken by the watched counter, consumes its change; a time-out does not. */
  predicate Consumes(w: World, e: Event) {
    e.TokenWait? && e.woken && Enabled(w, e) && w.seen != w.edits
  }

  /** A local edit that is applied. */
  predicate EditLands(w: World, e: Event) {
    e.LocalEdit? && Applied(w.node, e.body, None, e.fate).result.Success?
  }

  /** The version a local edit that is applied leaves: kept with its block, or what its mode brings. */
  function VersionLeft(w: World, body: ConfigUpdate): u64 {
    if body.microwaveprop.Some? then Version(w) else BroughtVersion(body)
  }

  // ---------------- counting reports and answers ------------------------

  function Reports(up: seq<UpFrame>): nat {
    if up == [] then 0 else (if up[0].Report? then 1 else 0) + Reports(up[1..])
  }

  /** The acceptance answers a report. */
  predicate Answers(log: seq<Logged>, f: DownFrame) {
    f.Accepted? && 0 < f.version <= |log| && !log[f.version - 1].byHello
  }

  function AnswersIn(log: seq<Logged>, down: seq<DownFrame>): nat {
    if down == [] then 0 else (if Answers(log, down[0]) then 1 else 0) + AnswersIn(log, down[1..])
  }

  lemma {:induction false} ReportsAppend(a: seq<UpFrame>, b: seq<UpFrame>)
    ensures Reports(a + b) == Reports(a) + Reports(b)
  {
    if a == [] {
      assert a + b == b;
    } else {
      assert (a + b)[1..] == a[1..] + b;
      ReportsAppend(a[1..], b);
    }
  }

  lemma {:induction false} AnswersAppend(log: seq<Logged>, a: seq<DownFrame>, b: seq<DownFrame>)
    ensures AnswersIn(log, a + b) == AnswersIn(log, a) + AnswersIn(log, b)
  {
    if a == [] {
      assert a + b == b;
    } else {
      assert (a + b)[1..] == a[1..] + b;
      AnswersAppend(log, a[1..], b);
    }
  }

  predicate InLogRange(log: seq<Logged>, down: seq<DownFrame>) {
    forall i | 0 <= i < |down| :: down[i].Accepted? ==> 0 < down[i].version <= |log|
  }

  /** Versions minted later do not change what answers what. */
  lemma {:induction false} AnswersLater(log: seq<Logged>, log': seq<Logged>, down: seq<DownFrame>)
    requires log <= log' && InLogRange(log, down)
    ensures AnswersIn(log', down) == AnswersIn(log, down)
    decreases |down|
  {
    if down != [] {
      assert log'[..|log|] == log;
      AnswersLater(log, log', down[1..]);
    }
  }

  lemma {:induction false} NoReports(up: seq<UpFrame>)
    requires Reports(up) == 0
    ensures forall i | 0 <= i < |up| :: !up[i].Report?
  {
    if up != [] {
      NoReports(up[1..]);
    }
  }

  lemma {:induction false} NoAnswers(log: seq<Logged>, down: seq<DownFrame>)
    requires AnswersIn(log, down) == 0
    ensures forall i | 0 <= i < |down| :: !Answers(log, down[i])
  {
    if down != [] {
      NoAnswers(log, down[1..]);
    }
  }

  // ---------------- what a session looks like ---------------------------

  /** A version in the log that a frame on its way down names; one that answers a report logged its content. */
  predicate Honest(w: World, f: DownFrame) {
    match f
    case HelloAck => true
    case ConfigPush(v, c) => 0 < v <= |w.log| && w.log[v - 1].config == c
    case Accepted(v) => 0 < v <= |w.log| && (w.log[v - 1].byHello || w.log[v - 1].config == w.snap)
  }

  /** Frames in flight: `hello` first, and at most one report outstanding, the last one sent. */
  predicate Channels(w: World) {
    && (!w.connected ==> w.up == [] && w.down == [])
    && (forall i | 0 <= i < |w.up| :: w.up[i].Report? ==> w.up[i].config == w.snap)
    && (forall i | 0 < i < |w.up| :: w.up[i].Report?)
    && (forall i | 0 <= i < |w.down| :: Honest(w, w.down[i]))
    && Reports(w.up) + AnswersIn(w.log, w.down) <= (if w.flags.awaitingAck then 1 else 0)
  }

  predicate Bookkeeping(w: World) {
    w.seen <= w.edits && (w.flags.awaitingAck ==> w.flags.pending) && (w.flags.dirty ==> w.flags.awaitingAck)
  }

  /** The bookkeeping and the channels, in every state of every run. */
  predicate Session(w: World) {
    Channels(w) && Bookkeeping(w)
  }

  predicate Unconnected(w: World) {
    && !w.connected && w.up == [] && w.down == [] && w.seen == w.edits
    && w.flags == Flags(false, false, false)
  }

  /** What a session says, taken apart. */
  lemma SessionSays(w: World)
    requires Session(w)
    ensures w.seen <= w.edits && (w.flags.awaitingAck ==> w.flags.pending) && (w.flags.dirty ==> w.flags.awaitingAck)
    ensures !w.connected ==> w.down == [] && w.up == []
    ensures forall i | 0 < i < |w.up| :: w.up[i].Report?
    ensures InLogRange(w.log, w.down)
    ensures forall i | 0 <= i < |w.down| :: Honest(w, w.down[i])
    ensures !w.flags.awaitingAck ==> forall i | 0 <= i < |w.down| :: !Answers(w.log, w.down[i])
  {
    if !w.flags.awaitingAck { NoAnswers(w.log, w.down); }
  }

  lemma UnconnectedIsSession(w: World)
    requires Unconnected(w)
    ensures Session(w)
  {
  }

  lemma HonestLater(w: World, w': World, down: seq<DownFrame>)
    requires w.log <= w'.log && w.snap == w'.snap
    requires forall i | 0 <= i < |down| :: Honest(w, down[i])
    ensures forall i | 0 <= i < |down| :: Honest(w', down[i])
    ensures AnswersIn(w'.log, down) == AnswersIn(w.log, down)
  {
    AnswersLater(w.log, w'.log, down);
  }

  /** The frames one answer puts on the way down. */
  function AnswersTo(w: World, f: UpFrame, valid: bool): seq<DownFrame>
    requires CanMint(w)
  {
    match f
    case Hello(applied, _) =>
      if w.log == [] then if valid then [HelloAck, Accepted(1)] else [HelloAck]
      else if applied < |w.log| then [HelloAck, ConfigPush(|w.log|, w.log[|w.log| - 1].config)]
      else [HelloAck]
    case Report(_) => if valid then [Accepted(|w.log| + 1)] else []
  }

  function LoggedFor(w: World, f: UpFrame, valid: bool): seq<Logged> {
    match f
    case Hello(_, config) => if w.log == [] && valid then [Logged(config, true)] else []
    case Report(config) => if valid then [Logged(config, false)] else []
  }

  lemma AnsweringIs(w: World, f: UpFrame, valid: bool)
    requires CanMint(w)
    ensures var w', added := Answering(w, f, valid), AnswersTo(w, f, valid);
            && w'.down == w.down + added && w'.log == w.log + LoggedFor(w, f, valid)
            && AnswersIn(w'.log, added) == (if f.Report? && valid then 1 else 0)
            && w' == w.(down := w'.down, log := w'.log, offered := w'.offered)
  {
    var w', added := Answering(w, f, valid), AnswersTo(w, f, valid);
    assert w.down + [] == w.down && w.log + [] == w.log;
    assert w.log == [] ==> w.log + LoggedFor(w, f, valid) == LoggedFor(w, f, valid);
    if |added| > 0 {
      assert AnswersIn(w'.log, added) ==
             (if Answers(w'.log, added[0]) then 1 else 0) + AnswersIn(w'.log, added[1..]);
      if |added| > 1 {
        assert AnswersIn(w'.log, added[1..]) ==
               (if Answers(w'.log, added[1..][0]) then 1 else 0) + AnswersIn(w'.log, added[1..][1..]);
      }
    }
  }

  lemma AnswerKeepsSession(w: World, f: UpFrame, valid: bool)
    requires w.connected && CanMint(w) && Bookkeeping(w)
    requires f.Report? ==> f.config == w.snap
    requires forall i | 0 <= i < |w.up| :: w.up[i].Report? && w.up[i].config == w.snap
    requires forall i | 0 <= i < |w.down| :: Honest(w, w.down[i])
    requires Reports(w.up) + AnswersIn(w.log, w.down) + (if f.Report? then 1 else 0) <=
             (if w.flags.awaitingAck then 1 else 0)
    ensures Session(Answering(w, f, valid))
  {
    hide Answering, AnswersTo, Honest, AnswersIn, Reports;
    var w', added := Answering(w, f, valid), AnswersTo(w, f, valid);
    AnsweringIs(w, f, valid);
    HonestLater(w, w', w.down);
    AnswersAppend(w'.log, w.down, added);
    AddedIsHonest(w, f, valid);
  }

  lemma AddedIsHonest(w: World, f: UpFrame, valid: bool)
    requires CanMint(w) && (f.Report? ==> f.config == w.snap)
    ensures var w', added := Answering(w, f, valid), AnswersTo(w, f, valid);
            forall i | 0 <= i < |added| :: Honest(w', added[i])
  {
  }

  lemma ServerKeepsSession(w: World, valid: bool)
    requires Session(w)
    ensures Session(Next(w, ServerTakes(valid)))
  {
    hide Answering, Honest, AnswersIn;
    if Enabled(w, ServerTakes(valid)) {
      var f, rest := w.up[0], w.up[1..];
      var mid := w.(up := rest);
      assert forall i | 0 <= i < |rest| :: rest[i] == w.up[i + 1];
      HonestLater(w, mid, w.down);
      AnswerKeepsSession(mid, f, valid);
    }
  }

  lemma SendKeepsSession(w: World)
    requires Session(w)
    ensures Session(Next(w, SendReport))
  {
    hide FromConfig;
    var w', sent := Next(w, SendReport), Report(Content(w));
    if Enabled(w, SendReport) {
      NoReports(w.up);
      NoAnswers(w.log, w.down);
      ReportsAppend(w.up, [sent]);
      assert Reports([sent]) == 1 by { assert [sent][1..] == []; }
      assert forall i | 0 <= i < |w.down| ::
          Honest(w, w.down[i]) && !Answers(w.log, w.down[i]) ==> Honest(w', w.down[i]);
    }
  }

  lemma DeliverKeepsSession(w: World, fate: Fate)
    requires Session(w) && !Stray(w, Deliver(fate))
    ensures Session(Next(w, Deliver(fate)))
  {
    hide Handled;
    var w' := Next(w, Deliver(fate));
    if Enabled(w, Deliver(fate)) {
      var rest := w.down[1..];
      assert Honest(w, w.down[0]);
      assert forall i | 0 <= i < |rest| :: rest[i] == w.down[i + 1];
      assert forall i | 0 <= i < |rest| :: Honest(w, rest[i]) ==> Honest(w', rest[i]);
    }
  }

  /** An answer finds its report awaited, and nothing else in flight. */
  lemma AnswerIsAwaited(w: World)
    requires Session(w) && w.connected && w.down != [] && Answers(w.log, w.down[0])
    ensures w.flags.awaitingAck && Reports(w.up) == 0 && AnswersIn(w.log, w.down[1..]) == 0
  {
    hide Honest;
  }

  lemma ConnectKeepsSession(w: World)
    requires Session(w)
    ensures Session(Next(w, Connect))
  {
    hide FromConfig, HasToken, AppliedVersion;
    var hello := Hello(Version(w), Content(w));
    assert [hello][1..] == [];
  }

  lemma WebsiteKeepsSession(w: World, config: SyncConfig, announced: bool)
    requires Session(w)
    ensures Session(Next(w, Website(config, announced)))
  {
    var w' := Next(w, Website(config, announced));
    if Enabled(w, Website(config, announced)) {
      HonestLater(w, w', w.down);
      var push := ConfigPush(|w.log| + 1, config);
      AnswersAppend(w'.log, w.down, [push]);
      assert [push][1..] == [];
    }
  }

  lemma QuietKeepsSession(w: World, e: Event)
    requires Session(w)
    requires e.LocalEdit? || e.Latch? || e.Idle? || e.TokenWait? || e.NoticeEdit? || e.Drop? || e.PollReport?
             || e.PollPull?
    ensures Session(Next(w, e))
  {
    hide Applied, Pushed, Persisted, FromConfig, PreservedToken, Reports, AnswersIn;
    var w' := Next(w, e);
    assert Reports([]) == 0 && AnswersIn(w'.log, []) == 0 by { NothingInFlight(w'.log); }
    assert forall i | 0 <= i < |w.down| && w'.down == w.down && w'.log == w.log ::
        Honest(w, w.down[i]) ==> Honest(w', w.down[i]);
  }

  lemma NothingInFlight(log: seq<Logged>)
    ensures Reports([]) == 0 && AnswersIn(log, []) == 0
  {
  }

  /** Every event keeps the bookkeeping, unless it is an acceptance that answers nothing. */
  lemma StepKeepsSession(w: World, e: Event)
    requires Session(w) && !Stray(w, e)
    ensures Session(Next(w, e))
  {
    hide Session, Next, Stray;
    match e
    case Connect => ConnectKeepsSession(w);
    case SendReport => SendKeepsSession(w);
    case Deliver(fate) => DeliverKeepsSession(w, fate);
    case ServerTakes(valid) => ServerKeepsSession(w, valid);
    case Website(config, announced) => WebsiteKeepsSession(w, config, announced);
    case _ => QuietKeepsSession(w, e);
  }

  // ---------------- what the node's own operations do -------------------

  lemma PersistedConfig(s: State, v: u64, fate: Fate)
    ensures var c := Persisted(s, v, fate).state.config;
            && c == WithVersion(s.config, v) && FromConfig(c) == FromConfig(s.config)
            && PreservedToken(c) == PreservedToken(s.config)
            && c.microwaveprop.Some? == s.config.microwaveprop.Some?
            && AppliedVersion(c) == if s.config.microwaveprop.Some? then v else 0
  {
    hide Rendered, ModeName;
  }

  lemma AppliedAcceptable(s: State, body: ConfigUpdate, version: Option<u64>, fate: Fate)
    requires Acceptable(s.config)
    ensures Acceptable(Applied(s, body, version, fate).state.config)
  {
    hide FromYaml, Rendered, Acceptable;
    var yaml := Rendered(body, s.config, version);
    if FromYaml(yaml).Success? { ReadIsAcceptable(yaml); }
  }

  lemma PersistedAcceptable(s: State, v: u64, fate: Fate)
    requires Acceptable(s.config)
    ensures Acceptable(Persisted(s, v, fate).state.config)
  {
    PersistedConfig(s, v, fate);
    hide Persisted;
  }

  lemma PushedAcceptable(s: State, p: PushFrame, fate: Fate)
    requires Acceptable(s.config)
    ensures Acceptable(Pushed(s, p, fate).state.config)
  {
    hide Acceptable, Applied, Persisted, FromConfig, ToConfigUpdate, AppliedVersion, SameContent;
    AppliedAcceptable(s, ToConfigUpdate(p.config, s.config), Some(p.version), fate);
    PersistedAcceptable(s, p.version, fate);
  }

  /** After every event the node still runs a config that the rules accept. */
  lemma StepKeepsAcceptable(w: World, e: Event)
    requires Acceptable(w.node.config)
    ensures Acceptable(Next(w, e).node.config)
  {
    hide Acceptable, Applied, Pushed, Persisted, FromConfig, PreservedToken, AppliedVersion, Answering;
    if Enabled(w, e) {
      match e
      case LocalEdit(body, fate) => AppliedAcceptable(w.node, body, None, fate);
      case Deliver(fate) =>
        match w.down[0] {
          case HelloAck =>
          case ConfigPush(v, c) => PushedAcceptable(w.node, Push(v, c), fate);
          case Accepted(v) => PersistedAcceptable(w.node, v, fate);
        }
      case ServerTakes(valid) => AnsweringIs(w.(up := w.up[1..]), w.up[0], valid);
      case PollReport(_, fate) => PersistedAcceptable(w.node, |w.log| + 1, fate);
      case PollPull(fate) => PushedAcceptable(w.node, Newest(w), fate);
      case _ =>
    }
  }

  /** A push is stale, only raises the version, is refused, or lands as what it is taken as. */
  lemma PushedConfig(s: State, p: PushFrame, fate: Fate)
    ensures var c := Pushed(s, p, fate).state.config;
            var d := DecidePush(p.version, AppliedVersion(s.config), p.config, FromConfig(s.config));
            || c == s.config
            || (d == VersionOnly && s.config.microwaveprop.Some? && FromConfig(s.config) == p.config
                && c == WithVersion(s.config, p.version))
            || (d == ApplyIt && fate.Written() && Reading(s.config, p.config, p.version) == Success(c)
                && c == Overwritten(s.config, FromConfig(c), p.version))
  {
    hide Rendered, FromYaml, FromConfig, ToConfigUpdate, Overwritten, WithVersion, AppliedVersion;
    if Reading(s.config, p.config, p.version).Success? {
      PushAsMeant(s.config, p.config, p.version);
    }
    PersistedConfig(s, p.version, fate);
    if s.config.microwaveprop.None? {
      NoVersion(s.config, p.version);
    }
  }

  lemma NoVersion(c: Config, v: u64)
    requires c.microwaveprop.None?
    ensures WithVersion(c, v) == c
  {
  }

  /** A push that is to be applied is applied exactly when it is taken and can be written. */
  lemma AppliedExactly(s: State, p: PushFrame, fate: Fate)
    requires Acceptable(s.config)
    requires DecidePush(p.version, AppliedVersion(s.config), p.config, FromConfig(s.config)) == ApplyIt
    ensures var s' := Pushed(s, p, fate).state;
            if fate.Written() && Taken(p.config).Some? then
              s'.config == Overwritten(s.config, Taken(p.config).value, p.version)
              && FromConfig(s'.config) == Taken(p.config).value
            else s' == s
  {
    hide Rendered, FromYaml, FromConfig, ToConfigUpdate, Overwritten, AppliedVersion, Acceptable, Taken;
    PushLands(s.config, p.config, p.version);
  }

  lemma OverwrittenFacts(c: Config, p: SyncConfig, v: u64)
    ensures AppliedVersion(Overwritten(c, p, v)) == v
    ensures PreservedToken(Overwritten(c, p, v)) == PreservedToken(c)
    ensures Overwritten(c, p, v).microwaveprop.Some?
  {
  }

  lemma VersionedFacts(c: Config, v: u64)
    ensures FromConfig(WithVersion(c, v)) == FromConfig(c)
    ensures AppliedVersion(WithVersion(c, v)) == if c.microwaveprop.Some? then v else 0
    ensures WithVersion(c, v).microwaveprop.Some? == c.microwaveprop.Some?
  {
  }

  /** A local edit that is applied keeps the version with its own block, and takes it from its mode without one. */
  lemma EditedConfig(w: World, body: ConfigUpdate, fate: Fate)
    ensures var o := Applied(w.node, body, None, fate);
            AppliedVersion(o.state.config) == if o.result.Success? then VersionLeft(w, body) else Version(w)
  {
    hide FromYaml, Rendered, BroughtVersion, AppliedVersion;
    if FromYaml(Rendered(body, w.node.config, None)).Success? {
      VersionExactly(body, w.node.config);
    }
  }

  lemma TokenMeansBlock(c: Config)
    ensures PreservedToken(c) != "" ==> c.microwaveprop.Some?
  {
  }

  // ---------------- single events ---------------------------------------

  lemma HeadDelivered(w: World, f: DownFrame, rest: seq<DownFrame>, fate: Fate)
    requires w.connected && w.down == [f] + rest
    ensures Next(w, Deliver(fate)) == Delivered(w.(down := rest), f, fate)
  {
    hide Applied, Delivered, Polled, Pushed, Answering;
    assert w.down[1..] == rest;
  }

  lemma Greeted(w: World)
    requires Ready(w) && w.flags.pending
    ensures Next(Next(w, Connect), SendReport) ==
            w.(connected := true, flags := Flags(true, true, false), snap := Content(w), down := [],
               up := [Hello(Version(w), Content(w)), Report(Content(w))])
  {
    hide FromConfig, HasToken, AppliedVersion, Applied, Answering, Delivered, Polled, Pushed;
    assert [Hello(Version(w), Content(w))] + [Report(Content(w))] ==
           [Hello(Version(w), Content(w)), Report(Content(w))];
  }

  lemma BehindIsPushed(w: World, applied: u64, config: SyncConfig, report: UpFrame)
    requires w.connected && w.up == [Hello(applied, config), report] && w.down == []
    requires CanMint(w) && applied < |w.log|
    ensures var n := |w.log|;
            Next(w, ServerTakes(true)) ==
            w.(up := [report], down := [HelloAck, ConfigPush(n, w.log[n - 1].config)], offered := w.offered + {n})
  {
    hide Applied, Delivered, Polled, Pushed;
    assert w.up[1..] == [report];
    var answers := [HelloAck, ConfigPush(|w.log|, w.log[|w.log| - 1].config)];
    assert [] + answers == answers;
  }

  lemma Dropped(w: World)
    requires w.connected
    ensures Next(w, Drop) == w.(connected := false, up := [], down := [])
  {
    hide Applied, Delivered, Polled, Pushed, Answering;
  }
}

/**
 When the node and the website agree: a node with no edit outstanding runs what
 the website logged under the node's version.
 */
module SyncAgreement {
  import opened Results
  import opened NodeConfig
  import opened ConfigText
  import opened ConfigStore
  import opened SyncConfigs
  import opened SyncProtocol

  // ---------------- the hypotheses --------------------------------------

  /** A push is about to replace the node's content while a current report awaits its ack. */
  predicate Race(w: World, e: Event) {
    e.Deliver? && Replaces(w, e) && Current(w)
  }

  /** A push is about to be taken as something other than what it says. */
  predicate Amiss(w: World, e: Event) {
    Replaces(w, e) && Taken(PushOf(w, e).config).Some? && !Legal(PushOf(w, e).config)
  }

  predicate Orderly(w: World, e: Event) {
    !Race(w, e) && !Amiss(w, e) && !Stray(w, e) && !Consumes(w, e)
  }

  predicate OrderlyRun(w: World, es: seq<Event>)
    decreases |es|
  {
    es != [] ==> Orderly(w, es[0]) && OrderlyRun(Next(w, es[0]), es[1..])
  }

  // ---------------- the invariant ---------------------------------------

  /** No local edit is unseen, pending or in flight. */
  predicate Quiet(w: World) {
    !Outstanding(w)
  }

  /** The node runs exactly what the website logged under the node's version. */
  predicate Agrees(w: World) {
    Version(w) == 0 || (Version(w) <= |w.log| && Content(w) == w.log[Version(w) - 1].config)
  }

  predicate Settled(w: World) {
    (Quiet(w) ==> Agrees(w)) && (Current(w) ==> Content(w) == w.snap)
  }

  /** The node is well formed, and only a first version can come from a `hello`. */
  predicate Sound(w: World) {
    && Consistent(w.node)
    && (forall i | 0 <= i < |w.log| :: w.log[i].byHello ==> i == 0)
  }

  /**
   While a first `hello` may be adopted nothing else comes down before its
   acceptance, and the node still runs what it said unless an edit is
   outstanding.
   */
  predicate Adopting(w: World) {
    && (w.log == [] ==>
          && (forall i | 0 <= i < |w.down| :: w.down[i].HelloAck?)
          && (w.up != [] && w.up[0].Hello? && Quiet(w) ==> w.up[0].config == Content(w)))
    && (forall j | 0 <= j < |w.down| :: ByHello(w, w.down[j]) ==>
          && (forall i | 0 <= i < j :: w.down[i].HelloAck?)
          && (Quiet(w) ==> w.log[0].config == Content(w)))
  }

  predicate ByHello(w: World, f: DownFrame) {
    f.Accepted? && 0 < f.version <= |w.log| && w.log[f.version - 1].byHello
  }

  predicate Good(w: World) {
    Session(w) && Sound(w) && Adopting(w) && Settled(w)
  }

  /** Any process, against any log that agrees with it. */
  lemma StartedIsGood(text: string, log: seq<Logged>)
    requires FromYaml(text).Success?
    requires Agrees(Started(text, FromYaml(text).value, log))
    requires forall i | 0 <= i < |log| :: log[i].byHello ==> i == 0
    ensures Good(Started(text, FromYaml(text).value, log))
  {
    hide FromYaml, Consistent, FromConfig;
    OpenedIsConsistent(text);
    UnconnectedIsSession(Started(text, FromYaml(text).value, log));
  }

  // ---------------- what the node's operations do to it ------------------

  lemma EditedNode(s: State, body: ConfigUpdate, fate: Fate)
    requires Consistent(s)
    ensures Consistent(Applied(s, body, None, fate).state)
  {
    hide Consistent, Applied;
    StepKeepsConsistent(s, Apply(body, None, fate));
  }

  lemma PersistedNode(s: State, v: u64, fate: Fate)
    requires Consistent(s)
    ensures var s' := Persisted(s, v, fate).state;
            && Consistent(s') && FromConfig(s'.config) == FromConfig(s.config)
            && AppliedVersion(s'.config) == if s.config.microwaveprop.Some? then v else 0
  {
    hide Consistent, Persisted;
    StepKeepsConsistent(s, Persist(v, fate));
    PersistedConfig(s, v, fate);
  }

  /** A push that is refused or taken as itself is ignored, only recorded, or lands. */
  lemma PushedNode(s: State, p: PushFrame, fate: Fate)
    requires Consistent(s)
    requires DecidePush(p.version, AppliedVersion(s.config), p.config, FromConfig(s.config)) == ApplyIt ==>
               Taken(p.config).None? || Legal(p.config)
    ensures var s' := Pushed(s, p, fate).state;
            var d := DecidePush(p.version, AppliedVersion(s.config), p.config, FromConfig(s.config));
            && Consistent(s')
            && (|| (AppliedVersion(s'.config) == AppliedVersion(s.config)
                    && FromConfig(s'.config) == FromConfig(s.config))
                || (AppliedVersion(s'.config) == p.version && FromConfig(s'.config) == p.config))
            && (d != ApplyIt ==> FromConfig(s'.config) == FromConfig(s.config))
  {
    hide Consistent, FromConfig, Overwritten, WithVersion, AppliedVersion, SameContent, Taken, Reading, Pushed;
    PushIsStep(s, p, fate);
    assert Acceptable(s.config) by { ConsistentIsAcceptable(s); }
    hide Acceptable;
    PushedConfig(s, p, fate);
    VersionedFacts(s.config, p.version);
    var c := Pushed(s, p, fate).state.config;
    if DecidePush(p.version, AppliedVersion(s.config), p.config, FromConfig(s.config)) == ApplyIt {
      AppliedExactly(s, p, fate);
      TakenExactly(p.config);
      OverwrittenFacts(s.config, p.config, p.version);
      assert Taken(p.config).Some? ==> Taken(p.config).value == p.config;
      assert c == s.config || c == Overwritten(s.config, p.config, p.version) by { PushedWhole(s, p, fate); }
    }
  }

  lemma PushedWhole(s: State, p: PushFrame, fate: Fate)
    requires Acceptable(s.config) && (Taken(p.config).Some? ==> Taken(p.config).value == p.config)
    requires DecidePush(p.version, AppliedVersion(s.config), p.config, FromConfig(s.config)) == ApplyIt
    ensures var c := Pushed(s, p, fate).state.config;
            c == s.config || c == Overwritten(s.config, p.config, p.version)
  {
    hide Acceptable, FromConfig, Overwritten, AppliedVersion, Taken, Pushed, SameContent;
    AppliedExactly(s, p, fate);
  }

  lemma ConsistentIsAcceptable(s: State)
    requires Consistent(s)
    ensures Acceptable(s.config)
  {
    hide Acceptable;
  }

  // ---------------- each step -------------------------------------------

  lemma EditSettles(w: World, body: ConfigUpdate, fate: Fate)
    requires Good(w)
    ensures Good(Next(w, LocalEdit(body, fate)))
  {
    hide Session, Consistent, Applied, FromConfig, AppliedVersion, ByHello;
    StepKeepsSession(w, LocalEdit(body, fate));
    EditedNode(w.node, body, fate);
    AppliedIsActive(w.node, body, None, fate);
    assert w.seen <= w.edits by { SessionSays(w); }
    assert forall f :: ByHello(Next(w, LocalEdit(body, fate)), f) == ByHello(w, f) by {
      SameLogSame(w, Next(w, LocalEdit(body, fate)));
    }
  }

  lemma SameLogSame(w: World, w': World)
    requires w.log == w'.log
    ensures forall f :: ByHello(w', f) == ByHello(w, f)
  {
  }

  lemma AcceptedSettles(w: World, fate: Fate)
    requires w.connected && w.down != [] && w.down[0].Accepted?
    requires Good(w) && Orderly(w, Deliver(fate))
    ensures Good(Next(w, Deliver(fate)))
  {
    hide Session, Consistent, Pushed, Persisted, FromConfig, AppliedVersion, Replaces, Amiss, Race;
    var f, rest, w' := w.down[0], w.down[1..], Next(w, Deliver(fate));
    StepKeepsSession(w, Deliver(fate));
    SessionSays(w);
    assert Honest(w, f);
    SameLogSame(w, w');
    assert forall i | 0 <= i < |rest| :: rest[i] == w.down[i + 1];
    PersistedNode(w.node, f.version, fate);
    if Answers(w.log, f) {
      AnswerIsAwaited(w);
    } else {
      assert ByHello(w, f) && f.version == 1;
    }
  }

  lemma PushSettles(w: World, fate: Fate)
    requires w.connected && w.down != [] && !w.down[0].Accepted?
    requires Good(w) && Orderly(w, Deliver(fate))
    ensures Good(Next(w, Deliver(fate)))
  {
    hide Session, Consistent, Pushed, Persisted, FromConfig, AppliedVersion, SameContent, Taken, Legal, ByHello;
    var f, rest, w' := w.down[0], w.down[1..], Next(w, Deliver(fate));
    StepKeepsSession(w, Deliver(fate));
    SessionSays(w);
    assert Honest(w, f);
    SameLogSame(w, w');
    assert forall i | 0 <= i < |rest| :: rest[i] == w.down[i + 1];
    if f.ConfigPush? {
      PushedNode(w.node, Push(f.version, f.config), fate);
    }
  }

  lemma DeliverSettles(w: World, fate: Fate)
    requires Good(w) && Orderly(w, Deliver(fate))
    ensures Good(Next(w, Deliver(fate)))
  {
    hide Good, Orderly, Delivered;
    if Enabled(w, Deliver(fate)) {
      if w.down[0].Accepted? { AcceptedSettles(w, fate); } else { PushSettles(w, fate); }
    }
  }

  lemma ServerSettles(w: World, valid: bool)
    requires Good(w)
    ensures Good(Next(w, ServerTakes(valid)))
  {
    hide Session, Consistent, FromConfig, AppliedVersion;
    var e := ServerTakes(valid);
    StepKeepsSession(w, e);
    if Enabled(w, e) {
      SessionSays(w);
      var f, rest := w.up[0], w.up[1..];
      var mid := w.(up := rest);
      var w', added := Answering(mid, f, valid), AnswersTo(mid, f, valid);
      AnsweringIs(mid, f, valid);
      assert forall i | 0 <= i < |rest| :: rest[i] == w.up[i + 1];
      ServerIsSound(mid, f, valid);
      ServerAdopts(w, f, valid);
    }
  }

  lemma ServerIsSound(w: World, f: UpFrame, valid: bool)
    requires Sound(w) && CanMint(w)
    ensures Sound(Answering(w, f, valid))
  {
    hide Consistent, FromConfig, AppliedVersion;
    AnsweringIs(w, f, valid);
    hide Answering;
  }

  lemma SettledLater(w: World, w': World)
    requires Settled(w) && w.log <= w'.log && w'.node == w.node && w'.seen == w.seen
    requires w'.edits == w.edits && w'.flags == w.flags && w'.snap == w.snap && w'.connected == w.connected
    ensures Settled(w')
  {
    hide FromConfig, AppliedVersion;
  }

  lemma ServerAdopts(w: World, f: UpFrame, valid: bool)
    requires Good(w) && w.connected && w.up != [] && CanMint(w) && f == w.up[0]
    ensures var w' := Answering(w.(up := w.up[1..]), f, valid); Adopting(w') && Settled(w')
  {
    hide Consistent, FromConfig, AppliedVersion;
    var rest := w.up[1..];
    var mid := w.(up := rest);
    AnsweringIs(mid, f, valid);
    SessionSays(w);
    hide Session, Answering, Agrees, Current;
    var w' := Answering(mid, f, valid);
    SettledLater(w, w');
    assert forall i | 0 <= i < |rest| :: rest[i] == w.up[i + 1];
    hide Settled, Sound;
    if w.log == [] {
      FirstAnswer(w, f, valid);
    } else {
      LaterAnswer(w, f, valid);
    }
  }

  lemma FirstAnswer(w: World, f: UpFrame, valid: bool)
    requires Adopting(w) && w.log == [] && w.connected && w.up != [] && CanMint(w) && f == w.up[0]
    requires forall i | 0 < i < |w.up| :: w.up[i].Report?
    ensures Adopting(Answering(w.(up := w.up[1..]), f, valid))
  {
    hide FromConfig, Quiet;
    var rest := w.up[1..];
    var mid := w.(up := rest);
    var w', added := Answering(mid, f, valid), AnswersTo(mid, f, valid);
    AnsweringIs(mid, f, valid);
    assert Quiet(w') == Quiet(w) by { SameQuiet(w, w'); }
    hide Answering, Honest;
    assert forall i | 0 <= i < |rest| :: rest[i] == w.up[i + 1];
    assert forall i | 0 <= i < |added| :: ByHello(w', added[i]) ==> f.Hello? && i == 1 && added[0].HelloAck?;
  }

  lemma LaterAnswer(w: World, f: UpFrame, valid: bool)
    requires Adopting(w) && w.log != [] && w.connected && w.up != [] && CanMint(w) && f == w.up[0]
    requires forall i | 0 <= i < |w.down| :: Honest(w, w.down[i])
    ensures Adopting(Answering(w.(up := w.up[1..]), f, valid))
  {
    hide FromConfig, Quiet;
    var mid := w.(up := w.up[1..]);
    var w', added := Answering(mid, f, valid), AnswersTo(mid, f, valid);
    AnsweringIs(mid, f, valid);
    assert Quiet(w') == Quiet(w) by { SameQuiet(w, w'); }
    assert forall i | 0 <= i < |w.down| :: ByHello(w', w.down[i]) ==> ByHello(w, w.down[i]);
    assert forall i | 0 <= i < |added| :: !ByHello(w', added[i]);
    hide Answering, Honest, ByHello;
  }

  lemma SameQuiet(w: World, w': World)
    requires w'.seen == w.seen && w'.edits == w.edits && w'.flags == w.flags
    ensures Quiet(w') == Quiet(w)
  {
  }

  lemma SendSettles(w: World)
    requires Good(w)
    ensures Good(Next(w, SendReport))
  {
    hide Session, Consistent, FromConfig, AppliedVersion, ByHello;
    StepKeepsSession(w, SendReport);
    if Enabled(w, SendReport) {
      SessionSays(w);
      SameLogSame(w, Next(w, SendReport));
    }
  }

  lemma PollReportSettles(w: World, answer: Answer, fate: Fate)
    requires Good(w)
    ensures Good(Next(w, PollReport(answer, fate)))
  {
    hide Session, Consistent, Persisted, FromConfig, AppliedVersion, PreservedToken, ByHello;
    var e := PollReport(answer, fate);
    StepKeepsSession(w, e);
    if Enabled(w, e) {
      SessionSays(w);
      PersistedNode(w.node, |w.log| + 1, fate);
    }
  }

  lemma PollPullSettles(w: World, fate: Fate)
    requires Good(w) && !Amiss(w, PollPull(fate))
    ensures Good(Next(w, PollPull(fate)))
  {
    hide Session, Consistent, Pushed, FromConfig, AppliedVersion, SameContent, PreservedToken, ByHello, Taken, Legal;
    var e := PollPull(fate);
    StepKeepsSession(w, e);
    if Enabled(w, e) {
      SessionSays(w);
      PushedNode(w.node, Newest(w), fate);
    }
  }

  lemma WebsiteSettles(w: World, config: SyncConfig, announced: bool)
    requires Good(w)
    ensures Good(Next(w, Website(config, announced)))
  {
    hide Session, Consistent, FromConfig, AppliedVersion;
    var e := Website(config, announced);
    StepKeepsSession(w, e);
    if Enabled(w, e) {
      SessionSays(w);
      var w' := Next(w, e);
      SettledLater(w, w');
      assert forall i | 0 <= i < |w.down| :: ByHello(w', w.down[i]) ==> ByHello(w, w.down[i]);
      assert forall v, c :: !ByHello(w', ConfigPush(v, c));
      hide Settled, ByHello;
    }
  }

  lemma ConnectSettles(w: World)
    requires Good(w)
    ensures Good(Next(w, Connect))
  {
    hide Session, Consistent, FromConfig, AppliedVersion, ByHello, PreservedToken;
    StepKeepsSession(w, Connect);
    if Enabled(w, Connect) {
      SessionSays(w);
    }
  }

  lemma OthersSettle(w: World, e: Event)
    requires Good(w) && Orderly(w, e) && (e.Latch? || e.Idle? || e.TokenWait? || e.NoticeEdit? || e.Drop?)
    ensures Good(Next(w, e))
  {
    hide Session, Consistent, FromConfig, AppliedVersion, ByHello, PreservedToken;
    StepKeepsSession(w, e);
    SessionSays(w);
    SameLogSame(w, Next(w, e));
  }

  lemma StepSettles(w: World, e: Event)
    requires Good(w) && Orderly(w, e)
    ensures Good(Next(w, e))
  {
    hide Good, Next, Race, Amiss, Stray, Consumes;
    match e
    case LocalEdit(body, fate) => EditSettles(w, body, fate);
    case Connect => ConnectSettles(w);
    case SendReport => SendSettles(w);
    case Deliver(fate) => DeliverSettles(w, fate);
    case ServerTakes(valid) => ServerSettles(w, valid);
    case Website(config, announced) => WebsiteSettles(w, config, announced);
    case PollReport(answer, fate) => PollReportSettles(w, answer, fate);
    case PollPull(fate) => PollPullSettles(w, fate);
    case _ => OthersSettle(w, e);
  }

  /**
   Over every orderly run from a start in agreement, with or without a token,
   and from first contact on: whenever no edit is outstanding, the node runs
   what the website logged under its version.
   */
  lemma {:induction false} QuietMeansAgreement(w: World, es: seq<Event>)
    requires Good(w) && OrderlyRun(w, es)
    ensures var w' := SyncProtocol.Run(w, es); Quiet(w') ==> Agrees(w')
    decreases |es|
  {
    hide Session, Sound, Adopting, Next, Orderly, Quiet, Agrees, Current;
    if es != [] {
      StepSettles(w, es[0]);
      QuietMeansAgreement(Next(w, es[0]), es[1..]);
    }
  }

  // ---------------- the polling round -----------------------------------

  /** One fully successful `poll_cycle`: push the edit up if one is owed, then pull. */
  function PollCycle(w: World, fate: Fate): World {
    Next(Next(w, PollReport(Answered, fate)), PollPull(fate))
  }

  lemma PollReportLands(w: World, fate: Fate)
    requires Good(w) && Ready(w) && HasToken(w) && w.flags.pending && CanMint(w)
    ensures var w' := Next(w, PollReport(Answered, fate));
            && Version(w') == |w'.log| == |w.log| + 1 && Content(w') == Content(w)
            && w'.log[|w.log|].config == Content(w) && Ready(w') && HasToken(w')
  {
    hide Session, Consistent, Persisted, FromConfig;
    PersistedNode(w.node, |w.log| + 1, fate);
    PersistedConfig(w.node, |w.log| + 1, fate);
  }

  lemma PollPullLands(w: World, fate: Fate)
    requires Good(w) && Ready(w) && HasToken(w) && Reliable(fate) && 0 < |w.log| < 0x1_0000_0000_0000_0000
    requires Legal(w.log[|w.log| - 1].config)
    ensures var w', last := Next(w, PollPull(fate)), |w.log|;
            && w'.log == w.log
            && Version(w') == (if Version(w) >= last then Version(w) else last)
            && Content(w') == if Version(w) >= last then Content(w) else w.log[last - 1].config
  {
    hide Session, Consistent, FromConfig, Legal, Persisted, Applied, Overwritten, SameContent, PreservedToken, After,
         Taken, Pushed, Settled, Adopting;
    var p := Newest(w);
    assert w.node.config.microwaveprop.Some? by {
      HasTokenIs(w);
      TokenMeansBlock(w.node.config);
    }
    PushedContent(w.node, p, fate);
  }

  lemma HasTokenIs(w: World)
    ensures HasToken(w) <==> PreservedToken(w.node.config) != ""
  {
  }

  lemma PushedContent(s: State, p: PushFrame, fate: Fate)
    requires Consistent(s) && s.config.microwaveprop.Some? && Reliable(fate) && Legal(p.config)
    ensures var c := Pushed(s, p, fate).state.config;
            if p.version <= AppliedVersion(s.config) then c == s.config
            else AppliedVersion(c) == p.version && FromConfig(c) == p.config
  {
    hide Consistent, Legal, Pushed, FromConfig, Overwritten, Taken;
    PushedIsAfter(s, p, fate);
    TakenExactly(p.config);
    LegalContent(s.config, p.config, p.version);
    OverwrittenVersion(s.config, p.config, p.version);
  }

  lemma OwnContentIsLegal(w: World)
    requires Sound(w) && HasToken(w)
    ensures Legal(Content(w))
  {
    hide Consistent, Legal, Overwritten;
    ConsistentIsAcceptable(w.node);
    TokenMeansBlock(w.node.config);
    OwnContentOnlyRaisesVersion(w.node.config, 0);
  }

  /**
   A fully successful polling round ends at the website's newest version, unless
   the node was ahead of it with nothing to report. It ends in agreement exactly
   when an edit went up, or the website was ahead, or the two agreed before: a
   round cannot heal a disagreement under equal versions.
   */
  lemma PollCycleAgrees(w: World, fate: Fate)
    requires Good(w) && Ready(w) && HasToken(w) && Reliable(fate) && CanMint(w)
    requires !w.flags.pending && w.log != [] ==> Legal(w.log[|w.log| - 1].config)
    ensures var w' := PollCycle(w, fate);
            && (Version(w') == |w'.log| <==> w.flags.pending || Version(w) <= |w.log|)
            && (Agrees(w') <==> w.flags.pending || Version(w) < |w.log| || Agrees(w))
  {
    hide Session, Consistent, FromConfig, Legal, PreservedToken, Pushed, AppliedVersion, Adopting;
    var mid := Next(w, PollReport(Answered, fate));
    OwnContentIsLegal(w);
    if w.flags.pending {
      PollReportLands(w, fate);
      PollReportSettles(w, Answered, fate);
      PollPullLands(mid, fate);
    } else {
      assert mid == w;
      if w.log != [] {
        PollPullLands(w, fate);
      }
    }
  }

  // ---------------- an announced version --------------------------------

  /**
   A version that is announced to a node whose frames are all read arrives: the
   node takes it exactly when it is legal as itself, and then runs it.
   */
  lemma AnnouncedVersionArrives(w: World, config: SyncConfig, fate: Fate)
    requires Good(w) && w.connected && w.down == [] && CanMint(w) && Version(w) <= |w.log| && HasToken(w)
    requires Reliable(fate)
    ensures var w' := Next(Next(w, Website(config, true)), Deliver(fate));
            && w'.log == w.log + [Logged(config, false)] && w'.down == []
            && (Version(w') == |w'.log| && Content(w') == config <==> Legal(config))
  {
    hide Session, Adopting, Settled, Consistent, FromConfig, Pushed, Overwritten, AppliedVersion, Taken, Legal;
    var announced, v := Next(w, Website(config, true)), |w.log| + 1;
    assert announced.down == [ConfigPush(v, config)];
    assert [ConfigPush(v, config)] == [ConfigPush(v, config)] + [];
    HeadDelivered(announced, ConfigPush(v, config), [], fate);
    HasTokenIs(w);
    TokenMeansBlock(w.node.config);
    PushedIsAfter(w.node, Push(v, config), fate);
    TakenExactly(config);
    hide PreservedToken;
    if Taken(config).Some? {
      OverwrittenVersion(w.node.config, Taken(config).value, v);
      LegalContent(w.node.config, Taken(config).value, v);
    }
  }

  // ---------------- where the hypotheses are needed ---------------------

  /** A push that is applied leaves the node in agreement with the website exactly when it is legal. */
  lemma AppliedPushAgreesExactly(w: World, e: Event)
    requires Good(w) && Replaces(w, e) && e.fate.Written() && Taken(PushOf(w, e).config).Some?
    ensures var w' := Next(w, e);
            && Version(w') == PushOf(w, e).version && Version(w') <= |w'.log|
            && (Content(w') == w'.log[Version(w') - 1].config <==> Legal(PushOf(w, e).config))
  {
    hide Adopting, Settled, FromConfig, Pushed, Overwritten, AppliedVersion, SameContent, Taken, Legal, Consistent,
         PreservedToken;
    var p := PushOf(w, e);
    ConsistentIsAcceptable(w.node);
    AppliedExactly(w.node, p, e.fate);
    OverwrittenVersion(w.node.config, Taken(p.config).value, p.version);
    TakenExactly(p.config);
    if e.Deliver? {
      SessionSays(w);
      assert Honest(w, w.down[0]);
    }
    hide Session;
  }

  /** A node with an edit to report reconnects to a website that has moved on. */
  predicate Reconnecting(w: World) {
    && Good(w) && Ready(w) && HasToken(w) && w.flags.pending && w.seen == w.edits && Version(w) < |w.log| && CanMint(w)
  }

  /** The pending report goes out right behind `hello`, before any answer is read. */
  function Handshake(w: World): World {
    Next(Next(Next(Next(w, Connect), SendReport), ServerTakes(true)), ServerTakes(true))
  }

  lemma ReportIsAccepted(w: World, config: SyncConfig, a: DownFrame, b: DownFrame)
    requires w.connected && w.up == [Report(config)] && w.down == [a, b] && CanMint(w)
    ensures var n := |w.log|;
            Next(w, ServerTakes(true)) ==
            w.(up := [], log := w.log + [Logged(config, false)], down := [a, b, Accepted(n + 1)],
               offered := w.offered + {n + 1})
  {
    hide Applied, Delivered, Polled, Pushed;
    assert w.up[1..] == [];
    assert [a, b] + [Accepted(|w.log| + 1)] == [a, b, Accepted(|w.log| + 1)];
  }

  lemma HandshakeQueues(w: World)
    requires Ready(w) && w.flags.pending && Version(w) < |w.log| && CanMint(w)
    ensures var w', n := Handshake(w), |w.log|;
            w' == w.(connected := true, flags := Flags(true, true, false), up := [], snap := Content(w),
                     log := w.log + [Logged(Content(w), false)], offered := w.offered + {n} + {n + 1},
                     down := [HelloAck, ConfigPush(n, w.log[n - 1].config), Accepted(n + 1)])
  {
    hide Content, Version, HasToken, Next;
    Greeted(w);
    var sent := Next(Next(w, Connect), SendReport);
    BehindIsPushed(sent, Version(w), Content(w), Report(Content(w)));
    var pushed := Next(sent, ServerTakes(true));
    ReportIsAccepted(pushed, Content(w), HelloAck, ConfigPush(|w.log|, w.log[|w.log| - 1].config));
  }

  function ThreeDelivered(w: World, fate: Fate): World {
    Next(Next(Next(w, Deliver(fate)), Deliver(fate)), Deliver(fate))
  }

  lemma ThreeHandled(w: World, a: DownFrame, b: DownFrame, c: DownFrame, fate: Fate)
    requires w.connected && w.down == [a, b, c]
    requires !a.Accepted? && !b.Accepted?
    ensures var w' := ThreeDelivered(w, fate);
            && w'.node == Handled(Handled(Handled(w.node, a, fate), b, fate), c, fate)
            && w'.log == w.log && w'.seen == w.seen && w'.edits == w.edits
            && w'.flags == if c.Accepted? then Acknowledged(w.flags) else w.flags
  {
    hide Handled, Next;
    assert [a] + [b, c] == [a, b, c];
    assert [b] + [c] == [b, c];
    assert [c] + [] == [c];
    HeadDelivered(w, a, [b, c], fate);
    var w1 := Next(w, Deliver(fate));
    HeadDelivered(w1, b, [c], fate);
    HeadDelivered(Next(w1, Deliver(fate)), c, [], fate);
  }

  /**
   Without the race hypothesis agreement is lost. A report sent right behind
   `hello` crosses the push that answers `hello`: the push replaces the content,
   and the acceptance of the report then stamps the newer version on it. With
   every write successful and no edit left over, the node agrees with the
   website afterwards if and only if the push is refused or is taken as what
   the node had anyway.
   */
  lemma ReconnectRace(w: World, fate: Fate)
    requires Reconnecting(w) && Reliable(fate)
    ensures var w', taken := ThreeDelivered(Handshake(w), fate), Taken(w.log[|w.log| - 1].config);
            && Quiet(w') && Version(w') == |w'.log| == |w.log| + 1
            && (Agrees(w') <==> taken.None? || taken.value == Content(w))
  {
    hide Session, Adopting, Settled, Legal, FromConfig, Consistent, Pushed, Persisted, Taken, After, Overwritten;
    HandshakeQueues(w);
    var mid, n := Handshake(w), |w.log|;
    var push := Newest(w);
    hide Handshake;
    ThreeHandled(mid, HelloAck, ConfigPush(n, push.config), Accepted(n + 1), fate);
    TokenMeansBlock(w.node.config);
    PushedIsAfter(w.node, push, fate);
    RacedContent(w.node, push, fate);
    PersistedNode(Pushed(w.node, push, fate).state, n + 1, fate);
  }

  lemma RacedContent(s: State, p: PushFrame, fate: Fate)
    requires Consistent(s) && s.config.microwaveprop.Some? && Reliable(fate) && p.version > AppliedVersion(s.config)
    ensures FromConfig(Pushed(s, p, fate).state.config) ==
            if Taken(p.config).Some? then Taken(p.config).value else FromConfig(s.config)
  {
    hide Consistent, Legal, Pushed, FromConfig, Overwritten, Taken;
    PushedIsAfter(s, p, fate);
    TakenExactly(p.config);
    if Taken(p.config).Some? {
      LegalContent(s.config, Taken(p.config).value, p.version);
    }
  }
}

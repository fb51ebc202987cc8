/**
 Whether a local edit reaches the website. What counts is the content: the
 config the node ran right after its last local edit.
 */
module SyncEdits {
  import opened Results
  import opened NodeConfig
  import opened ConfigText
  import opened ConfigStore
  import opened SyncConfigs
  import opened SyncProtocol

  /** A version the website minted since the last local edit holds exactly what the node ran after it. */
  predicate InLog(w: World) {
    exists i | w.mark <= i < |w.log| :: w.log[i].config == w.latest
  }

  /** The node still runs it and owes it. */
  predicate Held(w: World) {
    Outstanding(w) && Content(w) == w.latest
  }

  /** A report on its way up carries it. */
  predicate Carried(w: World) {
    Report(w.latest) in w.up
  }

  /** The last local edit has reached the website, is on its way there, or is still to be sent. */
  predicate Kept(w: World) {
    w.edits > 0 ==> InLog(w) || Held(w) || Carried(w)
  }

  predicate AlwaysKept(w: World, es: seq<Event>)
    decreases |es|
  {
    Kept(w) && (es != [] ==> AlwaysKept(Next(w, es[0]), es[1..]))
  }

  // ---------------- the four steps that lose an edit --------------------

  /** The node alone has the edit. */
  predicate Alone(w: World) {
    w.edits > 0 && !InLog(w) && !Carried(w)
  }

  /** A push is to be applied, can be written, and is taken as anything else. */
  predicate Clobbers(w: World, e: Event) {
    Alone(w) && Replaces(w, e) && e.fate.Written() &&
    var taken := Taken(PushOf(w, e).config);
    taken.Some? && taken.value != w.latest
  }

  /** An acceptance arrives, and the edit is neither unseen nor dirty. */
  predicate Missettles(w: World, e: Event) {
    Alone(w) && e.Deliver? && Enabled(w, e) && w.down[0].Accepted? && w.seen == w.edits && !w.flags.dirty
  }

  /** The wait for a token consumes the edit, and none is pending. */
  predicate Forgets(w: World, e: Event) {
    Alone(w) && Consumes(w, e) && !w.flags.pending
  }

  /** The session drops, or the website refuses the report, when nothing but that report has the edit. */
  predicate Abandons(w: World, e: Event) {
    && w.edits > 0 && !InLog(w) && !Held(w) && Enabled(w, e)
    && (e.Drop? || (e.ServerTakes? && !e.valid && w.up[0] == Report(w.latest) && Report(w.latest) !in w.up[1..]))
  }

  predicate Loses(w: World, e: Event) {
    Clobbers(w, e) || Missettles(w, e) || Forgets(w, e) || Abandons(w, e)
  }

  predicate Lossless(w: World, es: seq<Event>)
    decreases |es|
  {
    es != [] ==> !Loses(w, es[0]) && Lossless(Next(w, es[0]), es[1..])
  }

  // ---------------- what each of them loses, exactly --------------------

  /** What every step of every run keeps, stray acceptances included. */
  predicate Based(w: World) {
    Acceptable(w.node.config) && Bookkeeping(w) && (!w.connected ==> w.up == []) && w.mark <= |w.log|
  }

  lemma StepKeepsBased(w: World, e: Event)
    requires Based(w)
    ensures Based(Next(w, e))
  {
    hide Acceptable, Applied, Pushed, Persisted, FromConfig, PreservedToken, AppliedVersion, Answering;
    StepKeepsAcceptable(w, e);
    if e.ServerTakes? && Enabled(w, e) {
      AnsweringIs(w.(up := w.up[1..]), w.up[0], e.valid);
    }
  }

  lemma InLogLater(w: World, w': World)
    requires w.log <= w'.log && w.latest == w'.latest && w.mark == w'.mark
    ensures InLog(w) ==> InLog(w')
  {
    if InLog(w) {
      var i :| w.mark <= i < |w.log| && w.log[i].config == w.latest;
      assert w'.log[i] == w.log[i];
    }
  }

  /** An edit pushed over is lost if and only if the push lands as anything else and no report carries the edit. */
  lemma ClobberingLosesExactly(w: World, e: Event)
    requires Based(w) && Kept(w) && w.edits > 0 && Replaces(w, e)
    ensures var taken := Taken(PushOf(w, e).config);
            Kept(Next(w, e)) <==>
            InLog(w) || Carried(w) || !e.fate.Written() || taken.None? || taken.value == w.latest
  {
    hide FromConfig, Pushed, Persisted, AppliedVersion, SameContent, PreservedToken, Overwritten, Taken, Acceptable;
    var p := PushOf(w, e);
    AppliedExactly(w.node, p, e.fate);
    var w' := Next(w, e);
    assert w'.node == Pushed(w.node, p, e.fate).state;
    assert w'.log == w.log && w'.mark == w.mark && w'.latest == w.latest;
  }

  /** An acceptance loses the edit if and only if it is not logged, nothing carries it and nothing else owes it. */
  lemma AcceptanceLosesExactly(w: World, fate: Fate)
    requires Based(w) && Kept(w) && w.edits > 0
    requires w.connected && w.down != [] && w.down[0].Accepted?
    ensures Kept(Next(w, Deliver(fate))) <==> InLog(w) || Carried(w) || w.seen != w.edits || w.flags.dirty
  {
    hide FromConfig, Persisted, AppliedVersion, Acceptable;
    PersistedConfig(w.node, w.down[0].version, fate);
  }

  /** Waiting for a token loses the edit it consumes if and only if it is not logged and none is pending. */
  lemma ConsumingLosesExactly(w: World)
    requires Based(w) && Kept(w) && w.edits > 0 && !w.connected && w.idle
    ensures Kept(Next(w, TokenWait(true))) <==> InLog(w) || w.flags.pending
  {
    hide FromConfig, PreservedToken, Acceptable;
  }

  /** A drop loses the edit if and only if it is not logged and the node no longer runs and owes it. */
  lemma DroppingLosesExactly(w: World)
    requires Kept(w) && w.edits > 0 && w.connected
    ensures Kept(Next(w, Drop)) <==> InLog(w) || Held(w)
  {
    hide FromConfig;
  }

  /** A refusal loses the edit if and only if it is of the last report with it, and nothing else has or owes it. */
  lemma RefusingLosesExactly(w: World)
    requires Kept(w) && w.edits > 0 && Enabled(w, ServerTakes(false))
    ensures Kept(Next(w, ServerTakes(false))) <==>
            InLog(w) || Held(w) || w.up[0] != Report(w.latest) || Report(w.latest) in w.up[1..]
  {
    hide FromConfig, InLog, Answering;
    AnsweringIs(w.(up := w.up[1..]), w.up[0], false);
    RefusedLogs(w);
  }

  /** A refused frame logs nothing. */
  lemma RefusedLogs(w: World)
    requires Enabled(w, ServerTakes(false))
    ensures InLog(Next(w, ServerTakes(false))) == InLog(w)
  {
    hide FromConfig;
  }

  // ---------------- every step, and every run ---------------------------

  lemma EditIsHeld(w: World, body: ConfigUpdate, fate: Fate)
    requires Based(w) && Kept(w)
    ensures Kept(Next(w, LocalEdit(body, fate)))
  {
    hide Applied, FromConfig, Acceptable, AppliedVersion;
  }

  lemma TakingKeeps(w: World)
    requires Based(w) && Kept(w)
    ensures Kept(Next(w, ServerTakes(true)))
  {
    hide FromConfig, Answering, Acceptable;
    if Enabled(w, ServerTakes(true)) {
      var w' := Next(w, ServerTakes(true));
      AnsweringIs(w.(up := w.up[1..]), w.up[0], true);
      InLogLater(w, w');
      if w.up[0] == Report(w.latest) {
        assert w'.log[|w.log|].config == w.latest;
        assert InLog(w');
      } else {
        hide InLog;
        assert Carried(w) ==> Carried(w');
      }
    }
  }

  lemma PostingKeeps(w: World, answer: Answer, fate: Fate)
    requires Based(w) && Kept(w)
    ensures Kept(Next(w, PollReport(answer, fate)))
  {
    hide Persisted, FromConfig, Acceptable, AppliedVersion, PreservedToken;
    var w' := Next(w, PollReport(answer, fate));
    if Enabled(w, PollReport(answer, fate)) && w.edits > 0 && answer != Lost {
      InLogLater(w, w');
      assert w'.log[|w.log|].config == Content(w);
    }
  }

  /** A push that is not to be applied leaves the content alone. */
  lemma SparingPushKeeps(w: World, e: Event)
    requires Based(w) && Kept(w) && Pushes(w, e) && !Replaces(w, e)
    ensures Kept(Next(w, e))
  {
    hide FromConfig, Pushed, Persisted, AppliedVersion, SameContent, PreservedToken, Overwritten, Acceptable,
         WithVersion, Reading;
    var p := PushOf(w, e);
    PushedConfig(w.node, p, e.fate);
    VersionedFacts(w.node.config, p.version);
    var w' := Next(w, e);
    assert w'.node == Pushed(w.node, p, e.fate).state;
    assert Content(w') == Content(w) && Outstanding(w') == Outstanding(w) && InLog(w') == InLog(w) && w'.up == w.up;
  }

  lemma OthersKeep(w: World, e: Event)
    requires Based(w) && Kept(w)
    requires e.Latch? || e.Idle? || e.Connect? || e.SendReport? || e.NoticeEdit? || e.Website?
    ensures Kept(Next(w, e))
  {
    hide FromConfig, AppliedVersion, PreservedToken, Acceptable, InLog;
    InLogLater(w, Next(w, e));
  }

  lemma LoggedStays(w: World, e: Event)
    requires Based(w) && Kept(w) && (w.edits == 0 || InLog(w))
    ensures Kept(Next(w, e))
  {
    hide FromConfig, AppliedVersion, PreservedToken, Acceptable, InLog, Answering, Pushed, Persisted, Applied;
    if e.LocalEdit? {
      EditIsHeld(w, e.body, e.fate);
    } else {
      if e.ServerTakes? && Enabled(w, e) {
        AnsweringIs(w.(up := w.up[1..]), w.up[0], e.valid);
      }
      InLogLater(w, Next(w, e));
    }
  }

  /** One step, whatever it is: the edit stays kept if and only if the step is none of the four. */
  lemma StepLosesExactly(w: World, e: Event)
    requires Based(w) && Kept(w)
    ensures Kept(Next(w, e)) <==> !Loses(w, e)
  {
    hide Based, InLog, FromConfig, Next, Taken, SameContent, AppliedVersion, PreservedToken;
    if w.edits == 0 || InLog(w) {
      LoggedStays(w, e);
    } else if !Enabled(w, e) {
      assert Next(w, e) == w by { Disabled(w, e); }
    } else {
      match e
      case LocalEdit(body, fate) => EditIsHeld(w, body, fate);
      case TokenWait(woken) => WaitLosesExactly(w, woken);
      case Deliver(fate) => DeliverLosesExactly(w, fate);
      case ServerTakes(valid) => if valid { TakingKeeps(w); } else { RefusingLosesExactly(w); }
      case Drop => DroppingLosesExactly(w);
      case PollReport(answer, fate) => PostingKeeps(w, answer, fate);
      case PollPull(fate) => if Replaces(w, e) { ClobberingLosesExactly(w, e); } else { SparingPushKeeps(w, e); }
      case _ => OthersKeep(w, e);
    }
  }

  lemma Disabled(w: World, e: Event)
    requires !Enabled(w, e)
    ensures Next(w, e) == w
  {
  }

  lemma WaitLosesExactly(w: World, woken: bool)
    requires Based(w) && Kept(w) && w.edits > 0 && !InLog(w) && Enabled(w, TokenWait(woken))
    ensures Kept(Next(w, TokenWait(woken))) <==> !Forgets(w, TokenWait(woken))
  {
    hide FromConfig, PreservedToken, Acceptable;
  }

  lemma DeliverLosesExactly(w: World, fate: Fate)
    requires Based(w) && Kept(w) && w.edits > 0 && !InLog(w) && Enabled(w, Deliver(fate))
    ensures Kept(Next(w, Deliver(fate))) <==> !Clobbers(w, Deliver(fate)) && !Missettles(w, Deliver(fate))
  {
    hide Based, FromConfig, Pushed, Persisted, AppliedVersion, SameContent, Taken;
    var e := Deliver(fate);
    match w.down[0]
    case HelloAck => assert InLog(Next(w, e)) == InLog(w);
    case ConfigPush(_, _) =>
      hide Next;
      if Replaces(w, e) { ClobberingLosesExactly(w, e); } else { SparingPushKeeps(w, e); }
    case Accepted(_) =>
      hide Next;
      AcceptanceLosesExactly(w, fate);
  }

  /**
   Over every run of a process from its start, with or without a token, against
   any website, configured or not, through drops, failed connects, failed polls
   and failed writes, with any local edits, pushes and acceptances: the last
   local edit is kept all along if and only if none of the four steps occurs.
   */
  lemma {:induction false} KeptExactly(w: World, es: seq<Event>)
    requires Based(w) && Kept(w)
    ensures AlwaysKept(w, es) <==> Lossless(w, es)
    decreases |es|
  {
    hide Based, Kept, Next, Loses;
    if es != [] {
      StepLosesExactly(w, es[0]);
      if !Loses(w, es[0]) {
        StepKeepsBased(w, es[0]);
        KeptExactly(Next(w, es[0]), es[1..]);
      } else {
        assert !AlwaysKept(Next(w, es[0]), es[1..]);
      }
    }
  }

  // ---------------- acceptances that answer reports ---------------------

  /** An answer on its way to a current report names a version minted since the edit. */
  predicate Recent(w: World, f: DownFrame) {
    Answers(w.log, f) ==> f.version > w.mark
  }

  predicate Tracked(w: World) {
    && Session(w) && w.mark <= |w.log| && Kept(w)
    && (Current(w) && w.edits > 0 && !InLog(w) ==> w.snap == w.latest)
    && (Current(w) && w.edits > 0 ==> forall i | 0 <= i < |w.down| :: Recent(w, w.down[i]))
  }

  predicate Harmless(w: World, e: Event) {
    !Clobbers(w, e) && !Forgets(w, e) && !Abandons(w, e)
  }

  predicate HarmlessRun(w: World, es: seq<Event>)
    decreases |es|
  {
    es != [] ==> Harmless(w, es[0]) && HarmlessRun(Next(w, es[0]), es[1..])
  }

  /** Every acceptance finds no report owed, or answers the report in flight. */
  predicate Strayless(w: World, es: seq<Event>)
    decreases |es|
  {
    es != [] ==> !Stray(w, es[0]) && Strayless(Next(w, es[0]), es[1..])
  }

  /** The answer to a report settles the edit only once the edit is in the log. */
  lemma MissettlingIsStray(w: World, e: Event)
    requires Tracked(w) && Missettles(w, e)
    ensures Stray(w, e)
  {
    hide FromConfig;
    SessionSays(w);
    var f := w.down[0];
    assert Honest(w, f);
    if Answers(w.log, f) {
      AnswerIsAwaited(w);
    }
  }

  lemma RecentLater(w: World, w': World, down: seq<DownFrame>)
    requires w.log <= w'.log && w.mark == w'.mark && InLogRange(w.log, down)
    requires forall i | 0 <= i < |down| :: Recent(w, down[i])
    ensures forall i | 0 <= i < |down| :: Recent(w', down[i])
  {
    assert w'.log[..|w.log|] == w.log;
  }

  /** Where nothing awaits an answer no report is on its way. */
  lemma UnawaitedIsNotCarried(w: World)
    requires Session(w) && !w.flags.awaitingAck
    ensures !Carried(w)
  {
    NoReports(w.up);
  }

  lemma EditTracks(w: World, body: ConfigUpdate, fate: Fate)
    requires Tracked(w) && Kept(Next(w, LocalEdit(body, fate)))
    ensures Tracked(Next(w, LocalEdit(body, fate)))
  {
    hide Session, Applied, FromConfig, InLog, Kept;
    StepKeepsSession(w, LocalEdit(body, fate));
    assert w.seen <= w.edits by { SessionSays(w); }
  }

  lemma ServerTracks(w: World, valid: bool)
    requires Tracked(w) && Kept(Next(w, ServerTakes(valid)))
    ensures Tracked(Next(w, ServerTakes(valid)))
  {
    hide Session, FromConfig, InLog, Answers, Kept;
    var e := ServerTakes(valid);
    StepKeepsSession(w, e);
    if Enabled(w, e) {
      SessionSays(w);
      var mid, f := w.(up := w.up[1..]), w.up[0];
      var w', added := Answering(mid, f, valid), AnswersTo(mid, f, valid);
      AnsweringIs(mid, f, valid);
      InLogLater(w, w');
      if Current(w) && w.edits > 0 {
        RecentLater(w, w', w.down);
        AddedIsRecent(mid, f, valid);
      }
    }
  }

  lemma AddedIsRecent(w: World, f: UpFrame, valid: bool)
    requires CanMint(w) && w.mark <= |w.log|
    ensures var w', added := Answering(w, f, valid), AnswersTo(w, f, valid);
            forall i | 0 <= i < |added| :: Recent(w', added[i])
  {
  }

  lemma SendTracks(w: World)
    requires Tracked(w) && Kept(Next(w, SendReport))
    ensures Tracked(Next(w, SendReport))
  {
    hide Session, FromConfig;
    StepKeepsSession(w, SendReport);
    if Enabled(w, SendReport) {
      SessionSays(w);
      UnawaitedIsNotCarried(w);
      InLogLater(w, Next(w, SendReport));
    }
  }

  lemma OthersTrack(w: World, e: Event)
    requires Tracked(w) && Kept(Next(w, e)) && !Stray(w, e)
    requires !e.LocalEdit? && !e.SendReport? && !e.ServerTakes?
    ensures Tracked(Next(w, e))
  {
    hide Session, FromConfig, AppliedVersion, PreservedToken, InLog, Answers, Kept, Pushed, Persisted, Stray;
    StepKeepsSession(w, e);
    SessionSays(w);
    var w' := Next(w, e);
    InLogLater(w, w');
    if e.Deliver? && Enabled(w, e) {
      assert forall i | 0 <= i < |w'.down| :: w'.down[i] == w.down[i + 1];
    }
    if e.Website? && Current(w) && w.edits > 0 {
      RecentLater(w, w', w.down);
      assert forall v, c :: Recent(w', ConfigPush(v, c)) by { PushAnswersNothing(w'); }
    }
  }

  lemma PushAnswersNothing(w: World)
    ensures forall v, c :: Recent(w, ConfigPush(v, c))
  {
  }

  lemma KeptTracks(w: World, e: Event)
    requires Tracked(w) && !Stray(w, e) && Kept(Next(w, e))
    ensures Tracked(Next(w, e))
  {
    hide Tracked, Stray, Kept, Next;
    match e
    case LocalEdit(body, fate) => EditTracks(w, body, fate);
    case SendReport => SendTracks(w);
    case ServerTakes(valid) => ServerTracks(w, valid);
    case _ => OthersTrack(w, e);
  }

  /** A step that is no stray acceptance keeps the edit if and only if it is harmless, and then keeps it tracked. */
  lemma StepTracks(w: World, e: Event)
    requires Based(w) && Tracked(w) && !Stray(w, e)
    ensures Kept(Next(w, e)) <==> Harmless(w, e)
    ensures Harmless(w, e) ==> Tracked(Next(w, e))
  {
    hide Based, Session, InLog, Held, Carried, Current, Next, Clobbers, Missettles, Forgets, Abandons, Stray;
    StepLosesExactly(w, e);
    if Missettles(w, e) { MissettlingIsStray(w, e); }
    if Kept(Next(w, e)) { KeptTracks(w, e); }
  }

  /**
   Over every run of a process from its start in which no acceptance is stray:
   the content of the last local edit is all along in the log, or on its way in
   a report, or owed and still what the node runs, if and only if no push
   clobbers it, no wait for a token forgets it, and no drop or refusal abandons
   it. Answers to reports never lose it.
   */
  lemma {:induction false} NoEditIsLost(w: World, es: seq<Event>)
    requires Based(w) && Tracked(w) && Strayless(w, es)
    ensures AlwaysKept(w, es) <==> HarmlessRun(w, es)
    decreases |es|
  {
    hide Based, Session, InLog, Held, Carried, Current, Next, Harmless, Stray;
    if es != [] {
      var w' := Next(w, es[0]);
      StepTracks(w, es[0]);
      if Kept(w') {
        StepKeepsBased(w, es[0]);
        NoEditIsLost(w', es[1..]);
      } else {
        assert !AlwaysKept(w', es[1..]);
      }
    }
  }

  /** Every process starts in such a state. */
  lemma StartedIsTracked(text: string, c: Config, log: seq<Logged>)
    ensures Tracked(Started(text, c, log))
    ensures FromYaml(text) == Success(c) ==> Based(Started(text, c, log))
  {
    hide FromConfig, FromYaml, Acceptable;
    if FromYaml(text) == Success(c) { ReadIsAcceptable(text); }
    UnconnectedIsSession(Started(text, c, log));
  }

  // ---------------- edits get through -----------------------------------

  /**
   Between sessions one latch and one polling report that is answered put an
   edit into the log that the node runs and owes, noticed before or not; and
   with no report left from an older session nothing is owed any more.
   */
  lemma PollingGetsItThrough(w: World, fate: Fate)
    requires Based(w) && Ready(w) && Held(w) && CanMint(w)
    ensures var w' := Next(Next(w, Latch), PollReport(Answered, fate));
            InLog(w') && (!w.flags.awaitingAck ==> !Outstanding(w'))
  {
    hide Acceptable, Persisted, FromConfig, AppliedVersion, PreservedToken, InLog;
    var mid := Next(w, Latch);
    assert mid == w.(seen := w.edits, flags := mid.flags) && mid.flags.pending;
    var w' := Next(mid, PollReport(Answered, fate));
    assert w'.log == w.log + [Logged(w.latest, false)];
    InLogAtEnd(w, w');
  }

  lemma InLogAtEnd(w: World, w': World)
    requires w.mark <= |w.log| && w'.log == w.log + [Logged(w.latest, false)]
    requires w'.mark == w.mark && w'.latest == w.latest
    ensures InLog(w')
  {
    assert w'.log[|w.log|].config == w'.latest;
  }

  /** In a session whose frames are all read, noticing the edit, reporting it and its acceptance do. */
  lemma ASessionGetsItThrough(w: World)
    requires Based(w) && w.connected && w.up == [] && !w.flags.awaitingAck && Held(w) && CanMint(w)
    ensures InLog(Next(Next(Next(w, NoticeEdit), SendReport), ServerTakes(true)))
  {
    hide Acceptable, FromConfig, AppliedVersion, PreservedToken, InLog;
    var noticed := Next(w, NoticeEdit);
    assert noticed == w.(seen := w.edits, flags := noticed.flags);
    assert noticed.flags.pending && !noticed.flags.awaitingAck;
    var sent := Next(noticed, SendReport);
    assert sent.up == [Report(w.latest)];
    var w' := Next(sent, ServerTakes(true));
    assert w'.log == w.log + [Logged(w.latest, false)];
    InLogAtEnd(w, w');
  }

  /** A check of the token, after a wake-up or a time-out, ends the wait for it exactly when there is one. */
  lemma TokenEndsTheWait(w: World, woken: bool)
    requires !w.connected && w.idle
    ensures Ready(Next(w, TokenWait(woken))) <==> HasToken(w)
  {
    hide PreservedToken, FromConfig;
  }

  // ---------------- runs that lose one ----------------------------------

  /** An edit is pending and nowhere else, and the website has a newer version. */
  predicate Owing(w: World) {
    && Tracked(w) && Acceptable(w.node.config) && Ready(w) && HasToken(w) && w.flags == Flags(true, false, false)
    && w.seen == w.edits && w.edits > 0 && !InLog(w) && CanMint(w) && Version(w) < |w.log|
  }

  /** A polling round whose report fails pulls all the same; the next one reports what was pulled. */
  function FailedRound(w: World, fate: Fate): World {
    Next(Next(Next(w, PollReport(Lost, fate)), PollPull(fate)), PollReport(Answered, fate))
  }

  lemma NewestLands(w: World, fate: Fate)
    requires Owing(w) && Reliable(fate)
    ensures var c, taken := Pushed(w.node, Newest(w), fate).state.config, Taken(Newest(w).config);
            && PreservedToken(c) == PreservedToken(w.node.config)
            && FromConfig(c) == if taken.Some? then taken.value else w.latest
  {
    hide FromConfig, Pushed, Persisted, AppliedVersion, Overwritten, Session, Taken, Acceptable, InLog, Legal;
    var p := Newest(w);
    UnawaitedIsNotCarried(w);
    assert Content(w) == w.latest;
    assert w.node.config.microwaveprop.Some? by { TokenMeansBlock(w.node.config); }
    OwnContentOnlyRaisesVersion(w.node.config, 0);
    if DecidePush(p.version, Version(w), p.config, Content(w)) == ApplyIt {
      AppliedExactly(w.node, p, fate);
      if Taken(p.config).Some? {
        OverwrittenFacts(w.node.config, Taken(p.config).value, p.version);
      }
    } else {
      TakenExactly(p.config);
      PersistedConfig(w.node, p.version, fate);
      PushedConfig(w.node, p, fate);
      VersionedFacts(w.node.config, p.version);
    }
  }

  lemma PullLands(w: World, fate: Fate)
    requires Owing(w) && Reliable(fate)
    ensures var mid := Next(Next(w, PollReport(Lost, fate)), PollPull(fate));
            var taken := Taken(Newest(w).config);
            && mid == w.(node := mid.node, offered := mid.offered) && HasToken(mid)
            && Content(mid) == if taken.Some? then taken.value else w.latest
  {
    hide FromConfig, Pushed, AppliedVersion, Tracked, Taken, Acceptable, InLog, PreservedToken;
    NewestLands(w, fate);
  }

  /**
   A polling round that cannot post its report goes on to pull. If the newer
   version is taken as anything but the edit, the edit is gone: the next round
   reports the website's own content, and nothing is left outstanding.
   */
  lemma FailedPollLosesTheEdit(w: World, fate: Fate)
    requires Owing(w) && Reliable(fate)
    ensures var w', taken := FailedRound(w, fate), Taken(Newest(w).config);
            && !Outstanding(w') && w'.edits == w.edits && w'.latest == w.latest
            && (Kept(w') <==> taken.None? || taken.value == w.latest)
  {
    hide FromConfig, Pushed, Persisted, AppliedVersion, Overwritten, Session, Taken, Acceptable, PreservedToken;
    PullLands(w, fate);
    UnawaitedIsNotCarried(w);
    var mid := Next(Next(w, PollReport(Lost, fate)), PollPull(fate));
    hide HasToken;
    PersistedConfig(mid.node, |mid.log| + 1, fate);
    var w' := FailedRound(w, fate);
    assert w'.log == w.log + [Logged(Content(mid), false)];
    assert InLog(w') <==> Content(mid) == w.latest by {
      OneMoreLogged(w, w', Content(mid));
    }
  }

  lemma OneMoreLogged(w: World, w': World, c: SyncConfig)
    requires !InLog(w) && w.mark <= |w.log| && w'.log == w.log + [Logged(c, false)]
    requires w'.mark == w.mark && w'.latest == w.latest
    ensures InLog(w') <==> c == w.latest
  {
    assert w'.log[|w.log|].config == c;
    assert forall i | 0 <= i < |w.log| :: w'.log[i] == w.log[i];
  }

  /** A session in which the push that answers `hello` lands before the website has read the report behind it. */
  function Overtaken(w: World, fate: Fate): World {
    Next(Next(Next(Next(Next(w, Connect), SendReport), ServerTakes(true)), Deliver(fate)), Deliver(fate))
  }

  lemma OvertakenIs(w: World, fate: Fate)
    requires Owing(w)
    ensures var w', report := Overtaken(w, fate), Report(Content(w));
            w' == w.(node := Pushed(w.node, Newest(w), fate).state, connected := true, up := [report], down := [],
                     flags := Flags(true, true, false), snap := Content(w), offered := w.offered + {|w.log|})
  {
    hide Content, Version, HasToken, Next, Pushed, Tracked, InLog, Acceptable;
    Greeted(w);
    var sent, n, report := Next(Next(w, Connect), SendReport), |w.log|, Report(Content(w));
    BehindIsPushed(sent, Version(w), Content(w), report);
    var answered, push := Next(sent, ServerTakes(true)), ConfigPush(n, w.log[n - 1].config);
    assert [HelloAck] + [push] == [HelloAck, push];
    assert [push] + [] == [push];
    HeadDelivered(answered, HelloAck, [push], fate);
    HeadDelivered(Next(answered, Deliver(fate)), push, [], fate);
  }

  /**
   On every such reconnect the edit is kept, and in the log as soon as the
   website accepts the report. If the session drops first, or the website
   refuses the report, it is kept if and only if the push was refused or taken
   as the edit itself.
   */
  lemma OvertakenReportHangsOnItsSession(w: World, fate: Fate)
    requires Owing(w) && Reliable(fate)
    ensures var w', taken := Overtaken(w, fate), Taken(Newest(w).config);
            && Kept(w') && InLog(Next(w', ServerTakes(true)))
            && (Kept(Next(w', Drop)) <==> taken.None? || taken.value == w.latest)
            && (Kept(Next(w', ServerTakes(false))) <==> taken.None? || taken.value == w.latest)
  {
    hide FromConfig, Pushed, Taken, Acceptable, Session, AppliedVersion, PreservedToken, Overtaken;
    OvertakenIs(w, fate);
    NewestLands(w, fate);
    UnawaitedIsNotCarried(w);
    var w' := Overtaken(w, fate);
    assert w'.up[1..] == [];
    assert Next(w', ServerTakes(true)).log[|w.log|].config == w.latest;
    assert InLog(w') == InLog(w);
    RefusingLosesExactly(w');
    DroppingLosesExactly(w');
  }

  /** An edit is made while the `hello` that the website adopts is under way. */
  function EditDuringAdoption(w: World, body: ConfigUpdate, fate: Fate): World {
    Next(Next(Next(Next(Next(w, Connect), LocalEdit(body, fate)), NoticeEdit), SendReport), ServerTakes(true))
  }

  lemma AdoptionQueues(w: World, body: ConfigUpdate, fate: Fate)
    requires Unconnected(w) && Ready(w) && w.log == [] && Applied(w.node, body, None, fate).result.Success?
    ensures var w' := EditDuringAdoption(w, body, fate);
            && w'.connected && w'.down == [HelloAck, Accepted(1)] && w'.log == [Logged(Content(w), true)]
            && w'.edits == w.edits + 1 && w'.seen == w'.edits && w'.flags == Flags(true, true, false)
            && w'.mark == 0 && w'.latest == Content(w')
  {
    hide Applied, FromConfig, HasToken, AppliedVersion;
    var hello := Hello(Version(w), Content(w));
    var w' := Next(Next(Next(Next(w, Connect), LocalEdit(body, fate)), NoticeEdit), SendReport);
    assert w'.up == [hello, Report(Content(w'))];
    assert [] + [HelloAck, Accepted(1)] == [HelloAck, Accepted(1)];
  }

  /**
   The acceptance with which the website adopts a first `hello` answers no
   report, but the node takes it for the answer to the one it has just sent. If
   the session then drops before that report is read, the edit is in the log
   only if it changed nothing.
   */
  lemma AdoptionLosesAnEdit(w: World, body: ConfigUpdate, fate: Fate)
    requires Unconnected(w) && Ready(w) && w.log == [] && Applied(w.node, body, None, fate).result.Success?
    ensures var w' := Next(Next(Next(EditDuringAdoption(w, body, fate), Deliver(fate)), Deliver(fate)), Drop);
            && w'.edits == w.edits + 1 && !Outstanding(w') && w'.up == [] && w'.down == []
            && (Kept(w') <==> FromConfig(Applied(w.node, body, None, fate).state.config) == Content(w))
  {
    hide Applied, FromConfig, HasToken, AppliedVersion, Persisted, Next, EditDuringAdoption;
    AdoptionQueues(w, body, fate);
    LatestIsEdited(w, body, fate);
    var mid := EditDuringAdoption(w, body, fate);
    assert [HelloAck] + [Accepted(1)] == [HelloAck, Accepted(1)];
    assert [Accepted(1)] + [] == [Accepted(1)];
    HeadDelivered(mid, HelloAck, [Accepted(1)], fate);
    var greeted := Next(mid, Deliver(fate));
    HeadDelivered(greeted, Accepted(1), [], fate);
    var w' := Next(greeted, Deliver(fate));
    Dropped(w');
    PersistedConfig(greeted.node, 1, fate);
    assert w'.log == [Logged(Content(w), true)] && w'.log[0].config == Content(w);
  }

  lemma LatestIsEdited(w: World, body: ConfigUpdate, fate: Fate)
    requires Unconnected(w) && Ready(w) && w.log == [] && Applied(w.node, body, None, fate).result.Success?
    ensures EditDuringAdoption(w, body, fate).latest == FromConfig(Applied(w.node, body, None, fate).state.config)
  {
    hide Applied, FromConfig, HasToken, AppliedVersion;
    var hello := Hello(Version(w), Content(w));
    var w' := Next(Next(Next(Next(w, Connect), LocalEdit(body, fate)), NoticeEdit), SendReport);
    assert w'.up == [hello, Report(Content(w'))];
  }

  /** `wait_for_token` consumes the change of the watched counter, so the very edit that sets the token is lost. */
  lemma WaitingForATokenLosesTheEdit(w: World, body: ConfigUpdate, fate: Fate)
    requires Unconnected(w) && !HasToken(w) && Applied(w.node, body, None, fate).result.Success?
    ensures var w' := Next(Next(Next(w, Idle), LocalEdit(body, fate)), TokenWait(true));
            w'.edits == w.edits + 1 && !Outstanding(w') && !InLog(w') && !Kept(w')
  {
    hide Applied, FromConfig, HasToken;
  }
}

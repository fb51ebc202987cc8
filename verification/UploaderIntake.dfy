/**
 What the uploader takes in and gives out, told from the stream and the server's
 answers alone: every measurement that was read is queued, also during a pause,
 and its fate is the status its post was answered with.
 */
module UploaderIntake {
  import opened Arithmetic
  import opened Results
  import opened Numbers
  import opened NodeConfig
  import opened Uploader
  import opened Text

  // ---------------- statuses --------------------------------------------

  /** 2xx. */
  predicate Accepts(a: Answer) {
    a.Status? && 200 <= a.code <= 299
  }

  /** 4xx, but for 429. */
  predicate GivesUp(a: Answer) {
    a.Status? && 400 <= a.code <= 499 && a.code != 429
  }

  lemma ClassesExactly(a: Answer)
    ensures Class(a) == Ok <==> Accepts(a)
    ensures Class(a) == Permanent <==> GivesUp(a)
  {
  }

  function PostsAccepted(log: seq<Entry>): seq<Wire> {
    if log == [] then []
    else
      var before, e := PostsAccepted(log[..|log| - 1]), log[|log| - 1];
      if e.Posted? && Accepts(e.answer) then before + [e.wire] else before
  }

  function PostsGivenUp(log: seq<Entry>): seq<Wire> {
    if log == [] then []
    else
      var before, e := PostsGivenUp(log[..|log| - 1]), log[|log| - 1];
      if e.Posted? && GivesUp(e.answer) then before + [e.wire] else before
  }

  lemma {:induction false} PostsByStatus(log: seq<Entry>)
    ensures PostsAccepted(log) == PostsAnswered(log, Ok) && PostsGivenUp(log) == PostsAnswered(log, Permanent)
  {
    if log != [] {
      PostsByStatus(log[..|log| - 1]);
      var e := log[|log| - 1];
      if e.Posted? { ClassesExactly(e.answer); }
      hide Class, Accepts, GivesUp;
    }
  }

  // ---------------- what the stream brings ------------------------------

  predicate FilledIn(c: Config) {
    && c.microwaveprop.Some?
    && var mw := c.microwaveprop.value;
       mw.enabled && mw.monitorToken != "" && mw.beaconId != "" && mw.gridsquare != ""
  }

  /** A completed measurement, read while the uploader was fully configured. */
  predicate Brings(r: Received) {
    r.Got? && r.event.Measured? && FilledIn(r.config)
  }

  function Brought(rs: seq<Received>): seq<Received> {
    if rs == [] then [] else (if Brings(rs[0]) then [rs[0]] else []) + Brought(rs[1..])
  }

  /** The queued form of a measurement: its levels, and the config of that moment. */
  predicate Carries(w: Wire, r: Received) {
    && Brings(r)
    && w.measuredAt == r.event.measuredAt && w.levels == r.event.levels
    && w.beaconId == r.config.microwaveprop.value.beaconId && w.gridsquare == r.config.microwaveprop.value.gridsquare
    && w.integrationS == r.config.periodSeconds
    && w.passbandHz == PassbandFor(r.config.mode, r.config.beacon).1
    && (r.actualGain.Some? ==> w.gainDb == r.actualGain.value)
    && (r.actualGain.None? && r.config.gain.Some? ==> w.gainDb == r.config.gain.value)
    && (r.actualGain.None? && r.config.gain.None? ==> w.gainDb == Whole(0))
  }

  predicate AllCarry(ws: seq<Wire>, rs: seq<Received>) {
    |ws| == |rs| && forall i | 0 <= i < |ws| :: Carries(ws[i], rs[i])
  }

  /** Reading stops when the stream turns out to be closed. */
  function UntilClosed(rs: seq<Received>): seq<Received> {
    if rs == [] then [] else if rs[0].Closed? then [rs[0]] else [rs[0]] + UntilClosed(rs[1..])
  }

  predicate Closes(rs: seq<Received>) {
    exists i | 0 <= i < |rs| :: rs[i].Closed?
  }

  /** What a turn reads with `waiting` measurements in the queue: one read, or all of a pause, or none. */
  function ReadIn(waiting: nat, t: Turn): seq<Received> {
    if waiting > 0 && FilledIn(t.config) && !Accepts(t.answer) then
      if GivesUp(t.answer) then [] else UntilClosed(t.during)
    else if t.next.Some? then [t.next.value]
    else []
  }

  /** How many are waiting after it: the settled one has left, and there is room for 1440. */
  function WaitingAfter(waiting: nat, t: Turn): nat {
    var settled := if waiting > 0 && FilledIn(t.config) && (Accepts(t.answer) || GivesUp(t.answer)) then 1 else 0;
    Min(waiting - settled + |Brought(ReadIn(waiting, t))|, 1440)
  }

  /** Everything read over a run of turns, in order. */
  function AllRead(waiting: nat, turns: seq<Turn>): seq<Received>
    decreases |turns|
  {
    if turns == [] then []
    else
      var rs := ReadIn(waiting, turns[0]);
      if Closes(rs) then rs else rs + AllRead(WaitingAfter(waiting, turns[0]), turns[1..])
  }

  // ---------------- the queue takes all of it ---------------------------

  function Wires(rs: seq<Received>): seq<Wire> {
    if rs == [] then []
    else WiresOfOne(rs[0]) + Wires(rs[1..])
  }

  lemma WireCarries(r: Received)
    ensures WireOf(r).Some? <==> Brings(r)
    ensures WireOf(r).Some? ==> Carries(WireOf(r).value, r)
  {
  }

  lemma {:induction false} WiresCarry(rs: seq<Received>)
    ensures AllCarry(Wires(rs), Brought(rs))
  {
    hide WireOf, Brings, Carries;
    if rs != [] {
      WireCarries(rs[0]);
      WiresCarry(rs[1..]);
    }
  }

  function WiresOfOne(r: Received): seq<Wire> {
    match WireOf(r)
    case None => []
    case Some(w) => [w]
  }

  lemma {:induction false} WiresAppend(a: seq<Received>, b: seq<Received>)
    ensures Wires(a + b) == Wires(a) + Wires(b)
  {
    hide WireOf;
    if a == [] {
      assert a + b == b;
    } else {
      var first := WiresOfOne(a[0]);
      assert (a + b)[0] == a[0] && (a + b)[1..] == a[1..] + b;
      assert Wires(a + b) == first + Wires(a[1..] + b) && Wires(a) == first + Wires(a[1..]);
      hide *;
      WiresAppend(a[1..], b);
      Regroup(first, Wires(a[1..]), Wires(b));
    }
  }

  lemma AddedGrows(log: seq<Entry>, e: Entry)
    ensures AllAdded(log + [e]) == if e.Added? then AllAdded(log) + [e.wire] else AllAdded(log)
  {
    assert (log + [e])[..|log|] == log;
  }

  /** `s'` is `s` after reading `rs`, with `settled` of its measurements gone. */
  predicate Took(s: State, s': State, rs: seq<Received>, settled: nat) {
    && AllAdded(s'.log) == AllAdded(s.log) + Wires(rs) && settled <= |s.queue|
    && |s'.queue| == Min(|s.queue| - settled + |Brought(rs)|, MAX_ENTRIES)
    && (s'.ended <==> s.ended || Closes(rs))
  }

  lemma NothingTook(s: State)
    requires |s.queue| <= MAX_ENTRIES
    ensures Took(s, s, [], 0)
  {
  }

  lemma EnqueueTakes(s: State, r: Received)
    requires |s.queue| <= MAX_ENTRIES && !r.Closed?
    ensures Took(s, Enqueued(s, r), [r], 0)
  {
    hide AllAdded;
    WiresCarry([r]);
    assert [r][1..] == [];
    assert Wires([r]) == WiresOfOne(r);
    var w := WireOf(r);
    if w.Some? {
      var roomy := if |s.queue| >= MAX_ENTRIES then Dequeued(s, Evicted) else s;
      if |s.queue| >= MAX_ENTRIES { AddedGrows(s.log, Removed(s.queue[0], Evicted)); }
      AddedGrows(roomy.log, Added(w.value));
    } else {
      assert AllAdded(s.log) + [] == AllAdded(s.log);
    }
    hide WireOf;
  }

  lemma {:induction false} BroughtAppend(a: seq<Received>, b: seq<Received>)
    ensures Brought(a + b) == Brought(a) + Brought(b)
  {
    hide Brings;
    if a == [] {
      assert a + b == b;
    } else {
      var first := if Brings(a[0]) then [a[0]] else [];
      assert (a + b)[0] == a[0] && (a + b)[1..] == a[1..] + b;
      assert Brought(a + b) == first + Brought(a[1..] + b) && Brought(a) == first + Brought(a[1..]);
      hide *;
      BroughtAppend(a[1..], b);
      Regroup(first, Brought(a[1..]), Brought(b));
    }
  }

  lemma TookBoth(a: State, b: State, c: State, r: seq<Received>, rs: seq<Received>, settled: nat)
    requires Took(a, b, r, settled) && Took(b, c, rs, 0) && !Closes(r)
    ensures Took(a, c, r + rs, settled)
  {
    hide AllAdded, Wires, Brought;
    WiresAppend(r, rs);
    BroughtAppend(r, rs);
    assert Closes(r + rs) <==> Closes(rs) by {
      assert forall i | 0 <= i < |rs| :: (r + rs)[|r| + i] == rs[i];
    }
    assert AllAdded(a.log) + Wires(r) + Wires(rs) == AllAdded(a.log) + (Wires(r) + Wires(rs));
  }

  lemma {:induction false} DrainTakes(s: State, during: seq<Received>)
    requires |s.queue| <= MAX_ENTRIES && !s.ended
    ensures Took(s, Drained(s, during), UntilClosed(during), 0)
    decreases |during|
  {
    hide Enqueued, AllAdded, Wires, Brought;
    if during == [] {
      NothingTook(s);
    } else if during[0].Closed? {
      ClosedTakes(s, during[0]);
    } else {
      EnqueueTakes(s, during[0]);
      EnqueueGoesOn(s, during[0]);
      var mid := Enqueued(s, during[0]);
      DrainTakes(mid, during[1..]);
      TookBoth(s, mid, Drained(mid, during[1..]), [during[0]], UntilClosed(during[1..]), 0);
    }
  }

  lemma ClosedTakes(s: State, r: Received)
    requires |s.queue| <= MAX_ENTRIES && r.Closed?
    ensures Took(s, s.(ended := true), [r], 0)
  {
    assert [r][1..] == [] && [r][0].Closed?;
    assert AllAdded(s.log) + [] == AllAdded(s.log);
  }

  lemma NextTakes(s: State, next: Option<Received>)
    requires |s.queue| <= MAX_ENTRIES && !s.ended
    ensures Took(s, TakenIn(s, next), if next.Some? then [next.value] else [], 0)
  {
    hide Took, Enqueued;
    match next
    case None => NothingTook(s);
    case Some(Closed) => ClosedTakes(s, next.value);
    case Some(r) => EnqueueTakes(s, r);
  }

  lemma AnswerTakes(s: State, t: Turn)
    requires |s.queue| <= MAX_ENTRIES && !s.ended && s.queue != []
    ensures var settled := if Accepts(t.answer) || GivesUp(t.answer) then 1 else 0;
            Took(s, Answered(s, t), if settled == 1 then [] else UntilClosed(t.during), settled)
  {
    hide AllAdded, Drained;
    ClassesExactly(t.answer);
    var head := s.queue[0];
    var posted := Logged(s, Posted(head, t.answer));
    AddedGrows(s.log, Posted(head, t.answer));
    match Class(t.answer)
    case Ok => AddedGrows(posted.log, Removed(head, Delivered));
    case Permanent => AddedGrows(posted.log, Removed(head, Refused));
    case Transient =>
      AddedGrows(posted.log, Waited(s.backoff));
      DrainTakes(Logged(posted, Waited(s.backoff)), t.during);
  }

  lemma FilledInIsUploads(c: Config)
    ensures FilledIn(c) <==> Uploads(c)
  {
  }

  lemma TurnTakes(s: State, t: Turn)
    requires |s.queue| <= MAX_ENTRIES && !s.ended
    ensures |Turned(s, t).queue| == WaitingAfter(|s.queue|, t)
    ensures AllAdded(Turned(s, t).log) == AllAdded(s.log) + Wires(ReadIn(|s.queue|, t))
    ensures Turned(s, t).ended <==> Closes(ReadIn(|s.queue|, t))
  {
    hide AllAdded, Wires, Brought, Answered, TakenIn, UntilClosed, Class;
    FilledInIsUploads(t.config);
    ClassesExactly(t.answer);
    if s.queue != [] && Uploads(t.config) {
      AnswerTakes(s, t);
      if Class(t.answer) == Ok {
        var answered := Answered(s, t);
        NextTakes(answered, t.next);
        TookBoth(s, answered, TakenIn(answered, t.next), [], if t.next.Some? then [t.next.value] else [], 1);
        assert [] + (if t.next.Some? then [t.next.value] else []) == if t.next.Some? then [t.next.value] else [];
      }
    } else {
      NextTakes(s, t.next);
    }
  }

  lemma {:induction false} RunTakes(s: State, turns: seq<Turn>)
    requires |s.queue| <= MAX_ENTRIES && !s.ended
    ensures AllAdded(Uploader.Run(s, turns).log) == AllAdded(s.log) + Wires(AllRead(|s.queue|, turns))
    decreases |turns|
  {
    hide AllAdded, Wires, Turned, ReadIn, WaitingAfter, Closes;
    if turns == [] {
      assert AllAdded(s.log) + Wires([]) == AllAdded(s.log) by { NoWires(); }
    } else {
      var s', rs := Turned(s, turns[0]), ReadIn(|s.queue|, turns[0]);
      TurnTakes(s, turns[0]);
      assert |s'.queue| <= MAX_ENTRIES by { RoomFor(|s.queue|, turns[0]); }
      if !s'.ended {
        RunTakes(s', turns[1..]);
        WiresAppend(rs, AllRead(|s'.queue|, turns[1..]));
        var before, a, b := AllAdded(s.log), Wires(rs), Wires(AllRead(|s'.queue|, turns[1..]));
        assert before + a + b == before + (a + b);
      } else {
        EndedStays(s', turns[1..]);
      }
    }
  }

  lemma NoWires()
    ensures Wires([]) == []
  {
  }

  lemma RoomFor(waiting: nat, t: Turn)
    ensures WaitingAfter(waiting, t) <= MAX_ENTRIES
  {
  }

  lemma EndedStays(s: State, turns: seq<Turn>)
    requires s.ended
    ensures Uploader.Run(s, turns) == s
  {
  }

  /**
   Over every run from the start, whatever the answers and the stream: the
   measurements queued are exactly those that were read, in order, during
   pauses and behind accepted posts as well, each with its own levels and the
   config of its moment. What was read is told from the turns alone.
   */
  lemma EveryMeasurementIsTakenIn(turns: seq<Turn>)
    ensures AllCarry(AllAdded(Uploader.Run(START, turns).log), Brought(AllRead(0, turns)))
  {
    hide AllAdded, Wires, Brought, AllCarry, AllRead, Uploader.Run;
    RunTakes(START, turns);
    assert AllAdded([]) == [] by { NothingAdded(); }
    assert [] + Wires(AllRead(0, turns)) == Wires(AllRead(0, turns));
    WiresCarry(AllRead(0, turns));
  }

  lemma NothingAdded()
    ensures AllAdded([]) == []
  {
  }

  /** And their fates are told from the statuses: delivered on 2xx, given up on 4xx but for 429, in order. */
  lemma FatesAreStatuses(turns: seq<Turn>)
    ensures var log := Uploader.Run(START, turns).log;
            RemovedAs(log, Delivered) == PostsAccepted(log) && RemovedAs(log, Refused) == PostsGivenUp(log)
  {
    hide Uploader.Run, RemovedAs, PostsAccepted, PostsGivenUp, PostsAnswered;
    EveryRunConserves(turns);
    PostsByStatus(Uploader.Run(START, turns).log);
  }
}

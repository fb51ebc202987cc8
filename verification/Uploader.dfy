/**
 The upload queue: measurements wait in a bounded queue, one is posted at a
 time, and failures are retried with a growing pause that still takes new
 measurements in.
 */
module Uploader {
  import opened Arithmetic
  import opened Results
  import opened Numbers
  import opened NodeConfig

  const MAX_ENTRIES: nat := 1440
  const MAX_BACKOFF: nat := 300

  // ---------------- what comes in ---------------------------------------

  datatype Levels = Levels(noise: F64, peak: F64, average: F64, snrPeak: F64, snrAverage: F64, activeFraction: F64)

  datatype Wire = Wire(
    beaconId: string,
    gridsquare: string,
    measuredAt: string,
    integrationS: u32,
    passbandHz: F64,
    gainDb: F64,
    levels: Levels
  )

  /** An event of the shared stream; most are waterfall or level frames. */
  datatype WsEvent = Measured(measuredAt: string, levels: Levels) | OtherFrame

  /** One read of the stream, with the config and device gain at that moment. */
  datatype Received =
    | Got(event: WsEvent, config: Config, actualGain: Option<F64>)
    | Lagged
    | Closed

  datatype Answer = Status(code: nat) | NoAnswer

  datatype ResponseClass = Ok | Permanent | Transient

  function ClassifyStatus(code: nat): ResponseClass {
    if 200 <= code < 300 then Ok
    else if code == 429 then Transient
    else if 400 <= code < 500 then Permanent
    else Transient
  }

  /** `post_one`: a request that got no answer counts as transient. */
  function Class(a: Answer): ResponseClass {
    match a
    case Status(code) => ClassifyStatus(code)
    case NoAnswer => Transient
  }

  predicate ShouldUpload(mw: MicrowavepropConfig) {
    mw.enabled && mw.monitorToken != "" && mw.beaconId != "" && mw.gridsquare != ""
  }

  predicate Uploads(c: Config) {
    c.microwaveprop.Some? && ShouldUpload(c.microwaveprop.value)
  }

  function GainFor(actual: Option<F64>, configured: Option<F64>): F64 {
    if actual.Some? then actual.value else if configured.Some? then configured.value else Whole(0)
  }

  /** What one read puts into the queue. */
  function WireOf(r: Received): Option<Wire> {
    if r.Got? && r.event.Measured? && Uploads(r.config) then
      var mw := r.config.microwaveprop.value;
      Some(Wire(mw.beaconId, mw.gridsquare, r.event.measuredAt, r.config.periodSeconds,
                PassbandFor(r.config.mode, r.config.beacon).1, GainFor(r.actualGain, r.config.gain),
                r.event.levels))
    else None
  }

  /** One pass of the loop: the config and answer a post would meet, and what the stream brings. */
  datatype Turn = Turn(config: Config, answer: Answer, during: seq<Received>, next: Option<Received>)

  // ---------------- the queue and its history ---------------------------

  datatype Fate = Delivered | Refused | Evicted

  datatype Entry =
    | Added(wire: Wire)
    | Posted(wire: Wire, answer: Answer)
    | Removed(wire: Wire, fate: Fate)
    | Waited(seconds: nat)

  datatype State = State(queue: seq<Wire>, backoff: nat, ended: bool, log: seq<Entry>)

  const START := State([], 1, false, [])

  function Logged(s: State, e: Entry): State {
    s.(log := s.log + [e])
  }

  function Dequeued(s: State, fate: Fate): State
    requires s.queue != []
  {
    Logged(s.(queue := s.queue[1..]), Removed(s.queue[0], fate))
  }

  function Enqueued(s: State, r: Received): State {
    match WireOf(r)
    case None => s
    case Some(w) =>
      var roomy := if |s.queue| >= MAX_ENTRIES then Dequeued(s, Evicted) else s;
      Logged(roomy.(queue := roomy.queue + [w]), Added(w))
  }

  /** Taking measurements in while a pause runs; the stream may close under it. */
  function Drained(s: State, during: seq<Received>): State
    decreases |during|
  {
    if during == [] then s
    else if during[0].Closed? then s.(ended := true)
    else Drained(Enqueued(s, during[0]), during[1..])
  }

  /** The head of the queue after its post was answered. */
  function Answered(s: State, t: Turn): State
    requires s.queue != []
  {
    var posted := Logged(s, Posted(s.queue[0], t.answer));
    match Class(t.answer)
    case Ok => Dequeued(posted, Delivered).(backoff := 1)
    case Permanent => Dequeued(posted, Refused).(backoff := 1)
    case Transient =>
      var drained := Drained(Logged(posted, Waited(s.backoff)), t.during);
      if drained.ended then drained else drained.(backoff := Min(s.backoff * 2, MAX_BACKOFF))
  }

  function TakenIn(s: State, next: Option<Received>): State {
    match next
    case None => s
    case Some(Closed) => s.(ended := true)
    case Some(r) => Enqueued(s, r)
  }

  function Turned(s: State, t: Turn): State {
    if s.queue != [] && Uploads(t.config) then
      var answered := Answered(s, t);
      if Class(t.answer) == Ok then TakenIn(answered, t.next) else answered
    else TakenIn(s, t.next)
  }

  function Run(s: State, turns: seq<Turn>): State
    decreases |turns|
  {
    if turns == [] || s.ended then s else Run(Turned(s, turns[0]), turns[1..])
  }

  // ---------------- the loop, step by step ------------------------------

  class Task {
    var queue: seq<Wire>
    var backoff: nat
    /** The uploader's state in the status shown, as of the last measurement. */
    var enabled: bool
    ghost var ended: bool
    ghost var log: seq<Entry>

    ghost function View(): State
      reads this
    {
      State(queue, backoff, ended, log)
    }

    constructor ()
      ensures View() == START
    {
      queue, backoff, enabled, ended, log := [], 1, false, false, [];
    }

    method EnqueueMeasurement(r: Received)
      modifies this
      ensures View() == Enqueued(old(View()), r)
      ensures enabled == if r.Got? && r.event.Measured? then Uploads(r.config) else old(enabled)
    {
      if !r.Got? || !r.event.Measured? { return; }
      if !Uploads(r.config) {
        enabled := false;
        return;
      }
      enabled := true;
      var m := WireOf(r).value;
      if |queue| >= MAX_ENTRIES {
        log := log + [Removed(queue[0], Evicted)];
        queue := queue[1..];
      }
      queue := queue + [m];
      log := log + [Added(m)];
    }

    method BackoffAndDrain(during: seq<Received>) returns (closed: bool)
      requires !ended
      modifies this
      ensures View() == Drained(old(View()), during) && closed == ended
    {
      var i := 0;
      while i < |during|
        invariant 0 <= i <= |during| && !ended
        invariant Drained(old(View()), during) == Drained(View(), during[i..])
      {
        if during[i].Closed? {
          ended := true;
          return true;
        }
        EnqueueMeasurement(during[i]);
        assert during[i..][1..] == during[i + 1..];
        i := i + 1;
      }
      return false;
    }

    /** One pass of the loop; `done` when the stream has closed. */
    method Pass(t: Turn) returns (done: bool)
      requires !ended
      modifies this
      ensures View() == Turned(old(View()), t) && done == ended
    {
      hide Enqueued, Drained, WireOf;
      if queue != [] && Uploads(t.config) {
        log := log + [Posted(queue[0], t.answer)];
        match Class(t.answer)
        case Ok =>
          log := log + [Removed(queue[0], Delivered)];
          queue := queue[1..];
          backoff := 1;
        case Permanent =>
          log := log + [Removed(queue[0], Refused)];
          queue := queue[1..];
          backoff := 1;
          return false;
        case Transient =>
          log := log + [Waited(backoff)];
          var wait := backoff;
          done := BackoffAndDrain(t.during);
          if !done {
            backoff := Min(wait * 2, MAX_BACKOFF);
          }
          return;
      }
      match t.next
      case None => return false;
      case Some(Closed) =>
        ended := true;
        return true;
      case Some(r) =>
        EnqueueGoesOn(View(), r);
        EnqueueMeasurement(r);
        return false;
    }
  }

  /** `run`: passes until the stream closes. */
  method RunTask(task: Task, turns: seq<Turn>)
    requires !task.ended
    modifies task
    ensures task.View() == Run(old(task.View()), turns)
  {
    hide Turned;
    var i := 0;
    while i < |turns|
      invariant 0 <= i <= |turns| && !task.ended
      invariant Run(old(task.View()), turns) == Run(task.View(), turns[i..])
    {
      assert turns[i..][1..] == turns[i + 1..];
      var done := task.Pass(turns[i]);
      if done { return; }
      i := i + 1;
    }
  }

  lemma EnqueueGoesOn(s: State, r: Received)
    ensures Enqueued(s, r).ended == s.ended
  {
  }

  // ---------------- what a history must look like -----------------------

  /** The queue a history leaves: added at the back, removed at the front. */
  function Waiting(log: seq<Entry>): seq<Wire> {
    if log == [] then [] else Moved(Waiting(log[..|log| - 1]), log[|log| - 1])
  }

  function Moved(waiting: seq<Wire>, e: Entry): seq<Wire> {
    match e
    case Added(w) => waiting + [w]
    case Removed(_, _) => if waiting == [] then [] else waiting[1..]
    case _ => waiting
  }

  /** Transient failures since the last answer that settled anything. */
  function Streak(log: seq<Entry>): nat {
    if log == [] then 0
    else
      var before, e := log[..|log| - 1], log[|log| - 1];
      if e.Posted? then (if Class(e.answer) == Transient then Streak(before) + 1 else 0) else Streak(before)
  }

  predicate EndsWithPost(log: seq<Entry>, kind: ResponseClass) {
    log != [] && log[|log| - 1].Posted? && Class(log[|log| - 1].answer) == kind
  }

  /** No answered measurement is still in the queue. */
  predicate Settled(log: seq<Entry>) {
    !EndsWithPost(log, Ok) && !EndsWithPost(log, Permanent)
  }

  /** Whether `e` may follow `before`. */
  predicate Follows(before: seq<Entry>, e: Entry) {
    var waiting := Waiting(before);
    match e
    case Added(_) => Settled(before) && |waiting| < 1440
    case Posted(w, _) => Settled(before) && waiting != [] && w == waiting[0]
    case Removed(w, fate) =>
      && waiting != [] && w == waiting[0]
      && (fate == Delivered <==> EndsWithPost(before, Ok))
      && (fate == Refused <==> EndsWithPost(before, Permanent))
      && (fate == Evicted ==> |waiting| == 1440)
    case Waited(s) =>
      EndsWithPost(before, Transient) && Streak(before) > 0 && s == Min(Power2(Streak(before) - 1), 300)
  }

  predicate Lawful(log: seq<Entry>) {
    log == [] || (Lawful(log[..|log| - 1]) && Follows(log[..|log| - 1], log[|log| - 1]))
  }

  /** Between two steps of the loop. */
  predicate Inv(s: State) {
    && Lawful(s.log) && Settled(s.log)
    && s.queue == Waiting(s.log) && |s.queue| <= MAX_ENTRIES
    && (!s.ended ==> s.backoff == Min(Power2(Streak(s.log)), MAX_BACKOFF))
  }

  lemma LogGrows(log: seq<Entry>, e: Entry)
    ensures Lawful(log + [e]) <==> Lawful(log) && Follows(log, e)
    ensures Waiting(log + [e]) == Moved(Waiting(log), e)
    ensures Streak(log + [e]) == if !e.Posted? then Streak(log)
              else if Class(e.answer) == Transient then Streak(log) + 1 else 0
  {
    assert (log + [e])[..|log|] == log;
  }

  lemma EnqueuedKeeps(s: State, r: Received)
    requires Lawful(s.log) && Settled(s.log) && s.queue == Waiting(s.log) && |s.queue| <= MAX_ENTRIES
    ensures var s' := Enqueued(s, r);
            && Lawful(s'.log) && Settled(s'.log) && s'.queue == Waiting(s'.log) && |s'.queue| <= MAX_ENTRIES
            && Streak(s'.log) == Streak(s.log) && s'.backoff == s.backoff && s'.ended == s.ended
  {
    hide Lawful, Waiting, Streak;
    var w := WireOf(r);
    if w.Some? {
      var roomy := if |s.queue| >= MAX_ENTRIES then Dequeued(s, Evicted) else s;
      if |s.queue| >= MAX_ENTRIES {
        LogGrows(s.log, Removed(s.queue[0], Evicted));
      }
      LogGrows(roomy.log, Added(w.value));
    }
  }

  lemma {:induction false} DrainedKeeps(s: State, during: seq<Received>)
    requires Lawful(s.log) && Settled(s.log) && s.queue == Waiting(s.log) && |s.queue| <= MAX_ENTRIES
    ensures var s' := Drained(s, during);
            && Lawful(s'.log) && Settled(s'.log) && s'.queue == Waiting(s'.log) && |s'.queue| <= MAX_ENTRIES
            && Streak(s'.log) == Streak(s.log) && s'.backoff == s.backoff
    decreases |during|
  {
    hide Lawful, Waiting, Streak, Enqueued, Settled;
    if during != [] && !during[0].Closed? {
      EnqueuedKeeps(s, during[0]);
      DrainedKeeps(Enqueued(s, during[0]), during[1..]);
    }
  }

  lemma BackoffDoubles(n: nat)
    ensures Min(Min(Power2(n), MAX_BACKOFF) * 2, MAX_BACKOFF) == Min(Power2(n + 1), MAX_BACKOFF)
  {
  }

  lemma AnsweredKeeps(s: State, t: Turn)
    requires Inv(s) && !s.ended && s.queue != []
    ensures Inv(Answered(s, t))
  {
    hide Lawful, Waiting, Streak, Drained;
    var head := s.queue[0];
    var posted := s.log + [Posted(head, t.answer)];
    LogGrows(s.log, Posted(head, t.answer));
    match Class(t.answer)
    case Ok =>
      LogGrows(posted, Removed(head, Delivered));
      assert Power2(0) == 1;
    case Permanent =>
      LogGrows(posted, Removed(head, Refused));
      assert Power2(0) == 1;
    case Transient =>
      LogGrows(posted, Waited(s.backoff));
      var waiting := s.(log := posted + [Waited(s.backoff)]);
      DrainedKeeps(waiting, t.during);
      BackoffDoubles(Streak(s.log));
  }

  lemma TurnedKeeps(s: State, t: Turn)
    requires Inv(s) && !s.ended
    ensures Inv(Turned(s, t))
  {
    hide Lawful, Waiting, Streak, Answered, Enqueued, Power2;
    var answered := if s.queue != [] && Uploads(t.config) then Answered(s, t) else s;
    if s.queue != [] && Uploads(t.config) {
      AnsweredKeeps(s, t);
      if Class(t.answer) == Ok {
        OkGoesOn(s, t);
      }
    }
    if t.next.Some? {
      EnqueuedKeeps(answered, t.next.value);
    }
  }

  lemma OkGoesOn(s: State, t: Turn)
    requires s.queue != [] && Class(t.answer) == Ok
    ensures Answered(s, t).ended == s.ended
  {
  }

  /**
   Over every run, whatever the answers and the stream: the history is lawful
   and the queue is what it leaves. So only the head is ever posted, the head
   leaves exactly when its post is accepted or refused for good, or when a
   1441st measurement needs its place, and the pause after the n-th transient
   failure in a row is 2^(n-1) seconds, at most 300.
   */
  lemma {:induction false} RunIsLawful(s: State, turns: seq<Turn>)
    requires Inv(s)
    ensures Inv(Run(s, turns))
    decreases |turns|
  {
    hide Inv, Turned;
    if turns != [] && !s.ended {
      TurnedKeeps(s, turns[0]);
      RunIsLawful(Turned(s, turns[0]), turns[1..]);
    }
  }

  lemma StartIsLawful()
    ensures Inv(START)
  {
  }

  // ---------------- what a lawful history conserves ---------------------

  function AllAdded(log: seq<Entry>): seq<Wire> {
    if log == [] then []
    else
      var before, e := AllAdded(log[..|log| - 1]), log[|log| - 1];
      if e.Added? then before + [e.wire] else before
  }

  function AllRemoved(log: seq<Entry>): seq<Wire> {
    if log == [] then []
    else
      var before, e := AllRemoved(log[..|log| - 1]), log[|log| - 1];
      if e.Removed? then before + [e.wire] else before
  }

  function RemovedAs(log: seq<Entry>, fate: Fate): seq<Wire> {
    if log == [] then []
    else
      var before, e := RemovedAs(log[..|log| - 1], fate), log[|log| - 1];
      if e.Removed? && e.fate == fate then before + [e.wire] else before
  }

  function PostsAnswered(log: seq<Entry>, kind: ResponseClass): seq<Wire> {
    if log == [] then []
    else
      var before, e := PostsAnswered(log[..|log| - 1], kind), log[|log| - 1];
      if e.Posted? && Class(e.answer) == kind then before + [e.wire] else before
  }

  /** What came in is what went out, in order, and then the queue. */
  lemma {:induction false} Conservation(log: seq<Entry>)
    requires Lawful(log)
    ensures AllAdded(log) == AllRemoved(log) + Waiting(log)
    ensures |Waiting(log)| <= MAX_ENTRIES
  {
    if log != [] {
      hide EndsWithPost, Streak, Power2;
      var before, e := log[..|log| - 1], log[|log| - 1];
      Conservation(before);
      var out, waiting := AllRemoved(before), Waiting(before);
      if e.Added? {
        assert out + waiting + [e.wire] == out + (waiting + [e.wire]);
      } else if e.Removed? {
        assert waiting == [e.wire] + waiting[1..];
        assert out + waiting == out + [e.wire] + waiting[1..];
      }
    }
  }

  /** Each removed measurement has exactly one fate. */
  lemma {:induction false} FatesAddUp(log: seq<Entry>)
    ensures |AllRemoved(log)| ==
            |RemovedAs(log, Delivered)| + |RemovedAs(log, Refused)| + |RemovedAs(log, Evicted)|
  {
    if log != [] {
      FatesAddUp(log[..|log| - 1]);
    }
  }

  /** The measurement a post was answered for, while it is still in the queue. */
  function Unsettled(log: seq<Entry>, kind: ResponseClass): seq<Wire> {
    if EndsWithPost(log, kind) then [log[|log| - 1].wire] else []
  }

  /** Exactly the accepted posts were delivered, and exactly the refused ones given up, each once and in order. */
  lemma {:induction false} FatesMatchAnswers(log: seq<Entry>)
    requires Lawful(log)
    ensures PostsAnswered(log, Ok) == RemovedAs(log, Delivered) + Unsettled(log, Ok)
    ensures PostsAnswered(log, Permanent) == RemovedAs(log, Refused) + Unsettled(log, Permanent)
  {
    if log != [] {
      var before, e := log[..|log| - 1], log[|log| - 1];
      FatesMatchAnswers(before);
      if EndsWithPost(before, Ok) { PostIsHead(before, Ok); }
      if EndsWithPost(before, Permanent) { PostIsHead(before, Permanent); }
      assert Follows(before, e);
    }
  }

  /** A post that was answered is at the head of the queue until it is removed. */
  lemma PostIsHead(log: seq<Entry>, kind: ResponseClass)
    requires Lawful(log) && EndsWithPost(log, kind)
    ensures Waiting(log) != [] && Waiting(log)[0] == log[|log| - 1].wire
  {
  }

  /**
   Every run of the uploader, from its start: the measurements taken in are those
   removed, in order, and then those still queued; delivered are exactly the
   ones a post was accepted for, refused exactly the ones it was refused for,
   and the rest were evicted.
   */
  lemma EveryRunConserves(turns: seq<Turn>)
    ensures var s := Run(START, turns);
            && |s.queue| <= 1440 && AllAdded(s.log) == AllRemoved(s.log) + s.queue
            && RemovedAs(s.log, Delivered) == PostsAnswered(s.log, Ok)
            && RemovedAs(s.log, Refused) == PostsAnswered(s.log, Permanent)
            && |AllRemoved(s.log)| ==
               |RemovedAs(s.log, Delivered)| + |RemovedAs(s.log, Refused)| + |RemovedAs(s.log, Evicted)|
  {
    hide Run, Lawful, AllAdded, AllRemoved, RemovedAs, PostsAnswered, Waiting;
    StartIsLawful();
    RunIsLawful(START, turns);
    Conservation(Run(START, turns).log);
    FatesAddUp(Run(START, turns).log);
    FatesMatchAnswers(Run(START, turns).log);
  }
}

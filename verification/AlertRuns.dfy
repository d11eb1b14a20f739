/** Any number of `route` calls at once, interleaved at every await. A database operation and the
    continuation of the coroutine that waited for it are separate steps, and the clock may move
    between any two of them. */
module AlertRuns {
  import opened Wrappers
  import opened Clock
  import opened Tally
  import opened AlertStore
  import opened AlertRouter

  /** How far one call has come. */
  datatype Call =
    | Idle
    | AskingSeen(job: Job, cutoff: Instant)
    | SeenAnswer(job: Job, seen: bool)
    | AskingOverride(job: Job)
    | OverrideAnswer(job: Job, ov: Option<TopicOverride>)
    | AskingCount(job: Job, since: Instant)
    | CountAnswer(job: Job, pushed: nat)
    | Inserting(row: Row)

  datatype State = State(now: Instant, cap: int, log: seq<Row>, calls: seq<Call>)

  datatype Event =
    | ClockMoves(to: Instant)
    | Begin(call: nat, job: Job)
    | Database(call: nat, ov: Option<TopicOverride>)
    | Resume(call: nat, localNow: int)
    | Fails(call: nat)    // the database raises, or the request is cancelled

  function Initial(now: Instant, cap: int, slots: nat): State {
    State(now, cap, [], seq(slots, _ => Idle))
  }

  function Record(job: Job, v: Verdict, now: Instant): Call
    requires v.Deliver?
  {
    Inserting(Row(job.candidate.key, v.delivery, v.reason, now))
  }

  function PastOverride(job: Job, ov: Option<TopicOverride>, now: Instant, localNow: int): Call {
    var v := AfterOverride(job.settings, ov, now, localNow);
    if v.AskCount? then AskingCount(job, StartOfDay(now)) else Record(job, v, now)
  }

  /** The code between two awaits. Deciding and taking the row's timestamp happen without an await in between. */
  function Continue(c: Call, now: Instant, localNow: int): Call {
    match c
    case SeenAnswer(job, seen) =>
      if seen then Record(job, Deliver(Silent, DuplicateWithin24h), now)
      else if BelowFloor(job) then Record(job, Deliver(Silent, BelowMinScore), now)
      else if job.candidate.topic == "" then PastOverride(job, None, now, localNow)
      else AskingOverride(job)
    case OverrideAnswer(job, ov) => PastOverride(job, ov, now, localNow)
    case CountAnswer(job, pushed) => Record(job, AfterCount(pushed, job.settings), now)
    case _ => c
  }

  /** What the database answers; an insert ends the call. */
  function Answer(c: Call, log: seq<Row>, ov: Option<TopicOverride>): Call {
    match c
    case AskingSeen(job, cutoff) => SeenAnswer(job, Seen(log, job.candidate.key, cutoff))
    case AskingOverride(job) => OverrideAnswer(job, ov)
    case AskingCount(job, since) => CountAnswer(job, Count(log, PushSince(since)))
    case Inserting(_) => Idle
    case _ => c
  }

  /** One step. An event that is not possible in s changes nothing. */
  function Step(s: State, e: Event): State {
    match e
    case ClockMoves(to) => if to >= s.now then s.(now := to) else s
    case Begin(i, job) =>
      if i < |s.calls| && s.calls[i] == Idle && job.settings.maxPerDay == s.cap
      then s.(calls := s.calls[i := AskingSeen(job, Cutoff(s.now))]) else s
    case Database(i, ov) =>
      if i < |s.calls| then
        s.(log := if s.calls[i].Inserting? then s.log + [s.calls[i].row] else s.log,
           calls := s.calls[i := Answer(s.calls[i], s.log, ov)])
      else s
    case Resume(i, localNow) =>
      if i < |s.calls| then s.(calls := s.calls[i := Continue(s.calls[i], s.now, localNow)]) else s
    case Fails(i) => if i < |s.calls| then s.(calls := s.calls[i := Idle]) else s
  }

  function Run(s: State, es: seq<Event>): State {
    if es == [] then s else Step(Run(s, es[..|es| - 1]), es[|es| - 1])
  }

  // ---- what every step keeps ----

  predicate CallSane(c: Call, now: Instant, cap: int) {
    match c
    case Idle => true
    case AskingSeen(job, cutoff) => cutoff <= Cutoff(now) && job.settings.maxPerDay == cap
    case AskingCount(job, since) => since <= DayOf(now) * DAY && job.settings.maxPerDay == cap
    case Inserting(row) => row.at <= now
    case _ => c.job.settings.maxPerDay == cap
  }

  ghost predicate Sane(s: State) {
    && (forall i :: 0 <= i < |s.log| ==> s.log[i].at <= s.now)
    && (forall i :: 0 <= i < |s.calls| ==> CallSane(s.calls[i], s.now, s.cap))
  }

  lemma SaneStep(s: State, e: Event)
    requires Sane(s)
    ensures Sane(Step(s, e)) && |Step(s, e).calls| == |s.calls| && Step(s, e).cap == s.cap
  {
    if e.ClockMoves? && e.to >= s.now {
      DayCut(e.to, DayOf(s.now));
      DayCut(s.now, DayOf(s.now));
    }
  }

  /** A call that may still add a push to the given day. */
  function MayPush(cap: int, day: int, now: Instant): Call -> bool {
    (c: Call) =>
      match c
      case CountAnswer(_, n) => n < cap && DayOf(now) <= day
      case Inserting(row) => PushedOn(day)(row)
      case _ => false
  }

  /** The most pushes one day can get with k calls in flight. */
  function PushBound(cap: int, k: nat): int {
    if cap <= 0 then 0 else cap + k - 1
  }

  ghost predicate DayKept(s: State, day: int) {
    Count(s.log, PushedOn(day)) + Count(s.calls, MayPush(s.cap, day, s.now)) <= PushBound(s.cap, |s.calls|)
  }

  lemma DayKeptClock(s: State, to: Instant, day: int)
    requires DayKept(s, day) && to >= s.now
    ensures DayKept(s.(now := to), day)
  {
    DayCut(to, DayOf(s.now));
    DayCut(s.now, DayOf(s.now));
    hide Count;
    CountWeaker(s.calls, MayPush(s.cap, day, to), MayPush(s.cap, day, s.now));
  }

  /** Putting a call that may not push where another one was. */
  lemma DayKeptHarmless(s: State, i: nat, c: Call, day: int)
    requires DayKept(s, day) && i < |s.calls|
    requires MayPush(s.cap, day, s.now)(c) ==> MayPush(s.cap, day, s.now)(s.calls[i])
    ensures DayKept(s.(calls := s.calls[i := c]), day)
  {
    hide Count, MayPush;
    CountUpdate(s.calls, i, c, MayPush(s.cap, day, s.now));
  }

  lemma DayKeptCounted(s: State, i: nat, day: int)
    requires Sane(s) && DayKept(s, day) && i < |s.calls| && s.calls[i].AskingCount?
    ensures DayKept(s.(calls := s.calls[i := Answer(s.calls[i], s.log, None)]), day)
  {
    var c, d := s.calls[i], Answer(s.calls[i], s.log, None);
    var p := MayPush(s.cap, day, s.now);
    assert CallSane(c, s.now, s.cap);
    if p(d) {
      DayCut(s.now, day);
      hide Count;
      CountCoversDay(s.log, c.since, day);
      CountBound(s.calls[i := d], p);
    } else {
      DayKeptHarmless(s, i, d, day);
    }
  }

  lemma DayKeptInserted(s: State, i: nat, day: int)
    requires DayKept(s, day) && i < |s.calls| && s.calls[i].Inserting?
    ensures DayKept(s.(log := s.log + [s.calls[i].row], calls := s.calls[i := Idle]), day)
  {
    hide Count;
    CountUpdate(s.calls, i, Idle, MayPush(s.cap, day, s.now));
    CountAppend(s.log, s.calls[i].row, PushedOn(day));
  }

  lemma DayKeptStep(s: State, e: Event, day: int)
    requires Sane(s) && DayKept(s, day)
    ensures DayKept(Step(s, e), day)
  {
    hide DayKept, Count;
    match e
    case ClockMoves(to) => if to >= s.now { DayKeptClock(s, to, day); }
    case Begin(i, job) => if i < |s.calls| { DayKeptHarmless(s, i, AskingSeen(job, Cutoff(s.now)), day); }
    case Resume(i, localNow) =>
      if i < |s.calls| {
        ResumePushes(s.calls[i], s.now, localNow, s.cap, day);
        DayKeptHarmless(s, i, Continue(s.calls[i], s.now, localNow), day);
      }
    case Database(i, ov) =>
      if i < |s.calls| {
        if s.calls[i].Inserting? { DayKeptInserted(s, i, day); }
        else if s.calls[i].AskingCount? { DayKeptCounted(s, i, day); }
        else { DayKeptHarmless(s, i, Answer(s.calls[i], s.log, ov), day); }
      }
    case Fails(i) => if i < |s.calls| { DayKeptHarmless(s, i, Idle, day); }
  }

  /** The override stage asks for the count or decides, but not for a push. */
  lemma PastOverrideIs(job: Job, ov: Option<TopicOverride>, now: Instant, localNow: int)
    ensures var d := PastOverride(job, ov, now, localNow);
      d == AskingCount(job, StartOfDay(now)) ||
      (d.Inserting? && d.row.key == job.candidate.key && d.row.at == now && d.row.delivery != Telegram)
  {
  }

  /** Only the answer to the count lets a call push, and its row is dated today. */
  lemma ResumePushes(c: Call, now: Instant, localNow: int, cap: int, day: int)
    requires CallSane(c, now, cap)
    ensures MayPush(cap, day, now)(Continue(c, now, localNow)) ==> MayPush(cap, day, now)(c)
  {
    var d := Continue(c, now, localNow);
    assert d.Inserting? ==> MayPush(cap, day, now)(d) == PushedOn(day)(d.row);
    if c.SeenAnswer? { PastOverrideIs(c.job, None, now, localNow); }
    if c.OverrideAnswer? { PastOverrideIs(c.job, c.ov, now, localNow); }
  }

  /** A call that may still add a non-silent row with this key to the 24 hours from `from`. */
  function MayFire(key: Key, from: int, now: Instant): Call -> bool {
    (c: Call) =>
      match c
      case Idle => false
      case AskingSeen(_, _) => false
      case SeenAnswer(job, seen) => !seen && job.candidate.key == key && now <= from + DAY
      case Inserting(row) => FiredIn(key, from)(row)
      case _ => c.job.candidate.key == key && now <= from + DAY
  }

  ghost predicate WindowKept(s: State, key: Key, from: int) {
    Count(s.log, FiredIn(key, from)) + Count(s.calls, MayFire(key, from, s.now)) <= |s.calls|
  }

  /** A dedupe query that finds nothing proves every window that is still open empty. */
  lemma UnseenWindowEmpty(s: State, c: Call, from: int)
    requires c.AskingSeen? && CallSane(c, s.now, s.cap) && MIN_INSTANT + DAY <= s.now <= from + DAY
    requires !Seen(s.log, c.job.candidate.key, c.cutoff)
    ensures Count(s.log, FiredIn(c.job.candidate.key, from)) == 0
  {
    CountNone(s.log, FiredIn(c.job.candidate.key, from));
  }

  lemma WindowKeptHarmless(s: State, i: nat, c: Call, key: Key, from: int)
    requires WindowKept(s, key, from) && i < |s.calls|
    requires MayFire(key, from, s.now)(c) ==> MayFire(key, from, s.now)(s.calls[i])
    ensures WindowKept(s.(calls := s.calls[i := c]), key, from)
  {
    hide Count, MayFire;
    CountUpdate(s.calls, i, c, MayFire(key, from, s.now));
  }

  lemma WindowKeptClock(s: State, to: Instant, key: Key, from: int)
    requires WindowKept(s, key, from) && to >= s.now
    ensures WindowKept(s.(now := to), key, from)
  {
    hide Count;
    CountWeaker(s.calls, MayFire(key, from, to), MayFire(key, from, s.now));
  }

  lemma WindowKeptAnswered(s: State, i: nat, key: Key, from: int)
    requires Sane(s) && WindowKept(s, key, from) && MIN_INSTANT + DAY <= s.now
    requires i < |s.calls| && s.calls[i].AskingSeen?
    ensures WindowKept(s.(calls := s.calls[i := Answer(s.calls[i], s.log, None)]), key, from)
  {
    hide Count;
    var c, d := s.calls[i], Answer(s.calls[i], s.log, None);
    assert CallSane(c, s.now, s.cap);
    if MayFire(key, from, s.now)(d) {
      UnseenWindowEmpty(s, c, from);
      CountBound(s.calls[i := d], MayFire(key, from, s.now));
    } else {
      WindowKeptHarmless(s, i, d, key, from);
    }
  }

  lemma WindowKeptInserted(s: State, i: nat, key: Key, from: int)
    requires WindowKept(s, key, from) && i < |s.calls| && s.calls[i].Inserting?
    ensures WindowKept(s.(log := s.log + [s.calls[i].row], calls := s.calls[i := Idle]), key, from)
  {
    hide Count;
    CountUpdate(s.calls, i, Idle, MayFire(key, from, s.now));
    CountAppend(s.log, s.calls[i].row, FiredIn(key, from));
  }

  /** Code between awaits makes no call able to fire that was not before. */
  lemma ResumeFires(c: Call, now: Instant, localNow: int, key: Key, from: int)
    ensures MayFire(key, from, now)(Continue(c, now, localNow)) ==> MayFire(key, from, now)(c)
  {
    var d := Continue(c, now, localNow);
    assert d.Inserting? ==> MayFire(key, from, now)(d) == FiredIn(key, from)(d.row);
    if c.SeenAnswer? { PastOverrideIs(c.job, None, now, localNow); }
    if c.OverrideAnswer? { PastOverrideIs(c.job, c.ov, now, localNow); }
  }

  lemma WindowKeptStep(s: State, e: Event, key: Key, from: int)
    requires Sane(s) && WindowKept(s, key, from) && MIN_INSTANT + DAY <= s.now
    ensures WindowKept(Step(s, e), key, from)
  {
    hide WindowKept, Count, Seen;
    match e
    case ClockMoves(to) => if to >= s.now { WindowKeptClock(s, to, key, from); }
    case Begin(i, job) => if i < |s.calls| { WindowKeptHarmless(s, i, AskingSeen(job, Cutoff(s.now)), key, from); }
    case Resume(i, localNow) =>
      if i < |s.calls| {
        ResumeFires(s.calls[i], s.now, localNow, key, from);
        WindowKeptHarmless(s, i, Continue(s.calls[i], s.now, localNow), key, from);
      }
    case Database(i, ov) =>
      if i < |s.calls| {
        if s.calls[i].Inserting? { WindowKeptInserted(s, i, key, from); }
        else if s.calls[i].AskingSeen? { WindowKeptAnswered(s, i, key, from); }
        else { WindowKeptHarmless(s, i, Answer(s.calls[i], s.log, ov), key, from); }
      }
    case Fails(i) => if i < |s.calls| { WindowKeptHarmless(s, i, Idle, key, from); }
  }

  lemma InitiallyKept(now: Instant, cap: int, slots: nat)
    ensures var s := Initial(now, cap, slots);
      Sane(s) && (forall day :: DayKept(s, day)) && (forall key, from :: WindowKept(s, key, from))
  {
    var s := Initial(now, cap, slots);
    forall day ensures DayKept(s, day) {
      CountNone(s.calls, MayPush(cap, day, now));
      if cap > 0 && slots == 0 { }
    }
    forall key, from ensures WindowKept(s, key, from) { CountNone(s.calls, MayFire(key, from, now)); }
  }

  /** Every reachable state keeps all three. */
  lemma {:induction false} RunKeeps(now: Instant, cap: int, slots: nat, es: seq<Event>)
    requires MIN_INSTANT + DAY <= now
    ensures var s := Run(Initial(now, cap, slots), es);
      && Sane(s) && s.now >= now && s.cap == cap && |s.calls| == slots
      && (forall day :: DayKept(s, day)) && (forall key, from :: WindowKept(s, key, from))
  {
    if es == [] {
      InitiallyKept(now, cap, slots);
    } else {
      RunKeeps(now, cap, slots, es[..|es| - 1]);
      var s, e := Run(Initial(now, cap, slots), es[..|es| - 1]), es[|es| - 1];
      SaneStep(s, e);
      forall day ensures DayKept(Step(s, e), day) { DayKeptStep(s, e, day); }
      forall key, from ensures WindowKept(Step(s, e), key, from) { WindowKeptStep(s, e, key, from); }
    }
  }

  /** With at most k calls in flight and a fixed cap, no UTC day ever gets more than cap + k - 1
      Telegram rows, and none at all when the cap is not positive; k = 1 gives the cap itself. */
  lemma DailyCap(now: Instant, cap: int, k: nat, es: seq<Event>, day: int)
    requires MIN_INSTANT + DAY <= now && k >= 1
    ensures Count(Run(Initial(now, cap, k), es).log, PushedOn(day)) <= (if cap <= 0 then 0 else cap + k - 1)
  {
    RunKeeps(now, cap, k, es);
    assert DayKept(Run(Initial(now, cap, k), es), day);
  }

  /** With at most k calls in flight, one key leaves at most k non-silent rows in any 24 hours. */
  lemma DedupeWindow(now: Instant, cap: int, k: nat, es: seq<Event>, key: Key, from: int)
    requires MIN_INSTANT + DAY <= now
    ensures Count(Run(Initial(now, cap, k), es).log, FiredIn(key, from)) <= k
  {
    RunKeeps(now, cap, k, es);
    assert WindowKept(Run(Initial(now, cap, k), es), key, from);
  }

  // ---- calls that do not overlap ----

  lemma Snoc(s: State, es: seq<Event>, e: Event)
    ensures Run(s, es + [e]) == Step(Run(s, es), e)
  {
    assert (es + [e])[..|es + [e]| - 1] == es;
  }

  datatype Request = Request(at: Instant, job: Job, ov: Option<TopicOverride>, localNow: int)

  /** The log after calls of `Router.Route` that each end before the next begins. */
  function SerialLog(reqs: seq<Request>): (log: seq<Row>)
    ensures |log| == |reqs|
  {
    if reqs == [] then []
    else
      var rows, q := SerialLog(reqs[..|reqs| - 1]), reqs[|reqs| - 1];
      rows + [Routed(rows, q.job, q.ov, q.at, q.localNow)]
  }

  function LastClock(now: Instant, reqs: seq<Request>): Instant {
    if reqs == [] then now else reqs[|reqs| - 1].at
  }

  ghost predicate Ordered(now: Instant, cap: int, reqs: seq<Request>) {
    && (forall i :: 0 <= i < |reqs| ==> reqs[i].job.settings.maxPerDay == cap && reqs[i].at >= now)
    && (forall i, j :: 0 <= i < j < |reqs| ==> reqs[i].at <= reqs[j].at)
  }

  /** One call on its own, step by step. Later steps are idle when the call ended early. */
  function AloneSteps(q: Request): seq<Event> {
    [ClockMoves(q.at), Begin(0, q.job), Database(0, None), Resume(0, q.localNow)]
      + [Database(0, q.ov), Resume(0, q.localNow), Database(0, None), Resume(0, q.localNow), Database(0, None)]
  }

  lemma {:induction false} RunSplit(s: State, es: seq<Event>, fs: seq<Event>)
    ensures Run(s, es + fs) == Run(Run(s, es), fs)
  {
    if fs == [] {
      assert es + fs == es;
    } else {
      RunSplit(s, es, fs[..|fs| - 1]);
      assert es + fs == (es + fs[..|fs| - 1]) + [fs[|fs| - 1]];
      Snoc(s, es + fs[..|fs| - 1], fs[|fs| - 1]);
    }
  }

  lemma RunOne(s: State, e: Event)
    ensures Run(s, [e]) == Step(s, e)
  {
    Snoc(s, [], e);
    assert [] + [e] == [e];
  }

  lemma RunFour(s: State, a: Event, b: Event, c: Event, d: Event)
    ensures Run(s, [a, b, c, d]) == Step(Step(Step(Step(s, a), b), c), d)
  {
    RunOne(s, a);
    Snoc(s, [a], b);
    Snoc(s, [a, b], c);
    Snoc(s, [a, b, c], d);
    assert [a] + [b] == [a, b] && [a, b] + [c] == [a, b, c] && [a, b, c] + [d] == [a, b, c, d];
  }

  /** Where the coroutine goes from the dedupe answer agrees with the decision function. */
  lemma PathOfDecide(job: Job, seen: bool, pushed: nat, ov: Option<TopicOverride>, now: Instant, localNow: int)
    ensures var v := Decide(seen, pushed, job, ov, now, localNow);
      var done := Inserting(Row(job.candidate.key, v.delivery, v.reason, now));
      var c := Continue(SeenAnswer(job, seen), now, localNow);
      c == done || (c == AskingOverride(job) && (
        var d := Continue(OverrideAnswer(job, ov), now, localNow);
        d == done || (d == AskingCount(job, StartOfDay(now)) &&
            Continue(CountAnswer(job, pushed), now, localNow) == done)))
  {
  }

  lemma IdleStays(s: State, ov: Option<TopicOverride>, localNow: int)
    requires s.calls == [Idle]
    ensures Step(s, Database(0, ov)) == s && Step(s, Resume(0, localNow)) == s
  {
    assert s.calls[0 := Idle] == s.calls;
  }

  /** From the answer of the dedupe query to the end of the call. */
  lemma AloneFromSeen(s: State, q: Request, pushed: nat)
    requires s.now == q.at && |s.calls| == 1 && s.calls[0].SeenAnswer? && s.calls[0].job == q.job
    requires pushed == Count(s.log, PushSince(StartOfDay(q.at)))
    ensures var v := Decide(s.calls[0].seen, pushed, q.job, q.ov, q.at, q.localNow);
      var a := Step(Step(s, Resume(0, q.localNow)), Database(0, q.ov));
      var b := Step(Step(a, Resume(0, q.localNow)), Database(0, None));
      Step(Step(b, Resume(0, q.localNow)), Database(0, None))
        == s.(log := s.log + [Row(q.job.candidate.key, v.delivery, v.reason, q.at)], calls := [Idle])
  {
    PathOfDecide(q.job, s.calls[0].seen, pushed, q.ov, q.at, q.localNow);
    var a := Step(Step(s, Resume(0, q.localNow)), Database(0, q.ov));
    var b := Step(Step(a, Resume(0, q.localNow)), Database(0, None));
    if a.calls == [Idle] { IdleStays(a, None, q.localNow); }
    if b.calls == [Idle] { IdleStays(b, None, q.localNow); }
  }

  lemma AloneToSeen(s: State, q: Request)
    requires s.calls == [Idle] && q.at >= s.now && q.job.settings.maxPerDay == s.cap
    ensures Step(Step(Step(s, ClockMoves(q.at)), Begin(0, q.job)), Database(0, None))
         == s.(now := q.at, calls := [SeenAnswer(q.job, Seen(s.log, q.job.candidate.key, Cutoff(q.at)))])
  {
    var t := Step(Step(s, ClockMoves(q.at)), Begin(0, q.job));
    assert t == s.(now := q.at, calls := [AskingSeen(q.job, Cutoff(q.at))]);
  }

  /** An uninterrupted call is one particular interleaving. */
  lemma AloneIsRouted(s: State, q: Request)
    requires s.calls == [Idle] && q.at >= s.now && q.job.settings.maxPerDay == s.cap
    ensures Run(s, AloneSteps(q)) == s.(now := q.at, log := s.log + [Routed(s.log, q.job, q.ov, q.at, q.localNow)])
  {
    hide Step, Run, Seen, Count, Decide;
    var es := [ClockMoves(q.at), Begin(0, q.job), Database(0, None), Resume(0, q.localNow)];
    var fs := [Database(0, q.ov), Resume(0, q.localNow), Database(0, None), Resume(0, q.localNow)];
    RunFour(s, es[0], es[1], es[2], es[3]);
    AloneToSeen(s, q);
    var t := s.(now := q.at, calls := [SeenAnswer(q.job, Seen(s.log, q.job.candidate.key, Cutoff(q.at)))]);
    AloneFromSeen(t, q, Count(s.log, PushSince(StartOfDay(q.at))));
    RunFour(Step(t, es[3]), fs[0], fs[1], fs[2], fs[3]);
    RunSplit(s, es, fs);
    Snoc(s, es + fs, Database(0, None));
    assert (es + fs) + [Database(0, None)] == AloneSteps(q);
  }

  lemma {:induction false} SerialIsRun(now: Instant, cap: int, reqs: seq<Request>) returns (es: seq<Event>)
    requires Ordered(now, cap, reqs)
    ensures Run(Initial(now, cap, 1), es) == State(LastClock(now, reqs), cap, SerialLog(reqs), [Idle])
  {
    if reqs == [] {
      es := [];
      assert seq(1, _ => Idle) == [Idle];
    } else {
      var q := reqs[|reqs| - 1];
      es := SerialIsRun(now, cap, reqs[..|reqs| - 1]);
      var s := Run(Initial(now, cap, 1), es);
      assert q.at >= s.now;
      AloneIsRouted(s, q);
      RunSplit(Initial(now, cap, 1), es, AloneSteps(q));
      es := es + AloneSteps(q);
    }
  }

  /** Serial calls: never more pushes a day than the cap, and never two non-silent rows with one key within 24 hours. */
  lemma SerialBounds(now: Instant, cap: int, reqs: seq<Request>)
    requires MIN_INSTANT + DAY <= now && Ordered(now, cap, reqs)
    ensures forall day :: Count(SerialLog(reqs), PushedOn(day)) <= if cap <= 0 then 0 else cap
    ensures forall key, from :: Count(SerialLog(reqs), FiredIn(key, from)) <= 1
  {
    var es := SerialIsRun(now, cap, reqs);
    forall day ensures Count(SerialLog(reqs), PushedOn(day)) <= if cap <= 0 then 0 else cap {
      DailyCap(now, cap, 1, es, day);
    }
    forall key, from ensures Count(SerialLog(reqs), FiredIn(key, from)) <= 1 {
      DedupeWindow(now, cap, 1, es, key, from);
    }
  }

  /** Row by row: of two serial calls whose rows are non-silent and have one key, the later one is more
      than 24 hours after the earlier one. */
  lemma {:induction false} SerialGaps(now: Instant, cap: int, reqs: seq<Request>, i: nat, j: nat)
    requires MIN_INSTANT + DAY <= now && Ordered(now, cap, reqs) && i < j < |reqs|
    ensures var first, second := SerialLog(reqs)[i], SerialLog(reqs)[j];
      first.at == reqs[i].at && second.at == reqs[j].at &&
      (first.key == second.key && first.delivery != Silent && second.delivery != Silent ==>
         reqs[j].at > reqs[i].at + DAY)
  {
    var log := SerialLog(reqs);
    SerialRow(reqs, i);
    SerialRow(reqs, j);
    SerialBounds(now, cap, reqs);
    hide SerialLog;
    var fired := FiredIn(log[i].key, log[i].at);
    assert Count(log, fired) <= 1;
    if fired(log[i]) && fired(log[j]) { CountTwo(log, i, j, fired); }
  }

  lemma {:induction false} SerialRow(reqs: seq<Request>, i: nat)
    requires i < |reqs|
    ensures SerialLog(reqs)[i].at == reqs[i].at
  {
    hide Routed;
    var n := |reqs| - 1;
    if i < n { SerialRow(reqs[..n], i); } else { RoutedAt(SerialLog(reqs[..n]), reqs[n]); }
  }

  lemma RoutedAt(log: seq<Row>, q: Request)
    ensures Routed(log, q.job, q.ov, q.at, q.localNow).at == q.at
  {
    hide Decide, Seen, Count;
  }

  /** A call that fails ends there: it writes nothing, and all others are as they were. */
  lemma FailedCallEnds(s: State, i: nat, job: Job)
    requires i < |s.calls| && job.settings.maxPerDay == s.cap
    ensures var t := Step(s, Fails(i));
      t.log == s.log && t.now == s.now && t.calls == s.calls[i := Idle] &&
      Step(t, Begin(i, job)).calls[i] != Idle
  {
  }
}

/** core/intelligence/daemon.py: backoff, due times, and the polls of one source over a run. */
module Daemon {
  import opened Wrappers
  import opened Sources
  import Tally

  const SECOND := 1_000_000
  const CAP := 6 * 3600

  function Min(a: int, b: int): int { if a <= b then a else b }

  function Pow2(n: nat): (p: nat)
    ensures p >= 1
  {
    if n == 0 then 1 else 2 * Pow2(n - 1)
  }

  /** The effective interval in seconds. */
  function Interval(poll: nat, failures: nat, threshold: nat): int {
    var excess := failures - threshold + 1;
    if excess > 0 then Min(poll * Pow2(excess), CAP) else poll
  }

  predicate IsDue(s: Source, threshold: nat, now: int) {
    !s.manual && (s.mute.None? || s.mute.value <= now) &&
    (s.last.None? || now >= s.last.value + Interval(s.poll, s.failures, threshold) * SECOND)
  }

  lemma {:induction false} Pow2Grows(m: nat, n: nat)
    requires m <= n
    ensures Pow2(m) <= Pow2(n)
  {
    if m < n { Pow2Grows(m, n - 1); }
  }

  lemma MulGrows(k: nat, a: nat, b: nat)
    requires a <= b
    ensures k * a <= k * b
  {
  }

  /** However long the source has been failing, it is not polled faster than the six-hour cap or its
      own interval, whichever is shorter. */
  lemma IntervalFloor(poll: nat, failures: nat, threshold: nat)
    ensures Interval(poll, failures, threshold) >= Min(poll, CAP)
  {
    var excess := failures - threshold + 1;
    if excess > 0 { MulGrows(poll, 1, Pow2(excess)); }
  }

  /** From the threshold on every further failure doubles the interval, up to the cap. */
  lemma BackoffDoubles(poll: nat, failures: nat, threshold: nat)
    requires threshold >= 1 && failures >= threshold
    ensures Interval(poll, failures + 1, threshold) == Min(2 * Interval(poll, failures, threshold), CAP)
    ensures Interval(poll, threshold, threshold) == Min(2 * poll, CAP) &&
        Interval(poll, threshold - 1, threshold) == poll
  {
    var e := failures - threshold + 1;
    assert poll * Pow2(e + 1) == 2 * (poll * Pow2(e));
    assert Pow2(1) == 2 * Pow2(0) && Pow2(0) == 1;
  }

  /** No backoff makes a source wait longer than six hours, or its own interval if that is longer:
      from then on it is due whenever it is not muted. */
  lemma DueAfterCeiling(s: Source, threshold: nat, now: int)
    requires !s.manual && (s.mute.None? || s.mute.value <= now)
    requires s.last.Some? ==> now >= s.last.value + (if s.poll > CAP then s.poll else CAP) * SECOND
    ensures IsDue(s, threshold, now)
  {
  }

  /** When a source is due, written out: it is not curated by hand, not muted, and never checked or
      checked at least its effective interval ago. */
  lemma IsDueIff(s: Source, threshold: nat, now: int)
    ensures IsDue(s, threshold, now) <==>
      !s.manual && (s.mute.None? || s.mute.value <= now) &&
      (s.last.None? || now - s.last.value >= 1_000_000 * Interval(s.poll, s.failures, threshold))
  {
  }

  /** Failing more never shortens the interval, exactly for sources polled at least every six hours:
      above that the cap makes a failing source poll faster than a healthy one. */
  lemma BackoffMonotoneIff(poll: nat, threshold: nat)
    requires threshold >= 1
    ensures (forall f: nat, g: nat :: f <= g ==> Interval(poll, f, threshold) <= Interval(poll, g, threshold)) <==>
        poll <= CAP
  {
    if poll <= CAP {
      forall f: nat, g: nat | f <= g ensures Interval(poll, f, threshold) <= Interval(poll, g, threshold) {
        IntervalFloor(poll, g, threshold);
        if f - threshold + 1 > 0 {
          Pow2Grows(f - threshold + 1, g - threshold + 1);
          MulGrows(poll, Pow2(f - threshold + 1), Pow2(g - threshold + 1));
        }
      }
    } else {
      var f := threshold - 1;
      assert Interval(poll, f, threshold) == poll;
      MulGrows(poll, 1, Pow2(1));
      assert Interval(poll, f + 1, threshold) == CAP;
    }
  }

  // ---- Runs ----

  /** `queued`: found due, waiting for the semaphore; `fetching`: the fetch has begun.
      `log` holds the outcomes recorded so far, `polls` when the daemon's fetches began. */
  datatype Phase = Idle | Queued | Fetching

  datatype State = State(src: Source, phase: Phase, now: int, polls: seq<int>, log: seq<Outcome>)

  datatype Event =
    | Wait(d: nat)
    | Tick                       // `_tick_once` looks at the source
    | Begin                      // the semaphore is granted
    | Finish(o: Outcome)         // run_source records the outcome
    | Lost                       // the daemon dies, or that write fails
    | Refresh(o: Outcome)        // the refresh endpoint ran the source
    | Edit(poll: Option<int>, mute: Option<int>, enabled: bool)

  function Step(s: State, e: Event, threshold: nat): State {
    match e
    case Wait(d) => s.(now := s.now + d)
    case Tick => if s.phase.Idle? && s.src.enabled && IsDue(s.src, threshold, s.now) then s.(phase := Queued) else s
    case Begin => if s.phase.Queued? then s.(phase := Fetching, polls := s.polls + [s.now]) else s
    case Finish(o) =>
      if s.phase.Fetching? then s.(phase := Idle, src := Recorded(s.src, o, s.now), log := s.log + [o]) else s
    case Lost => s.(phase := Idle)
    case Refresh(o) => s.(src := Recorded(s.src, o, s.now), log := s.log + [o])
    case Edit(poll, mute, enabled) => s.(src := Edited(s.src, poll, mute, enabled))
  }

  function Run(s: State, es: seq<Event>, threshold: nat): State {
    if es == [] then s else Step(Run(s, es[..|es| - 1], threshold), es[|es| - 1], threshold)
  }

  /** A source that is disabled, muted, curated by hand or checked too recently is not queued, one that is
      due is, and only a queued source is fetched. */
  lemma QueuedIff(s: State, threshold: nat)
    requires s.phase.Idle?
    ensures Step(s, Tick, threshold).phase.Queued? <==> s.src.enabled && IsDue(s.src, threshold, s.now)
    ensures !Step(s, Tick, threshold).phase.Queued? ==> Step(s, Tick, threshold) == s
    ensures Step(s, Begin, threshold) == s && Step(Step(s, Tick, threshold), Begin, threshold).polls
         == if s.src.enabled && IsDue(s.src, threshold, s.now) then s.polls + [s.now] else s.polls
  {
  }

  /** Errors since the last fetch that worked. */
  function ErrorStreak(log: seq<Outcome>): nat {
    if log == [] then 0
    else
      var before := ErrorStreak(log[..|log| - 1]);
      match log[|log| - 1] case Worked => 0 case NotImplemented => before case Errored => before + 1
  }

  lemma StreakSnoc(log: seq<Outcome>, o: Outcome)
    ensures ErrorStreak(log + [o]) ==
        match o case Worked => 0 case NotImplemented => ErrorStreak(log) case Errored => ErrorStreak(log) + 1
  {
    assert (log + [o])[..|log|] == log;
  }

  lemma StepStreak(s: State, e: Event, threshold: nat)
    requires s.src.failures == ErrorStreak(s.log)
    ensures var t := Step(s, e, threshold); t.src.failures == ErrorStreak(t.log)
  {
    hide ErrorStreak, IsDue;
    if e.Finish? || e.Refresh? { StreakSnoc(s.log, e.o); }
  }

  /** The failure counter is the error streak, over runs of daemon polls and manual refreshes alike. */
  lemma {:induction false} FailuresAreStreak(s: State, es: seq<Event>, threshold: nat)
    requires s.src.failures == ErrorStreak(s.log)
    ensures Run(s, es, threshold).src.failures == ErrorStreak(Run(s, es, threshold).log)
  {
    hide Step;
    if es != [] {
      FailuresAreStreak(s, es[..|es| - 1], threshold);
      StepStreak(Run(s, es[..|es| - 1], threshold), es[|es| - 1], threshold);
    }
  }

  /** At least gap apart. */
  ghost predicate Spaced(ts: seq<int>, gap: int) {
    forall i :: 0 <= i && i + 1 < |ts| ==> ts[i] + gap <= ts[i + 1]
  }

  /** The next poll cannot begin before the last one's start plus the gap. */
  ghost predicate Holds(s: State, gap: nat) {
    Spaced(s.polls, gap * SECOND) && s.src.poll >= gap && (s.src.last.Some? ==> s.src.last.value <= s.now) &&
    (s.polls != [] ==>
       var p := s.polls[|s.polls| - 1];
       p <= s.now &&
       match s.phase
       case Idle => s.src.last.Some? && p <= s.src.last.value
       case Queued => p + gap * SECOND <= s.now
       case Fetching => true)
  }

  predicate Allowed(e: Event, gap: nat) { !e.Lost? && (e.Edit? && e.poll.Some? ==> e.poll.value >= gap) }

  lemma StepKeeps(s: State, e: Event, threshold: nat, gap: nat)
    requires Holds(s, gap) && gap <= CAP && Allowed(e, gap)
    ensures Holds(Step(s, e, threshold), gap)
  {
    if e.Tick? { IntervalFloor(s.src.poll, s.src.failures, threshold); }
  }

  lemma {:induction false} RunKeeps(s: State, es: seq<Event>, threshold: nat, gap: nat)
    requires Holds(s, gap) && gap <= CAP && forall i :: 0 <= i < |es| ==> Allowed(es[i], gap)
    ensures Holds(Run(s, es, threshold), gap)
  {
    if es != [] {
      RunKeeps(s, es[..|es| - 1], threshold, gap);
      StepKeeps(Run(s, es[..|es| - 1], threshold), es[|es| - 1], threshold, gap);
    }
  }

  function Within(a: int, b: int): int -> bool { t => a <= t <= b }

  lemma {:induction false} SpacedBefore(ts: seq<int>, gap: nat, i: nat)
    requires Spaced(ts, gap) && i + 1 < |ts|
    ensures ts[i] + gap <= ts[|ts| - 1]
    decreases |ts| - i
  {
    if i + 2 < |ts| { SpacedBefore(ts, gap, i + 1); }
  }

  /** How many instants a gap apart fit into d microseconds. */
  function Slots(d: nat, gap: nat): (n: nat)
    requires gap > 0
    ensures n >= 1
  {
    d / gap + 1
  }

  lemma SlotsStep(x: nat, y: nat, gap: nat)
    requires gap > 0 && x + gap <= y
    ensures Slots(y, gap) >= Slots(x, gap) + 1
  {
    var q, k := x / gap, y / gap;
    assert gap * q <= x && y < gap * (k + 1);
    if k + 1 <= q + 1 { MulGrows(gap, k + 1, q + 1); }
  }

  lemma {:induction false} SpacedCount(ts: seq<int>, gap: nat, a: int, b: int)
    requires Spaced(ts, gap) && gap > 0 && a <= b
    ensures Tally.Count(ts, Within(a, b)) <= Slots(b - a, gap)
  {
    hide Slots;
    if ts != [] {
      var n := |ts| - 1;
      var head := ts[..n];
      assert Spaced(head, gap);
      assert Tally.Count(ts, Within(a, b)) <= Tally.Count(head, Within(a, b)) + 1;
      if !(a <= ts[n] <= b) {
        SpacedCount(head, gap, a, b);
      } else {
        var c := ts[n] - gap;
        forall i: nat | i < n ensures head[i] <= c { SpacedBefore(ts, gap, i); }
        Tally.CountWeaker(head, Within(a, b), Within(a, c));
        if a <= c {
          SpacedCount(head, gap, a, c);
          SlotsStep(c - a, b - a, gap);
        } else {
          Tally.CountNone(head, Within(a, c));
        }
      }
    }
  }

  /** Any window of `span` microseconds holds at most span div gap + 1 daemon polls of a source whose interval
      was never below gap seconds, for gap up to the cap: whatever it fails with, however often it is
      refreshed, muted or edited. */
  lemma PollRate(src: Source, now: int, es: seq<Event>, threshold: nat, gap: nat, a: int, span: nat)
    requires 0 < gap <= CAP && src.poll >= gap && (src.last.Some? ==> src.last.value <= now)
    requires forall i :: 0 <= i < |es| ==> Allowed(es[i], gap)
    ensures Tally.Count(Run(State(src, Idle, now, [], []), es, threshold).polls,
        Within(a, a + span)) <= span / (gap * SECOND) + 1
  {
    var s := State(src, Idle, now, [], []);
    RunKeeps(s, es, threshold, gap);
    SpacedCount(Run(s, es, threshold).polls, gap * SECOND, a, a + span);
    assert Slots(span, gap * SECOND) == span / (gap * SECOND) + 1;
  }

  /** The bound needs the outcome to be recorded: a poll whose bookkeeping is lost is repeated at the
      next tick. */
  lemma LostOutcomePollsAgain(src: Source, now: int, threshold: nat)
    requires src.enabled && IsDue(src, threshold, now)
    ensures Run(State(src, Idle, now, [], []), [Tick, Begin, Lost, Tick, Begin], threshold).polls == [now, now]
  {
    var s := State(src, Idle, now, [], []);
    assert Run(s, [], threshold) == s;
    hide Run, IsDue;
    RunSnoc(s, [], Tick, threshold);
    RunSnoc(s, [] + [Tick], Begin, threshold);
    RunSnoc(s, [] + [Tick] + [Begin], Lost, threshold);
    RunSnoc(s, [] + [Tick] + [Begin] + [Lost], Tick, threshold);
    RunSnoc(s, [] + [Tick] + [Begin] + [Lost] + [Tick], Begin, threshold);
    assert [] + [Tick] + [Begin] + [Lost] + [Tick] + [Begin] == [Tick, Begin, Lost, Tick, Begin];
    assert [now] + [now] == [now, now];
  }

  /** A due source is polled, and whatever the outcome it is polled again exactly when its interval,
      with the failures counted until then, has passed since. */
  lemma PollsOnSchedule(src: Source, now: int, o: Outcome, d: nat, threshold: nat)
    requires src.enabled && IsDue(src, threshold, now)
    ensures var failures := if o == Worked then 0 else if o == Errored then src.failures + 1 else src.failures;
      var t := Run(State(src, Idle, now, [], []), [Tick, Begin, Finish(o), Wait(d), Tick, Begin], threshold);
      t.polls == (if d >= 1_000_000 * Interval(src.poll, failures, threshold) then [now, now + d] else [now]) &&
      t.log == [o] && t.now == now + d
  {
    hide Run, Interval, IsDue;
    FirstPoll(src, now, o, threshold);
    var s, es := State(src, Idle, now, [], []), [] + [Tick] + [Begin] + [Finish(o)];
    IsDueIff(Recorded(src, o, now), threshold, now + d);
    RunSnoc(s, es, Wait(d), threshold);
    RunSnoc(s, es + [Wait(d)], Tick, threshold);
    RunSnoc(s, es + [Wait(d)] + [Tick], Begin, threshold);
    assert es + [Wait(d)] + [Tick] + [Begin] == [Tick, Begin, Finish(o), Wait(d), Tick, Begin];
    assert [now] + [now + d] == [now, now + d];
  }

  lemma FirstPoll(src: Source, now: int, o: Outcome, threshold: nat)
    requires src.enabled && IsDue(src, threshold, now)
    ensures Run(State(src, Idle, now, [], []), [] + [Tick] + [Begin] + [Finish(o)], threshold)
         == State(Recorded(src, o, now), Idle, now, [now], [o])
    ensures src.mute.Some? ==> src.mute.value <= now
    ensures !src.manual
  {
    var s := State(src, Idle, now, [], []);
    assert Run(s, [], threshold) == s;
    hide Run, Interval;
    RunSnoc(s, [], Tick, threshold);
    RunSnoc(s, [] + [Tick], Begin, threshold);
    RunSnoc(s, [] + [Tick] + [Begin], Finish(o), threshold);
    assert [] + [now] == [now] && [] + [o] == [o];
  }

  lemma RunSnoc(s: State, es: seq<Event>, e: Event, threshold: nat)
    ensures Run(s, es + [e], threshold) == Step(Run(s, es, threshold), e, threshold)
  {
    assert (es + [e])[..|es|] == es;
  }
}

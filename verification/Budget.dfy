/** core/governor/budget.py: the daily cap as plans meet it. A plan is checked once, before it starts,
    and then records any number of calls. Amounts are micro-dollars. */
module Budget {
  import opened Clock
  import opened Tally

  /** A cost row; `gated` when a checked plan spent it. */
  datatype Charge = Charge(usd: nat, at: Instant, gated: bool)

  /** `SUM(usd) ... WHERE occurred_at >= ?`: a comparison of texts. */
  function SinceText(start: string): Charge -> int { (c: Charge) => if AtOrAfter(Stamp(c.at), start) then c.usd else 0 }

  function OnDay(day: int): Charge -> int { (c: Charge) => if DayOf(c.at) == day then c.usd else 0 }

  function LooseOn(day: int): Charge -> int { (c: Charge) => if DayOf(c.at) == day && !c.gated then c.usd else 0 }

  function Today(log: seq<Charge>, now: Instant): int { Sum(log, SinceText(Iso(Midnight(Utc(now))))) }

  /** With no row dated after today, the query is today's spend. */
  lemma TodayIsToday(log: seq<Charge>, now: Instant)
    requires forall i :: 0 <= i < |log| ==> DayOf(log[i].at) <= DayOf(now)
    ensures Today(log, now) == Sum(log, OnDay(DayOf(now)))
  {
    var w := SinceText(Iso(Midnight(Utc(now))));
    forall i | 0 <= i < |log| ensures w(log[i]) == OnDay(DayOf(now))(log[i]) { SinceMidnight(log[i].at, now); }
    SumWeaker(log, w, OnDay(DayOf(now)));
    SumWeaker(log, OnDay(DayOf(now)), w);
  }

  /** `check`; a cap of zero or less means unlimited. */
  predicate Passes(cap: int, spent: int) { cap <= 0 || spent < cap }

  class DailyBudget {
    var log: seq<Charge>
    const cap: int

    constructor (log: seq<Charge>, cap: int)
      ensures this.log == log && this.cap == cap
    {
      this.log, this.cap := log, cap;
    }

    method Check(now: Instant) returns (ok: bool)
      ensures cap <= 0 ==> ok && forall spent :: Passes(cap, spent)
      ensures cap > 0 ==> forall spent :: Passes(cap, spent) <==> spent < cap
      ensures cap > 0 && (forall i :: 0 <= i < |log| ==> DayOf(log[i].at) <= DayOf(now)) ==>
          (ok <==> Sum(log, OnDay(DayOf(now))) < cap)
    {
      if cap <= 0 { return true; }
      ok := Today(log, now) < cap;
      if forall i :: 0 <= i < |log| ==> DayOf(log[i].at) <= DayOf(now) { TodayIsToday(log, now); }
    }
  }

  // ---- Runs ----

  /** One of the places a plan can be in between its check and its end, waiting for the orchestrator's
      lock or running; `spent` is what it has recorded so far. */
  datatype Slot = Free | Admitted(spent: nat)

  datatype State = State(now: Instant, log: seq<Charge>, slots: seq<Slot>)

  datatype Event =
    | Advance(now: Instant)
    | Start(slot: nat)
    | Spend(slot: nat, usd: nat)
    | Finish(slot: nat)
    | Ungated(usd: nat)    // an embedding, or a tool calling the API itself

  /** No plan spends more than `most`. */
  function Step(s: State, e: Event, cap: int, most: nat): State {
    match e
    case Advance(now) => if now >= s.now then s.(now := now) else s
    case Start(k) =>
      if k < |s.slots| && s.slots[k].Free? && Passes(cap, Today(s.log, s.now)) then
        s.(slots := s.slots[k := Admitted(0)])
      else s
    case Spend(k, usd) =>
      if k < |s.slots| && s.slots[k].Admitted? && s.slots[k].spent + usd <= most then
        s.(log := s.log + [Charge(usd, s.now, true)], slots := s.slots[k := Admitted(s.slots[k].spent + usd)])
      else s
    case Finish(k) => if k < |s.slots| then s.(slots := s.slots[k := Free]) else s
    case Ungated(usd) => s.(log := s.log + [Charge(usd, s.now, false)])
  }

  function Run(s: State, es: seq<Event>, cap: int, most: nat): State {
    if es == [] then s else Step(Run(s, es[..|es| - 1], cap, most), es[|es| - 1], cap, most)
  }

  /** What an admitted plan may still record. */
  function Left(most: nat): Slot -> int { (x: Slot) => if x.Admitted? then most - x.spent else 0 }

  ghost predicate Sane(s: State, most: nat) {
    (forall i :: 0 <= i < |s.log| ==> s.log[i].at <= s.now) &&
    (forall k :: 0 <= k < |s.slots| && s.slots[k].Admitted? ==> s.slots[k].spent <= most)
  }

  /** Day by day: what is recorded, plus today what may still be, stays below the limit. */
  ghost predicate Bounded(s: State, cap: int, most: nat, day: int) {
    Sum(s.log, OnDay(day)) + (if day >= DayOf(s.now) then Sum(s.slots, Left(most)) else 0)
      < cap + |s.slots| * most + Sum(s.log, LooseOn(day))
  }

  lemma {:induction false} LeftBound(slots: seq<Slot>, most: nat)
    requires forall k :: 0 <= k < |slots| && slots[k].Admitted? ==> slots[k].spent <= most
    ensures 0 <= Sum(slots, Left(most)) <= |slots| * most
  {
    if slots != [] {
      LeftBound(slots[..|slots| - 1], most);
      assert |slots| * most == (|slots| - 1) * most + most;
    }
  }

  lemma DaysGrow(a: Instant, b: Instant)
    requires a <= b
    ensures DayOf(a) <= DayOf(b)
  {
    DayCut(b, DayOf(a));
    DayCut(a, DayOf(a));
  }

  lemma StepSane(s: State, e: Event, cap: int, most: nat)
    requires Sane(s, most)
    ensures Sane(Step(s, e, cap, most), most) && |Step(s, e, cap, most).slots| == |s.slots|
  {
    hide Today;
  }

  lemma {:induction false} LooseNonNegative(log: seq<Charge>, day: int)
    ensures Sum(log, LooseOn(day)) >= 0
  {
    if log != [] { LooseNonNegative(log[..|log| - 1], day); }
  }

  lemma {:induction false} FutureIsEmpty(log: seq<Charge>, day: int, today: int)
    requires day > today && forall i :: 0 <= i < |log| ==> DayOf(log[i].at) <= today
    ensures Sum(log, OnDay(day)) == 0
  {
    if log != [] { FutureIsEmpty(log[..|log| - 1], day, today); }
  }

  /** A passed check resets the account: less than the cap is spent, and each slot has its full allowance. */
  lemma StartBounded(s: State, k: nat, cap: int, most: nat, day: int)
    requires Sane(s, most) && Bounded(s, cap, most, day) && cap > 0
    requires k < |s.slots| && s.slots[k].Free? && Passes(cap, Today(s.log, s.now))
    ensures Bounded(s.(slots := s.slots[k := Admitted(0)]), cap, most, day)
  {
    var t := s.(slots := s.slots[k := Admitted(0)]);
    hide Today, Sum, Passes, DayOf;
    LeftBound(t.slots, most);
    LooseNonNegative(s.log, day);
    if day >= DayOf(s.now) { SpentBelowCap(s, cap, most, day); }
    assert |t.slots| == |s.slots|;
  }

  lemma SpentBelowCap(s: State, cap: int, most: nat, day: int)
    requires Sane(s, most) && cap > 0 && Passes(cap, Today(s.log, s.now)) && day >= DayOf(s.now)
    ensures Sum(s.log, OnDay(day)) < cap
  {
    hide Today, Sum, DayOf;
    AllByToday(s, most);
    TodayIsToday(s.log, s.now);
    if day > DayOf(s.now) { FutureIsEmpty(s.log, day, DayOf(s.now)); }
  }

  lemma AllByToday(s: State, most: nat)
    requires Sane(s, most)
    ensures forall i :: 0 <= i < |s.log| ==> DayOf(s.log[i].at) <= DayOf(s.now)
  {
    hide DayOf;
    forall i | 0 <= i < |s.log| ensures DayOf(s.log[i].at) <= DayOf(s.now) { DaysGrow(s.log[i].at, s.now); }
  }

  lemma SpendBounded(s: State, k: nat, usd: nat, cap: int, most: nat, day: int)
    requires Sane(s, most) && Bounded(s, cap, most, day)
    requires k < |s.slots| && s.slots[k].Admitted? && s.slots[k].spent + usd <= most
    ensures Bounded(Step(s, Spend(k, usd), cap, most), cap, most, day)
  {
    hide Sum;
    SumAppend(s.log, Charge(usd, s.now, true), OnDay(day));
    SumAppend(s.log, Charge(usd, s.now, true), LooseOn(day));
    SumUpdate(s.slots, k, Admitted(s.slots[k].spent + usd), Left(most));
  }

  lemma FinishBounded(s: State, k: nat, cap: int, most: nat, day: int)
    requires Sane(s, most) && Bounded(s, cap, most, day) && k < |s.slots|
    ensures Bounded(s.(slots := s.slots[k := Free]), cap, most, day)
  {
    hide Sum;
    SumUpdate(s.slots, k, Free, Left(most));
  }

  lemma UngatedBounded(s: State, usd: nat, cap: int, most: nat, day: int)
    requires Bounded(s, cap, most, day)
    ensures Bounded(s.(log := s.log + [Charge(usd, s.now, false)]), cap, most, day)
  {
    hide Sum;
    SumAppend(s.log, Charge(usd, s.now, false), OnDay(day));
    SumAppend(s.log, Charge(usd, s.now, false), LooseOn(day));
  }

  lemma AdvanceBounded(s: State, now: Instant, cap: int, most: nat, day: int)
    requires Sane(s, most) && Bounded(s, cap, most, day) && now >= s.now
    ensures Bounded(s.(now := now), cap, most, day)
  {
    DaysGrow(s.now, now);
    LeftBound(s.slots, most);
  }

  lemma StepBounded(s: State, e: Event, cap: int, most: nat, day: int)
    requires Sane(s, most) && Bounded(s, cap, most, day) && cap > 0
    ensures Bounded(Step(s, e, cap, most), cap, most, day)
  {
    hide Today, Bounded, Sane, Passes;
    if Step(s, e, cap, most) != s {
      match e
      case Advance(now) => AdvanceBounded(s, now, cap, most, day);
      case Start(k) => StartBounded(s, k, cap, most, day);
      case Spend(k, usd) => SpendBounded(s, k, usd, cap, most, day);
      case Finish(k) => FinishBounded(s, k, cap, most, day);
      case Ungated(usd) => UngatedBounded(s, usd, cap, most, day);
    }
  }

  lemma {:induction false} RunBounded(s: State, es: seq<Event>, cap: int, most: nat, day: int)
    requires Sane(s, most) && Bounded(s, cap, most, day) && cap > 0
    ensures var t := Run(s, es, cap, most); Sane(t, most) && Bounded(t, cap, most, day) && |t.slots| == |s.slots|
  {
    hide Step, Bounded, Sane;
    if es != [] {
      RunBounded(s, es[..|es| - 1], cap, most, day);
      StepSane(Run(s, es[..|es| - 1], cap, most), es[|es| - 1], cap, most);
      StepBounded(Run(s, es[..|es| - 1], cap, most), es[|es| - 1], cap, most, day);
    }
  }

  function Idle(k: nat): seq<Slot> { seq(k, _ => Free) }

  /** With at most k plans past their check and not yet ended, and no plan spending more than `most`,
      the gated spend of any UTC day stays below the cap plus k times that, ungated spend being on
      top. k counts the plans that wait for the orchestrator's lock, which is taken after the check. */
  lemma Overspend(now: Instant, es: seq<Event>, cap: int, most: nat, k: nat, day: int)
    requires cap > 0
    ensures var log := Run(State(now, [], Idle(k)), es, cap, most).log;
      Sum(log, OnDay(day)) < cap + k * most + Sum(log, LooseOn(day))
  {
    var s := State(now, [], Idle(k));
    LeftBound(s.slots, most);
    IdleLeft(k, most);
    RunBounded(s, es, cap, most, day);
    var t := Run(s, es, cap, most);
    LeftBound(t.slots, most);
  }

  lemma {:induction false} IdleLeft(k: nat, most: nat)
    ensures Sum(Idle(k), Left(most)) == 0
  {
    if k > 0 {
      assert Idle(k)[..k - 1] == Idle(k - 1);
      IdleLeft(k - 1, most);
    }
  }

  // ---- The bound is reached ----

  lemma RunSnoc(s: State, es: seq<Event>, e: Event, cap: int, most: nat)
    ensures Run(s, es + [e], cap, most) == Step(Run(s, es, cap, most), e, cap, most)
  {
    assert (es + [e])[..|es|] == es;
  }

  /** Everything was recorded now, by checked plans, and adds up to total. */
  ghost predicate Booked(s: State, total: nat) {
    (forall i :: 0 <= i < |s.log| ==> s.log[i].at == s.now && s.log[i].gated) &&
    Sum(s.log, OnDay(DayOf(s.now))) == total
  }

  lemma Admits(s: State, i: nat, total: nat, cap: int, most: nat)
    requires Booked(s, total) && total < cap && i < |s.slots| && s.slots[i].Free?
    ensures Step(s, Start(i), cap, most) == s.(slots := s.slots[i := Admitted(0)])
  {
    TodayIsToday(s.log, s.now);
  }

  lemma Books(s: State, i: nat, total: nat, usd: nat, cap: int, most: nat)
    requires Booked(s, total) && i < |s.slots| && s.slots[i].Admitted? && s.slots[i].spent + usd <= most
    ensures var t := Step(s, Spend(i, usd), cap, most);
      Booked(t, total + usd) && t.now == s.now && t.slots == s.slots[i := Admitted(s.slots[i].spent + usd)]
  {
    hide Sum, DayOf;
    SumAppend(s.log, Charge(usd, s.now, true), OnDay(DayOf(s.now)));
  }

  lemma {:induction false} BookedIsGated(log: seq<Charge>, day: int)
    requires forall i :: 0 <= i < |log| ==> log[i].gated
    ensures Sum(log, LooseOn(day)) == 0
  {
    if log != [] { BookedIsGated(log[..|log| - 1], day); }
  }

  /** Plans of one micro-dollar, one after another, fill the day up to the last one below the cap. */
  lemma {:induction false} FillDay(now: Instant, cap: int, most: nat, k: nat, n: nat) returns (es: seq<Event>)
    requires n < cap && most >= 1 && k >= 1
    ensures var t := Run(State(now, [], Idle(k)), es, cap, most); Booked(t, n) && t.now == now && t.slots == Idle(k)
  {
    var s := State(now, [], Idle(k));
    if n == 0 {
      es := [];
    } else {
      es := FillDay(now, cap, most, k, n - 1);
      hide Run, Step, Booked;
      var a := Run(s, es, cap, most);
      Admits(a, 0, n - 1, cap, most);
      RunSnoc(s, es, Start(0), cap, most);
      var b := Run(s, es + [Start(0)], cap, most);
      SameBooks(a, b, n - 1);
      Books(b, 0, n - 1, 1, cap, most);
      RunSnoc(s, es + [Start(0)], Spend(0, 1), cap, most);
      var c := Run(s, es + [Start(0)] + [Spend(0, 1)], cap, most);
      RunSnoc(s, es + [Start(0)] + [Spend(0, 1)], Finish(0), cap, most);
      es := es + [Start(0)] + [Spend(0, 1)] + [Finish(0)];
      Ends(c, 0, cap, most);
      SameBooks(c, Run(s, es, cap, most), n);
      assert Idle(k)[0 := Admitted(0)][0 := Admitted(1)][0 := Free] == Idle(k);
    }
  }

  lemma SameBooks(s: State, t: State, total: nat)
    requires Booked(s, total) && t.log == s.log && t.now == s.now
    ensures Booked(t, total)
  {
  }

  lemma Ends(s: State, i: nat, cap: int, most: nat)
    requires i < |s.slots|
    ensures Step(s, Finish(i), cap, most) == s.(slots := s.slots[i := Free])
  {
  }

  /** The first i slots have spent x, those up to j nothing yet, the others are free. */
  function Slots(k: nat, i: nat, j: nat, x: nat): seq<Slot> {
    seq(k, n => if n < i then Admitted(x) else if n < j then Admitted(0) else Free)
  }

  lemma {:induction false} AdmitAll(now: Instant, cap: int, most: nat, k: nat, j: nat) returns (es: seq<Event>)
    requires cap >= 1 && most >= 1 && k >= 1 && j <= k
    ensures var t := Run(State(now, [], Idle(k)), es, cap, most);
      Booked(t, cap - 1) && t.now == now && t.slots == Slots(k, 0, j, most)
  {
    var s := State(now, [], Idle(k));
    if j == 0 {
      es := FillDay(now, cap, most, k, cap - 1);
      assert Idle(k) == Slots(k, 0, 0, most);
    } else {
      es := AdmitAll(now, cap, most, k, j - 1);
      hide Run, Step, Booked;
      var a := Run(s, es, cap, most);
      Admits(a, j - 1, cap - 1, cap, most);
      RunSnoc(s, es, Start(j - 1), cap, most);
      es := es + [Start(j - 1)];
      SameBooks(a, Run(s, es, cap, most), cap - 1);
      assert Slots(k, 0, j - 1, most)[j - 1 := Admitted(0)] == Slots(k, 0, j, most);
    }
  }

  lemma SpendOne(s: State, k: nat, i: nat, total: nat, cap: int, most: nat)
    requires i < k && Booked(s, total) && s.slots == Slots(k, i, k, most)
    ensures var t := Step(s, Spend(i, most), cap, most);
      Booked(t, total + most) && t.now == s.now && t.slots == Slots(k, i + 1, k, most)
  {
    hide Booked, Step;
    Books(s, i, total, most, cap, most);
    assert Slots(k, i, k, most)[i := Admitted(most)] == Slots(k, i + 1, k, most);
  }

  lemma {:induction false} SpendAll(now: Instant, cap: int, most: nat, k: nat, i: nat) returns (es: seq<Event>)
    requires cap >= 1 && most >= 1 && k >= 1 && i <= k
    ensures var t := Run(State(now, [], Idle(k)), es, cap, most);
      Booked(t, cap - 1 + Cost(i, most)) && t.now == now && t.slots == Slots(k, i, k, most)
  {
    CostStep(if i == 0 then 1 else i, most);
    hide Run, Step, Booked, Cost, Slots, Idle;
    var s := State(now, [], Idle(k));
    if i == 0 {
      es := AdmitAll(now, cap, most, k, k);
    } else {
      var before := SpendAll(now, cap, most, k, i - 1);
      SpendOne(Run(s, before, cap, most), k, i - 1, cap - 1 + Cost(i - 1, most), cap, most);
      RunSnoc(s, before, Spend(i - 1, most), cap, most);
      es := before + [Spend(i - 1, most)];
    }
  }

  /** No smaller bound holds: k plans admitted one micro-dollar below the cap spend all they may. */
  lemma OverspendReached(now: Instant, cap: int, most: nat, k: nat)
    requires cap >= 1 && most >= 1 && k >= 1
    ensures exists es :: var log := Run(State(now, [], Idle(k)), es, cap, most).log;
      Sum(log, OnDay(DayOf(now))) == cap - 1 + k * most && Sum(log, LooseOn(DayOf(now))) == 0
  {
    var es := SpendAll(now, cap, most, k, k);
    BookedIsGated(Run(State(now, [], Idle(k)), es, cap, most).log, DayOf(now));
  }

  lemma FirstAdmitted(now: Instant, cap: int, most: nat)
    requires cap > 0
    ensures var t := Run(State(now, [], Idle(1)), [Start(0)], cap, most);
      t == State(now, [], [Admitted(0)]) && Booked(t, 0)
  {
    var s := State(now, [], Idle(1));
    assert Booked(s, 0) && Run(s, [], cap, most) == s;
    hide Run, Step, Booked;
    Admits(s, 0, 0, cap, most);
    RunSnoc(s, [], Start(0), cap, most);
    assert [] + [Start(0)] == [Start(0)];
    assert Idle(1)[0 := Admitted(0)] == [Admitted(0)];
    SameBooks(s, Run(s, [Start(0)], cap, most), 0);
  }

  function Calls(n: nat, usd: nat): seq<Event> { if n == 0 then [Start(0)] else Calls(n - 1, usd) + [Spend(0, usd)] }

  function Cost(n: nat, usd: nat): nat { n * usd }

  lemma CostStep(n: nat, usd: nat)
    requires n > 0
    ensures Cost(n, usd) == Cost(n - 1, usd) + usd && Cost(0, usd) == 0
  {
    assert n * usd == (n - 1) * usd + usd;
  }

  /** The cap is not looked at again while a plan runs: one plan can make n calls of any cost, so the
      overspend is not limited to the one call after which the cap was reached. */
  lemma {:induction false} CallsAreNotRechecked(now: Instant, n: nat, usd: nat, cap: int, most: nat)
    requires cap > 0 && Cost(n, usd) <= most
    ensures var t := Run(State(now, [], Idle(1)), Calls(n, usd), cap, most);
      t.slots == [Admitted(Cost(n, usd))] && t.now == now && Booked(t, Cost(n, usd))
  {
    hide Run, Step, Booked, Cost, Idle;
    if n == 0 {
      FirstAdmitted(now, cap, most);
      CostStep(1, usd);
    } else {
      CostStep(n, usd);
      assert [Admitted(Cost(n - 1, usd))][0 := Admitted(Cost(n, usd))] == [Admitted(Cost(n, usd))];
      CallsAreNotRechecked(now, n - 1, usd, cap, most);
      var s := State(now, [], Idle(1));
      RunSnoc(s, Calls(n - 1, usd), Spend(0, usd), cap, most);
      Books(Run(s, Calls(n - 1, usd), cap, most), 0, Cost(n - 1, usd), usd, cap, most);
    }
  }
}

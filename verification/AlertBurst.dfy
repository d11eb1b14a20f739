/** The bounds of AlertRuns are reached, for every cap and every number of overlapping calls. */
module AlertBurst {
  import opened Wrappers
  import opened Clock
  import opened Tally
  import opened AlertStore
  import opened AlertRouter
  import opened AlertRuns

  /** The j-th of a family of different dedupe keys. */
  function KeyOf(j: nat): Key { Given(seq(j, _ => 'k')) }

  const PushOverride := Some(TopicOverride(Push, None))

  function PushJob(cap: int, j: nat): Job {
    Job(Candidate(KeyOf(j), "t", None), Snapshot(true, false, cap, 0, None))
  }

  function Pushed(j: nat, now: Instant): Row { Row(KeyOf(j), Telegram, PushTopicOverride, now) }

  /** Slot i runs the j-th job up to its insert. */
  function StageSteps(i: nat, cap: int, j: nat): seq<Event> {
    [Begin(i, PushJob(cap, j)), Database(i, None), Resume(i, 0), Database(i, PushOverride)]
      + [Resume(i, 0), Database(i, None), Resume(i, 0)]
  }

  lemma StageToOverride(s: State, i: nat, j: nat)
    requires i < |s.calls| && s.calls[i] == Idle && !Seen(s.log, KeyOf(j), Cutoff(s.now))
    ensures Run(s, [Begin(i, PushJob(s.cap, j)), Database(i, None), Resume(i, 0), Database(i, PushOverride)])
         == s.(calls := s.calls[i := OverrideAnswer(PushJob(s.cap, j), PushOverride)])
  {
    hide Run, Seen;
    var job := PushJob(s.cap, j);
    RunFour(s, Begin(i, job), Database(i, None), Resume(i, 0), Database(i, PushOverride));
    var b := Step(Step(s, Begin(i, job)), Database(i, None));
    assert b == s.(calls := s.calls[i := SeenAnswer(job, false)]);
  }

  lemma StageToInsert(s: State, i: nat, j: nat)
    requires i < |s.calls| && s.calls[i] == OverrideAnswer(PushJob(s.cap, j), PushOverride)
    requires Count(s.log, PushSince(StartOfDay(s.now))) < s.cap
    ensures Run(s, [Resume(i, 0), Database(i, None), Resume(i, 0)]) ==
        s.(calls := s.calls[i := Inserting(Pushed(j, s.now))])
  {
    hide Run, Count;
    RunOne(s, Resume(i, 0));
    Snoc(s, [Resume(i, 0)], Database(i, None));
    Snoc(s, [Resume(i, 0), Database(i, None)], Resume(i, 0));
    assert [Resume(i, 0)] + [Database(i, None)] == [Resume(i, 0), Database(i, None)];
    assert [Resume(i, 0), Database(i, None)] + [Resume(i, 0)] == [Resume(i, 0), Database(i, None), Resume(i, 0)];
    var b := Step(Step(s, Resume(i, 0)), Database(i, None));
    assert b == s.(calls := s.calls[i := CountAnswer(PushJob(s.cap, j), Count(s.log, PushSince(StartOfDay(s.now))))]);
  }

  /** Fewer than cap pushes, all with keys before the j-th. */
  ghost predicate Open(s: State, j: nat) {
    |s.log| < s.cap && forall i :: 0 <= i < |s.log| ==> |s.log[i].key.text| < j
  }

  lemma StageOne(s: State, i: nat, j: nat)
    requires i < |s.calls| && s.calls[i] == Idle && Open(s, j)
    ensures Run(s, StageSteps(i, s.cap, j)) == s.(calls := s.calls[i := Inserting(Pushed(j, s.now))])
  {
    assert |KeyOf(j).text| == j;
    assert !Seen(s.log, KeyOf(j), Cutoff(s.now));
    CountBound(s.log, PushSince(StartOfDay(s.now)));
    hide Run, Seen, Count, Step;
    var job := PushJob(s.cap, j);
    StageToOverride(s, i, j);
    StageToInsert(s.(calls := s.calls[i := OverrideAnswer(job, PushOverride)]), i, j);
    RunSplit(s, [Begin(i, job), Database(i, None), Resume(i, 0), Database(i, PushOverride)],
             [Resume(i, 0), Database(i, None), Resume(i, 0)]);
  }

  lemma InsertOne(s: State, i: nat)
    requires i < |s.calls| && s.calls[i].Inserting?
    ensures Step(s, Database(i, None)) == s.(log := s.log + [s.calls[i].row], calls := s.calls[i := Idle])
  {
  }

  /** n pushes with the first n keys, and the slots from inserted to staged about to insert the next. */
  function Loaded(now: Instant, cap: int, k: nat, log: seq<Row>, row: Row, inserted: nat, staged: nat): State {
    State(now, cap, log, seq(k, j => if inserted <= j < staged then Inserting(row) else Idle))
  }

  function Pushes(n: nat, now: Instant): seq<Row> { seq(n, (j: nat) => Pushed(j, now)) }

  function Filled(now: Instant, cap: int, k: nat, n: nat): State { Initial(now, cap, k).(log := Pushes(n, now)) }

  lemma FillOne(now: Instant, cap: int, k: nat, n: nat)
    requires k >= 1 && n + 1 < cap
    ensures Run(Filled(now, cap, k, n), StageSteps(0, cap, n) + [Database(0, None)]) == Filled(now, cap, k, n + 1)
  {
    hide Run, Step, StageSteps;
    var s := Filled(now, cap, k, n);
    StageOne(s, 0, n);
    var staged := s.(calls := s.calls[0 := Inserting(Pushed(n, now))]);
    Snoc(s, StageSteps(0, cap, n), Database(0, None));
    InsertOne(staged, 0);
    assert Pushes(n + 1, now) == Pushes(n, now) + [Pushed(n, now)];
    assert staged.calls[0 := Idle] == s.calls;
  }

  /** Serial calls fill the day up to any number below the cap. */
  lemma {:induction false} FillDay(now: Instant, cap: int, k: nat, n: nat) returns (es: seq<Event>)
    requires k >= 1 && n < cap
    ensures Run(Initial(now, cap, k), es) == Filled(now, cap, k, n)
  {
    if n == 0 {
      es := [];
      assert Pushes(0, now) == [];
    } else {
      var before := FillDay(now, cap, k, n - 1);
      hide Run, Filled;
      FillOne(now, cap, k, n - 1);
      RunSplit(Initial(now, cap, k), before, StageSteps(0, cap, n - 1) + [Database(0, None)]);
      es := before + (StageSteps(0, cap, n - 1) + [Database(0, None)]);
    }
  }

  /** i overlapping calls for one candidate, all past their checks. */
  lemma {:induction false} StageAll(now: Instant, cap: int, k: nat, i: nat) returns (es: seq<Event>)
    requires k >= 1 && cap >= 1 && i <= k
    ensures Run(Initial(now, cap, k), es) == Loaded(now, cap, k, Pushes(cap - 1, now), Pushed(cap - 1, now), 0, i)
  {
    var log, row := Pushes(cap - 1, now), Pushed(cap - 1, now);
    if i == 0 {
      es := FillDay(now, cap, k, cap - 1);
      assert Initial(now, cap, k).calls == Loaded(now, cap, k, log, row, 0, 0).calls;
    } else {
      var before := StageAll(now, cap, k, i - 1);
      hide Run, StageSteps;
      var s := Loaded(now, cap, k, log, row, 0, i - 1);
      StageOne(s, i - 1, cap - 1);
      RunSplit(Initial(now, cap, k), before, StageSteps(i - 1, cap, cap - 1));
      es := before + StageSteps(i - 1, cap, cap - 1);
      assert s.calls[i - 1 := Inserting(row)] == Loaded(now, cap, k, log, row, 0, i).calls;
    }
  }

  lemma {:induction false} InsertAll(now: Instant, cap: int, k: nat, i: nat) returns (es: seq<Event>)
    requires k >= 1 && cap >= 1 && i <= k
    ensures var row := Pushed(cap - 1, now);
      Run(Initial(now, cap, k), es) == Loaded(now, cap, k, Pushes(cap - 1, now) + seq(i, _ => row), row, i, k)
  {
    var log, row := Pushes(cap - 1, now), Pushed(cap - 1, now);
    if i == 0 {
      es := StageAll(now, cap, k, k);
      assert log + seq(0, _ => row) == log;
    } else {
      var before := InsertAll(now, cap, k, i - 1);
      hide Run, Step;
      Snoc(Initial(now, cap, k), before, Database(i - 1, None));
      InsertOne(Loaded(now, cap, k, log + seq(i - 1, _ => row), row, i - 1, k), i - 1);
      es := before + [Database(i - 1, None)];
      assert log + seq(i, _ => row) == log + seq(i - 1, _ => row) + [row];
      assert Loaded(now, cap, k, [], row, i, k).calls == Loaded(now, cap, k, [], row, i - 1, k).calls[i - 1 := Idle];
    }
  }

  /** Both bounds are exact for every cap and k: after cap - 1 serial pushes, k overlapping calls for
      one more candidate make cap + k - 1 pushes that day, and k non-silent rows of one key. */
  lemma BurstReachesBounds(now: Instant, cap: int, k: nat)
    requires cap >= 1 && k >= 1
    ensures exists es :: var log := Run(Initial(now, cap, k), es).log;
      Count(log, PushedOn(DayOf(now))) == cap + k - 1 && Count(log, FiredIn(KeyOf(cap - 1), now)) == k
  {
    var es := InsertAll(now, cap, k, k);
    hide Run;
    var row := Pushed(cap - 1, now);
    var before, burst := Pushes(cap - 1, now), seq(k, _ => row);
    var fired := FiredIn(KeyOf(cap - 1), now);
    assert Run(Initial(now, cap, k), es).log == before + burst;
    CountAll(before + burst, PushedOn(DayOf(now)));
    CountConcat(before, burst, fired);
    forall i | 0 <= i < |before| ensures !fired(before[i]) {
      assert |before[i].key.text| == i && |KeyOf(cap - 1).text| == cap - 1;
    }
    CountNone(before, fired);
    CountAll(burst, fired);
  }
}

/** core/intelligence/brain_writer.py: which path a new note gets. `base` is the day folder and slug,
    `clock` the six digits of the wall-clock time. */
module BrainWriter {
  import opened FreshNames

  const LAST := 100

  function Path(base: string, n: nat): string { Numbered(base, ".md", n) }

  function Timed(base: string, clock: string): string { base + "-" + clock + ".md" }

  function NextFrom(taken: set<string>, base: string, clock: string, n: nat): string
    requires n <= LAST
    decreases LAST - n
  {
    if n == LAST then Timed(base, clock)
    else if Path(base, n) !in taken then Path(base, n)
    else NextFrom(taken, base, clock, n + 1)
  }

  function NextAvailable(taken: set<string>, base: string, clock: string): string {
    if Path(base, 0) !in taken then Path(base, 0) else NextFrom(taken, base, clock, 2)
  }

  /** All 99 numbered names are in use: the bare one and -2 to -99. */
  ghost predicate Crowded(taken: set<string>, base: string) {
    Path(base, 0) in taken && AllTaken(base, ".md", 2, LAST, taken)
  }

  /** p is the name with counter k, free, and the first free one from n on. */
  ghost predicate FirstFreeAt(taken: set<string>, base: string, n: nat, k: nat, p: string) {
    n <= k < LAST && p == Path(base, k) && p !in taken && AllTaken(base, ".md", n, k, taken)
  }

  lemma {:induction false} NextFromIs(taken: set<string>, base: string, clock: string, n: nat)
    requires n <= LAST
    ensures AllTaken(base, ".md", n, LAST, taken) ==> NextFrom(taken, base, clock, n) == Timed(base, clock)
    ensures !AllTaken(base, ".md", n, LAST, taken) ==>
              exists k: nat :: FirstFreeAt(taken, base, n, k, NextFrom(taken, base, clock, n))
    decreases LAST - n
  {
    hide Numbered, Timed;
    if n < LAST {
      if Path(base, n) in taken {
        NextFromIs(taken, base, clock, n + 1);
        if !AllTaken(base, ".md", n + 1, LAST, taken) {
          var k: nat :| FirstFreeAt(taken, base, n + 1, k, NextFrom(taken, base, clock, n + 1));
          assert FirstFreeAt(taken, base, n, k, NextFrom(taken, base, clock, n));
        }
      } else {
        assert FirstFreeAt(taken, base, n, n, NextFrom(taken, base, clock, n));
      }
    }
  }

  /** The names in the order they are tried: the bare one, then -2 up to -99, then the timed one. */
  lemma NextAvailableIs(taken: set<string>, base: string, clock: string)
    ensures base + ".md" !in taken ==> NextAvailable(taken, base, clock) == base + ".md"
    ensures base + ".md" in taken && !Crowded(taken, base) ==>
              exists k: nat :: 2 <= k < 100 && NextAvailable(taken, base, clock) == base + "-" + Dec(k) + ".md" &&
                               FirstFreeAt(taken, base, 2, k, NextAvailable(taken, base, clock))
    ensures Crowded(taken, base) ==> NextAvailable(taken, base, clock) == base + "-" + clock + ".md"
  {
    NextFromIs(taken, base, clock, 2);
    NumberedIs(base, ".md", 0);
    if base + ".md" in taken && !Crowded(taken, base) {
      var k: nat :| FirstFreeAt(taken, base, 2, k, NextFrom(taken, base, clock, 2));
      NumberedIs(base, ".md", k);
    }
  }

  /** The path names no existing file, so nothing is overwritten, exactly when one of the 99 numbered
      names or the timed one is free. */
  lemma NeverOverwritesIff(taken: set<string>, base: string, clock: string)
    ensures NextAvailable(taken, base, clock) !in taken <==> !Crowded(taken, base) || Timed(base, clock) !in taken
  {
    NextFromIs(taken, base, clock, 2);
  }

  /** Two notes with the same slug written in the same second over 99 earlier ones get one path: the
      second replaces the first. */
  lemma SameSecondOverwrites(taken: set<string>, base: string, clock: string)
    requires Crowded(taken, base)
    ensures var p := NextAvailable(taken, base, clock); NextAvailable(taken + {p}, base, clock) == p
  {
    NextFromIs(taken, base, clock, 2);
    NextFromIs(taken + {NextAvailable(taken, base, clock)}, base, clock, 2);
  }

  lemma DecShort(n: nat)
    requires n < LAST
    ensures |Dec(n)| <= 2
  {
  }

  lemma TimedIsNotNumbered(base: string, clock: string, n: nat)
    requires n < LAST && |clock| == 6
    ensures Path(base, n) != Timed(base, clock)
  {
    DecShort(n);
  }

  /** A vault of fewer than 100 notes is never overwritten. */
  lemma FewNotesNeverClash(taken: set<string>, base: string, clock: string)
    requires |taken| < 100 && |clock| == 6
    ensures NextAvailable(taken, base, clock) !in taken
  {
    NeverOverwritesIff(taken, base, clock);
    if Crowded(taken, base) && Timed(base, clock) in taken {
      var bare := Path(base, 0);
      var rest := taken - {bare, Timed(base, clock)};
      TimedIsNotNumbered(base, clock, 0);
      assert taken == rest + {bare, Timed(base, clock)} && |taken| == |rest| + 2;
      forall n: nat | 2 <= n < LAST ensures Numbered(base, ".md", n) in rest {
        TimedIsNotNumbered(base, clock, n);
        if Numbered(base, ".md", n) == bare { NumberedInjective(base, ".md", n, 0); }
      }
      TakenNames(base, ".md", 2, LAST, rest);
    }
  }

  /** `_next_available_path` */
  method NextAvailablePath(taken: set<string>, base: string, clock: string) returns (path: string)
    ensures path == NextAvailable(taken, base, clock)
  {
    path := Path(base, 0);
    if path !in taken { return; }
    for n := 2 to LAST
      invariant NextFrom(taken, base, clock, n) == NextFrom(taken, base, clock, 2)
    {
      path := Path(base, n);
      if path !in taken { return; }
    }
    path := Timed(base, clock);
  }
}

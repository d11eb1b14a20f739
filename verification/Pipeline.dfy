/** core/intelligence/pipeline.py: one refresh of a source, dry or live, over the item table and the
    vault. The keyword score is an arbitrary function of the item. */
module Pipeline {
  import opened Wrappers
  import opened Dedup
  import opened ItemStore
  import opened BrainWriter

  /** A vault file: one this pipeline wrote, or anything else. */
  datatype Note = Written(id: string, hash: TextDigest, score: int, body: string) | Elsewhere(text: string)

  /** What the surroundings decide for one item: which of the calls raise, whether a score or path
      update that raises was committed all the same, the new id, the note's day folder and slug, the
      wall clock. */
  datatype Env = Env(stores: bool, scores: bool, writes: bool, records: bool, landed: bool,
                     id: string, base: string, clock: string)

  datatype Mode = Mode(threshold: int, dry: bool, writer: bool)

  datatype Progress = Progress(rows: seq<Row>, notes: map<string, Note>, added: nat, dup: nat,
                               written: nat, would: nat, aborted: bool)

  type Scorer = Fetched -> int

  function ScoredRow(r: Row, score: int): Row {
    r.(score := Some(score), status := if score > 0 then Scored else Stored)
  }

  /** The loop body for one item. */
  function Item(a: Progress, f: Fetched, e: Env, m: Mode, score: Scorer): Progress {
    if a.aborted || !e.stores then a
    else if Existing(a.rows, f).Some? then a.(dup := a.dup + 1)
    else
      var scored := ScoredRow(NewRow(f, e.id), score(f));
      var row := if e.scores || e.landed then scored else NewRow(f, e.id);
      var b := a.(rows := a.rows + [row], added := a.added + 1, aborted := !e.scores);
      if !e.scores || score(f) < m.threshold then b
      else if m.dry then b.(would := b.would + 1)
      else if !m.writer || !e.writes then b
      else
        var p := NextAvailable(b.notes.Keys, e.base, e.clock);
        var c := b.(notes := b.notes[p := Written(e.id, row.hash, score(f), f.body)]);
        var linked := if e.records || e.landed then c.(rows := a.rows + [row.(brainPath := Some(p))]) else c;
        if e.records then linked.(written := c.written + 1) else linked
  }

  function Start(rows: seq<Row>, notes: map<string, Note>): Progress { Progress(rows, notes, 0, 0, 0, 0, false) }

  function Run(a: Progress, items: seq<Fetched>, envs: seq<Env>, m: Mode, score: Scorer): Progress
    requires |items| == |envs|
  {
    if items == [] then a
    else
      var n := |items| - 1;
      Item(Run(a, items[..n], envs[..n], m, score), items[n], envs[n], m, score)
  }

  /** What a new item leaves behind when nothing fails: its row with its score, and, in a live run from
      the threshold up, a note with its id, hash, score and body, to which the row points. */
  lemma ItemStores(a: Progress, f: Fetched, e: Env, m: Mode, score: Scorer)
    requires !a.aborted && e.stores && e.scores && e.writes && e.records && Existing(a.rows, f).None?
    ensures var b, p := Item(a, f, e, m, score), NextAvailable(a.notes.Keys, e.base, e.clock);
      var noted := score(f) >= m.threshold && !m.dry && m.writer;
      b.rows == a.rows + [Row(e.id, f.cu, HashOf(f), StoredTitle(f.title), if score(f) > 0 then Scored else Stored,
                              Some(score(f)), if noted then Some(p) else None)] &&
      b.notes == (if noted then a.notes[p := Written(e.id, HashOf(f), score(f), f.body)] else a.notes) &&
      b.added == a.added + 1 && b.dup == a.dup && b.written == a.written + (if noted then 1 else 0) &&
      b.would == a.would + (if score(f) >= m.threshold && m.dry then 1 else 0)
  {
    hide NextAvailable, HashOf, StoredTitle;
  }

  /** What it leaves when something fails: without a stored score the run ends there; without a note
      the row has no path; a note whose path was not recorded is there but not counted. */
  lemma ItemFails(a: Progress, f: Fetched, e: Env, m: Mode, score: Scorer)
    requires !a.aborted && e.stores && Existing(a.rows, f).None?
    ensures var b, p := Item(a, f, e, m, score), NextAvailable(a.notes.Keys, e.base, e.clock);
      var bare := NewRow(f, e.id);
      var scored := bare.(score := Some(score(f)), status := if score(f) > 0 then Scored else Stored);
      var live := score(f) >= m.threshold && !m.dry && m.writer;
      (!e.scores ==> b == a.(rows := a.rows + [if e.landed then scored else bare], added := a.added + 1,
                             aborted := true)) &&
      (e.scores && live && !e.writes ==> b == a.(rows := a.rows + [scored], added := a.added + 1)) &&
      (e.scores && live && e.writes && !e.records ==>
         b == a.(rows := a.rows + [if e.landed then scored.(brainPath := Some(p)) else scored],
                 notes := a.notes[p := Written(e.id, HashOf(f), score(f), f.body)], added := a.added + 1))
  {
    hide NextAvailable, HashOf, StoredTitle, Existing;
  }

  // ---- Counting ----

  function FailedUpserts(envs: seq<Env>): nat {
    if envs == [] then 0 else FailedUpserts(envs[..|envs| - 1]) + if envs[|envs| - 1].stores then 0 else 1
  }

  lemma ItemCounts(a: Progress, f: Fetched, e: Env, m: Mode, score: Scorer)
    ensures var b := Item(a, f, e, m, score);
      |b.rows| - |a.rows| == b.added - a.added && b.added - a.added >= b.written + b.would - a.written - a.would >= 0 &&
      (a.aborted ==> b.aborted) &&
      (!b.aborted ==> b.added + b.dup == a.added + a.dup + (if e.stores then 1 else 0))
  {
    hide NextAvailable, HashOf, Existing;
  }

  /** seen = new + duplicate + failed, and exactly the new ones became rows. */
  lemma {:induction false} CountsAddUp(rows: seq<Row>, notes: map<string, Note>, items: seq<Fetched>, envs: seq<Env>,
                                       m: Mode, score: Scorer)
    requires |items| == |envs|
    ensures var out := Run(Start(rows, notes), items, envs, m, score);
      |out.rows| == |rows| + out.added && out.written + out.would <= out.added &&
      (!out.aborted ==> |items| == out.added + out.dup + FailedUpserts(envs))
  {
    hide Item;
    if items != [] {
      var n := |items| - 1;
      CountsAddUp(rows, notes, items[..n], envs[..n], m, score);
      ItemCounts(Run(Start(rows, notes), items[..n], envs[..n], m, score), items[n], envs[n], m, score);
    }
  }

  // ---- Dry runs ----

  function Strip(r: Row): Row { r.(brainPath := None) }

  ghost predicate SameRows(xs: seq<Row>, ys: seq<Row>) {
    |xs| == |ys| && forall i :: 0 <= i < |xs| ==> Strip(xs[i]) == Strip(ys[i])
  }

  lemma {:induction false} SameLookups(xs: seq<Row>, ys: seq<Row>, h: TextDigest, cu: string)
    requires SameRows(xs, ys)
    ensures FindByHash(xs, h) == FindByHash(ys, h) && FindByUrl(xs, cu) == FindByUrl(ys, cu)
  {
    if xs != [] {
      var n := |xs| - 1;
      SameLookups(xs[..n], ys[..n], h, cu);
      assert Strip(xs[n]) == Strip(ys[n]);
    }
  }

  lemma SameRowsSnoc(xs: seq<Row>, ys: seq<Row>, x: Row, y: Row)
    requires SameRows(xs, ys) && Strip(x) == Strip(y)
    ensures SameRows(xs + [x], ys + [y])
  {
  }

  lemma ItemAgrees(a: Progress, b: Progress, f: Fetched, e: Env, dry: Mode, live: Mode, score: Scorer)
    requires dry.dry && !live.dry && dry.threshold == live.threshold
    requires SameRows(a.rows, b.rows) && a.added == b.added && a.dup == b.dup && a.aborted == b.aborted
    ensures var (c, d) := (Item(a, f, e, dry, score), Item(b, f, e, live, score));
      SameRows(c.rows, d.rows) && c.added == d.added && c.dup == d.dup && c.aborted == d.aborted &&
      c.notes == a.notes && c.written == a.written && d.would == b.would &&
      d.written - b.written <= c.would - a.would &&
      (live.writer && e.writes && e.records ==> d.written - b.written == c.would - a.would)
  {
    hide NextAvailable, HashOf;
    SameLookups(a.rows, b.rows, HashOf(f), f.cu);
    var row := if e.scores || e.landed then ScoredRow(NewRow(f, e.id), score(f)) else NewRow(f, e.id);
    SameRowsSnoc(a.rows, b.rows, row, row);
    SameRowsSnoc(a.rows, b.rows, row, row.(brainPath := Some(NextAvailable(b.notes.Keys, e.base, e.clock))));
  }

  /** A dry run and a real run from the same store over the same items agree on every count and on
      every row but `brain_path`; the dry run leaves the vault alone, and what it says it would write
      is what the real run writes when no write fails. */
  lemma {:induction false} DryRunPredictsRealRun(rows: seq<Row>, notes: map<string, Note>, items: seq<Fetched>,
                                                 envs: seq<Env>, threshold: int, writer: bool, score: Scorer)
    requires |items| == |envs|
    ensures var dry := Run(Start(rows, notes), items, envs, Mode(threshold, true, writer), score);
      var live := Run(Start(rows, notes), items, envs, Mode(threshold, false, writer), score);
      && dry.added == live.added && dry.dup == live.dup && dry.aborted == live.aborted && SameRows(dry.rows, live.rows)
      && dry.notes == notes && dry.written == 0 && live.would == 0 && live.written <= dry.would
      && (writer && (forall i :: 0 <= i < |envs| ==> envs[i].writes && envs[i].records) ==> live.written == dry.would)
  {
    hide Item;
    if items != [] {
      var n := |items| - 1;
      var d, r := Mode(threshold, true, writer), Mode(threshold, false, writer);
      DryRunPredictsRealRun(rows, notes, items[..n], envs[..n], threshold, writer, score);
      ItemAgrees(Run(Start(rows, notes), items[..n], envs[..n], d, score),
                 Run(Start(rows, notes), items[..n], envs[..n], r, score),
                 items[n], envs[n], d, r, score);
    }
  }

  // ---- Fetching the same items again ----

  ghost predicate Grown(xs: seq<Row>, ys: seq<Row>) {
    |xs| <= |ys| && forall i :: 0 <= i < |xs| ==> ys[i] == xs[i]
  }

  lemma ExistingPersists(xs: seq<Row>, ys: seq<Row>, f: Fetched)
    requires Grown(xs, ys) && Existing(xs, f).Some?
    ensures Existing(ys, f).Some?
  {
    var h := FindByHash(xs, HashOf(f));
    if h.Some? { assert ys[h.value].hash == HashOf(f); }
    else { var u := FindByUrl(xs, f.cu); assert ys[u.value].cu == f.cu; }
  }

  lemma ItemGrows(a: Progress, f: Fetched, e: Env, m: Mode, score: Scorer)
    ensures var b := Item(a, f, e, m, score);
      Grown(a.rows, b.rows) && (a.aborted ==> b == a) && (!a.aborted && e.stores ==> Existing(b.rows, f).Some?)
  {
    hide NextAvailable, HashOf;
    var b := Item(a, f, e, m, score);
    if !a.aborted && e.stores && Existing(a.rows, f).None? {
      assert b.rows[|a.rows|].hash == HashOf(f);
    }
  }

  /** After a run that was not cut short, every item whose upsert worked is in the table. */
  lemma {:induction false} RunCovers(a: Progress, items: seq<Fetched>, envs: seq<Env>, m: Mode, score: Scorer)
    requires |items| == |envs|
    ensures var out := Run(a, items, envs, m, score);
      Grown(a.rows, out.rows) && (a.aborted ==> out.aborted) &&
      (!out.aborted ==> forall i :: 0 <= i < |items| && envs[i].stores ==> Existing(out.rows, items[i]).Some?)
  {
    hide Item, Existing;
    if items != [] {
      var n := |items| - 1;
      var mid, out := Run(a, items[..n], envs[..n], m, score), Run(a, items, envs, m, score);
      RunCovers(a, items[..n], envs[..n], m, score);
      ItemGrows(mid, items[n], envs[n], m, score);
      if !out.aborted {
        forall i | 0 <= i < n && envs[i].stores ensures Existing(out.rows, items[i]).Some? {
          assert items[..n][i] == items[i] && envs[..n][i] == envs[i];
          ExistingPersists(mid.rows, out.rows, items[i]);
        }
      }
    }
  }

  /** Items already in the table change nothing but the duplicate counter. */
  lemma {:induction false} KnownItemsChangeNothing(a: Progress, items: seq<Fetched>, envs: seq<Env>, m: Mode,
                                                   score: Scorer)
    requires |items| == |envs| && !a.aborted
    requires forall i :: 0 <= i < |items| ==> Existing(a.rows, items[i]).Some?
    ensures FailedUpserts(envs) <= |items|
    ensures Run(a, items, envs, m, score) == a.(dup := a.dup + |items| - FailedUpserts(envs))
  {
    if items != [] {
      var n := |items| - 1;
      KnownItemsChangeNothing(a, items[..n], envs[..n], m, score);
    }
  }

  /** Refreshing again with the same items, in any mode, finds only duplicates: no row, no score and
      no note changes. */
  lemma SecondRunFindsOnlyDuplicates(rows: seq<Row>, notes: map<string, Note>, items: seq<Fetched>, envs: seq<Env>,
                                     m: Mode,
                                     envs': seq<Env>, m': Mode, score: Scorer)
    requires |items| == |envs| == |envs'| && FailedUpserts(envs) == 0
    requires !Run(Start(rows, notes), items, envs, m, score).aborted
    ensures var first := Run(Start(rows, notes), items, envs, m, score);
      var second := Run(Start(first.rows, first.notes), items, envs', m', score);
      second.rows == first.rows && second.notes == first.notes && second.added == 0 && second.written == 0 &&
      second.would == 0
  {
    var first := Run(Start(rows, notes), items, envs, m, score);
    RunCovers(Start(rows, notes), items, envs, m, score);
    NoFailures(envs);
    KnownItemsChangeNothing(Start(first.rows, first.notes), items, envs', m', score);
  }

  lemma {:induction false} NoFailures(envs: seq<Env>)
    ensures FailedUpserts(envs) == 0 <==> forall i :: 0 <= i < |envs| ==> envs[i].stores
  {
    if envs != [] { NoFailures(envs[..|envs| - 1]); }
  }

  // ---- The table over whole runs ----

  lemma RowLike(rows: seq<Row>, f: Fetched, id: string, r: Row)
    requires r.hash == HashOf(f) && r.cu == f.cu && Existing(rows, f).None?
    ensures Unique(rows) ==> Unique(rows + [r])
    ensures Hashed(rows) && '\n' !in f.cu ==> Hashed(rows + [r])
  {
    hide HashOf;
    if Hashed(rows) && '\n' !in f.cu { HashedSnoc(rows, f, r); }
  }

  lemma HashedSnoc(rows: seq<Row>, f: Fetched, r: Row)
    requires Hashed(rows) && r.hash == HashOf(f) && r.cu == f.cu && '\n' !in f.cu
    ensures Hashed(rows + [r])
  {
    assert r.hash == ContentHash(r.cu, f.title, f.body);
  }

  lemma ItemKeepsTable(a: Progress, f: Fetched, e: Env, m: Mode, score: Scorer)
    ensures Unique(a.rows) ==> Unique(Item(a, f, e, m, score).rows)
    ensures Hashed(a.rows) && '\n' !in f.cu ==> Hashed(Item(a, f, e, m, score).rows)
  {
    var b := Item(a, f, e, m, score);
    if b.rows != a.rows {
      var r := b.rows[|a.rows|];
      assert b.rows == a.rows + [r];
      RowLike(a.rows, f, e.id, r);
    }
  }

  /** In every run, dry or real, no two rows share a hash or a URL. */
  lemma {:induction false} RunKeepsUnique(a: Progress, items: seq<Fetched>, envs: seq<Env>, m: Mode, score: Scorer)
    requires |items| == |envs| && Unique(a.rows)
    ensures Unique(Run(a, items, envs, m, score).rows)
  {
    hide Item, Unique, Hashed;
    if items != [] {
      var n := |items| - 1;
      RunKeepsUnique(a, items[..n], envs[..n], m, score);
      ItemKeepsTable(Run(a, items[..n], envs[..n], m, score), items[n], envs[n], m, score);
    }
  }

  /** With newline-free URLs every row's hash stays taken over its own URL. */
  lemma {:induction false} RunKeepsHashed(a: Progress, items: seq<Fetched>, envs: seq<Env>, m: Mode, score: Scorer)
    requires |items| == |envs| && Hashed(a.rows) && forall i :: 0 <= i < |items| ==> '\n' !in items[i].cu
    ensures Hashed(Run(a, items, envs, m, score).rows)
  {
    hide Item, Unique, Hashed;
    if items != [] {
      var n := |items| - 1;
      RunKeepsHashed(a, items[..n], envs[..n], m, score);
      ItemKeepsTable(Run(a, items[..n], envs[..n], m, score), items[n], envs[n], m, score);
    }
  }

  /** So at any point of any run over an empty table, what counts as a duplicate is decided by the URL alone. */
  lemma DuplicatesAreByUrl(items: seq<Fetched>, envs: seq<Env>, m: Mode, score: Scorer, f: Fetched)
    requires |items| == |envs| && (forall i :: 0 <= i < |items| ==> '\n' !in items[i].cu) && '\n' !in f.cu
    ensures var rows := Run(Start([], map[]), items, envs, m, score).rows;
      Unique(rows) && Hashed(rows) && Existing(rows, f) == FindByUrl(rows, f.cu)
  {
    var a := Start([], map[]);
    RunKeepsUnique(a, items, envs, m, score);
    RunKeepsHashed(a, items, envs, m, score);
    hide Unique, Hashed, Existing, Run;
    HashLookupSubsumed(Run(a, items, envs, m, score).rows, f);
  }
}

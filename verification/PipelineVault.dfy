/** core/intelligence/pipeline.py: what a run does to the vault, and `run_source` itself. */
module PipelineVault {
  import opened Wrappers
  import opened ItemStore
  import opened FreshNames
  import opened BrainWriter
  import opened Sources
  import opened Pipeline

  /** How many of the numbered names below n are in use. */
  function Used(taken: set<string>, base: string, n: nat): (u: nat)
    ensures u <= n
  {
    if n == 0 then 0 else Used(taken, base, n - 1) + if n - 1 != 1 && Path(base, n - 1) in taken then 1 else 0
  }

  /** One more file uses at most one more name. */
  lemma {:induction false} UsedGrows(taken: set<string>, p: string, base: string, n: nat)
    ensures Used(taken + {p}, base, n) <= Used(taken, base, n) + 1
    ensures (forall k: nat :: k < n ==> Path(base, k) != p) ==> Used(taken + {p}, base, n) == Used(taken, base, n)
  {
    if n > 0 {
      UsedGrows(taken, p, base, n - 1);
      if Path(base, n - 1) == p {
        forall k: nat | k < n - 1 ensures Path(base, k) != p {
          if Path(base, k) == p { NumberedInjective(base, ".md", k, n - 1); }
        }
      }
    }
  }

  lemma {:induction false} CrowdedUses(taken: set<string>, base: string, n: nat)
    requires Path(base, 0) in taken && AllTaken(base, ".md", 2, n, taken) && n >= 2
    ensures Used(taken, base, n) == n - 1
  {
    if n == 2 {
      assert Used(taken, base, 1) == 1;
    } else {
      CrowdedUses(taken, base, n - 1);
    }
  }

  /** Each day folder and slug of the run has a numbered name left for every item. */
  ghost predicate Roomy(notes: map<string, Note>, envs: seq<Env>, items: nat) {
    forall i :: 0 <= i < |envs| ==> Used(notes.Keys, envs[i].base, LAST) + items <= 99
  }

  lemma RoomFree(taken: set<string>, base: string, clock: string)
    requires Used(taken, base, LAST) < 99
    ensures NextAvailable(taken, base, clock) !in taken
  {
    NeverOverwritesIff(taken, base, clock);
    if Crowded(taken, base) { CrowdedUses(taken, base, LAST); }
  }

  /** The rows from k on: scored, and linked to their notes exactly from the threshold up. */
  ghost predicate Linked(a: Progress, k: nat, threshold: int) {
    forall i :: k <= i < |a.rows| ==>
      var r := a.rows[i];
      r.score.Some? && (r.brainPath.Some? <==> r.score.value >= threshold) &&
      (r.brainPath.Some? ==>
         r.brainPath.value in a.notes && a.notes[r.brainPath.value].Written? &&
         a.notes[r.brainPath.value].hash == r.hash && a.notes[r.brainPath.value].id == r.id)
  }

  ghost predicate Kept(notes: map<string, Note>, after: map<string, Note>) {
    forall p :: p in notes ==> p in after && after[p] == notes[p]
  }

  /** An item writes no note and counts none, or writes one and counts it if its path was recorded. */
  lemma ItemNotes(a: Progress, f: Fetched, e: Env, m: Mode, score: Scorer)
    ensures var b, p := Item(a, f, e, m, score), NextAvailable(a.notes.Keys, e.base, e.clock);
      (b.notes == a.notes && b.written == a.written) ||
      (!m.dry && m.writer && p in b.notes && b.notes == a.notes[p := b.notes[p]] &&
       b.written <= a.written + 1 && (e.records ==> b.written == a.written + 1))
  {
    hide NextAvailable, HashOf, Existing;
  }

  lemma ItemKeepsNotes(a: Progress, f: Fetched, e: Env, m: Mode, score: Scorer)
    requires m.dry || !m.writer || Used(a.notes.Keys, e.base, LAST) < 99
    ensures var b := Item(a, f, e, m, score);
      Kept(a.notes, b.notes) && |b.notes| + a.written >= |a.notes| + b.written &&
      (e.records ==> |b.notes| + a.written == |a.notes| + b.written) &&
      forall base :: Used(b.notes.Keys, base, LAST) <= Used(a.notes.Keys, base, LAST) + 1
  {
    hide Item, NextAvailable, Used;
    ItemNotes(a, f, e, m, score);
    var b, p := Item(a, f, e, m, score), NextAvailable(a.notes.Keys, e.base, e.clock);
    if b.notes != a.notes || b.written != a.written {
      RoomFree(a.notes.Keys, e.base, e.clock);
      assert b.notes.Keys == a.notes.Keys + {p} && |b.notes| == |b.notes.Keys| && |a.notes| == |a.notes.Keys|;
      forall base ensures Used(b.notes.Keys, base, LAST) <= Used(a.notes.Keys, base, LAST) + 1 {
        UsedGrows(a.notes.Keys, p, base, LAST);
      }
    }
  }

  lemma ItemLinks(a: Progress, f: Fetched, e: Env, m: Mode, score: Scorer, k: nat)
    requires !m.dry && m.writer && e.writes && e.records && e.scores && Used(a.notes.Keys, e.base, LAST) < 99
    requires Linked(a, k, m.threshold) && k <= |a.rows|
    ensures Linked(Item(a, f, e, m, score), k, m.threshold)
  {
    hide NextAvailable, HashOf, Existing;
    RoomFree(a.notes.Keys, e.base, e.clock);
  }

  /** While the names are not used up, a run adds notes and changes none: one new file for each note
      it counts (and more only where recording a path failed). */
  lemma {:induction false} RunKeepsNotes(rows: seq<Row>, notes: map<string, Note>, items: seq<Fetched>, envs: seq<Env>,
                                         m: Mode, score: Scorer, k: nat)
    requires |items| == |envs| <= k && Roomy(notes, envs, k)
    ensures var out := Run(Start(rows, notes), items, envs, m, score);
      (forall p :: p in notes ==> p in out.notes && out.notes[p] == notes[p]) &&
      |out.notes| >= |notes| + out.written &&
      ((forall i :: 0 <= i < |envs| ==> envs[i].records) ==> |out.notes| == |notes| + out.written) &&
      forall base :: Used(out.notes.Keys, base, LAST) <= Used(notes.Keys, base, LAST) + |items|
  {
    hide Item;
    if items != [] {
      var n := |items| - 1;
      var mid := Run(Start(rows, notes), items[..n], envs[..n], m, score);
      assert Roomy(notes, envs[..n], k) && Used(notes.Keys, envs[n].base, LAST) + k <= 99;
      RunKeepsNotes(rows, notes, items[..n], envs[..n], m, score, k);
      ItemKeepsNotes(mid, items[n], envs[n], m, score);
    }
  }

  /** In a real run where nothing fails, a new item has a note if and only if it reaches the threshold,
      and that note carries the item's id and hash at the end of the run. */
  lemma {:induction false} NotesMatchThreshold(rows: seq<Row>, notes: map<string, Note>, items: seq<Fetched>,
                                               envs: seq<Env>, threshold: int, score: Scorer, k: nat)
    requires |items| == |envs| <= k && Roomy(notes, envs, k)
    requires forall i :: 0 <= i < |envs| ==> envs[i].writes && envs[i].records && envs[i].scores
    ensures var out := Run(Start(rows, notes), items, envs, Mode(threshold, false, true), score);
      |rows| <= |out.rows| && Linked(out, |rows|, threshold) &&
      forall i :: |rows| <= i < |out.rows| ==>
        var r := out.rows[i];
        r.score.Some? && (r.brainPath.Some? <==> r.score.value >= threshold) &&
        (r.brainPath.Some? ==>
           r.brainPath.value in out.notes && out.notes[r.brainPath.value].Written? &&
           out.notes[r.brainPath.value].hash == r.hash && out.notes[r.brainPath.value].id == r.id)
  {
    hide Item;
    var m := Mode(threshold, false, true);
    RunCovers(Start(rows, notes), items, envs, m, score);
    if items != [] {
      var n := |items| - 1;
      var mid := Run(Start(rows, notes), items[..n], envs[..n], m, score);
      assert Roomy(notes, envs[..n], k) && Used(notes.Keys, envs[n].base, LAST) + k <= 99;
      NotesMatchThreshold(rows, notes, items[..n], envs[..n], threshold, score, k);
      RunKeepsNotes(rows, notes, items[..n], envs[..n], m, score, k);
      ItemLinks(mid, items[n], envs[n], m, score, |rows|);
    }
  }

  // ---- run_source ----

  datatype Layer = Global | PerSource

  /** `_resolve_threshold`: configured is `brain_min_score` when it converts to an integer. */
  function ResolveThreshold(configured: Option<int>, global: int): (int, Layer) {
    if configured.Some? && 0 <= configured.value <= 100 then (configured.value, PerSource)
    else (if global > 0 then global else 0, Global)
  }

  /** The applied threshold is never negative, but only the per-source one is bounded by 100: a larger
      global setting stays as it is, so both are within 0-100 exactly when it does not exceed 100 or
      the source overrides it. */
  lemma ThresholdBoundedIff(configured: Option<int>, global: int)
    ensures ResolveThreshold(configured, global).0 >= 0
    ensures ResolveThreshold(configured, global).0 <= 100 <==>
            global <= 100 || (configured.Some? && 0 <= configured.value <= 100)
  {
  }

  /** A per-source value from 0 to 100 is the one that applies; any other leaves the global one, which
      counts from 0. */
  lemma ThresholdIs(configured: Option<int>, global: int)
    ensures configured.Some? && 0 <= configured.value <= 100 ==>
              ResolveThreshold(configured, global) == (configured.value, PerSource)
    ensures configured.None? || !(0 <= configured.value <= 100) ==>
              ResolveThreshold(configured, global).1 == Global &&
              ResolveThreshold(configured, global).0 == (if global >= 0 then global else 0)
  {
  }

  datatype Fetch = Items(items: seq<Fetched>) | NoFetcher | FetchFailed

  datatype RunOutcome = RunOutcome(ok: bool, seen: nat, added: nat, dup: nat, written: nat, would: nat)

  class IntelligencePipeline {
    var rows: seq<Row>
    var notes: map<string, Note>
    const source: SourceRow
    const writer: bool
    const global: int

    constructor (source: SourceRow, writer: bool, global: int)
      ensures this.source == source && this.writer == writer && this.global == global
    {
      this.source, this.writer, this.global := source, writer, global;
      rows, notes := [], map[];
    }

    /** One item of the loop; the counters so far are passed in and the new ones returned. */
    method HandleItem(f: Fetched, e: Env, m: Mode, score: Scorer, added: nat, dup: nat, written: nat, would: nat)
      returns (added': nat, dup': nat, written': nat, would': nat, aborted: bool)
      requires m.writer == writer
      modifies this
      ensures Progress(rows, notes, added', dup', written', would', aborted)
           == Item(Progress(old(rows), old(notes), added, dup, written, would, false), f, e, m, score)
    {
      hide NextAvailable, HashOf;
      added', dup', written', would', aborted := added, dup, written, would, false;
      if !e.stores { return; }
      var existing := FindByHash(rows, HashOf(f));
      if existing.None? { existing := FindByUrl(rows, f.cu); }
      if existing.Some? {
        dup' := dup + 1;
        return;
      }
      var before, row := rows, NewRow(f, e.id);
      rows := before + [row];
      added' := added + 1;
      if e.scores || e.landed {
        row := ScoredRow(row, score(f));
        rows := before + [row];
      }
      if !e.scores {
        aborted := true;
        return;
      }
      if score(f) < m.threshold { return; }
      if m.dry {
        would' := would + 1;
      } else if writer && e.writes {
        var path := NextAvailablePath(notes.Keys, e.base, e.clock);
        notes := notes[path := Written(e.id, row.hash, score(f), f.body)];
        if e.records || e.landed { rows := before + [row.(brainPath := Some(path))]; }
        if e.records { written' := written + 1; }
      }
    }

    /** `run_source`; finished is the clock when the outcome is recorded. */
    method RunSource(fetch: Fetch, configured: Option<int>, dry: bool, envs: seq<Env>, score: Scorer, finished: int)
      returns (out: RunOutcome)
      requires fetch.Items? ==> |envs| == |fetch.items|
      modifies this, source
      ensures fetch.Items? ==>
                var p := Run(Start(old(rows), old(notes)), fetch.items, envs,
                             Mode(ResolveThreshold(configured, global).0, dry, writer), score);
                rows == p.rows && notes == p.notes &&
                source.row == Recorded(old(source.row), if p.aborted then Errored else Worked, finished) &&
                out == if p.aborted then RunOutcome(false, 0, 0, 0, 0, 0)
                       else RunOutcome(true, |fetch.items|, p.added, p.dup, p.written, p.would)
      ensures !fetch.Items? ==>
                rows == old(rows) && notes == old(notes) && out == RunOutcome(false, 0, 0, 0, 0, 0) &&
                source.row == Recorded(old(source.row), if fetch.NoFetcher? then NotImplemented else Errored, finished)
    {
      hide Recorded, NextAvailable, Item;
      if !fetch.Items? {
        source.RecordFetchOutcome(finished, fetch.FetchFailed?, false);
        return RunOutcome(false, 0, 0, 0, 0, 0);
      }
      var m := Mode(ResolveThreshold(configured, global).0, dry, writer);
      var added, dup, written, would, aborted := 0, 0, 0, 0, false;
      ghost var start := Start(rows, notes);
      for i := 0 to |fetch.items|
        invariant source.row == old(source.row)
        invariant Run(start, fetch.items[..i], envs[..i], m, score) ==
            Progress(rows, notes, added, dup, written, would, false)
      {
        assert fetch.items[..i + 1][..i] == fetch.items[..i] && envs[..i + 1][..i] == envs[..i];
        added, dup, written, would, aborted :=
          HandleItem(fetch.items[i], envs[i], m, score, added, dup, written, would);
        if aborted {
          StaysAborted(start, fetch.items, envs, m, score, i + 1);
          source.RecordFetchOutcome(finished, true, false);
          return RunOutcome(false, 0, 0, 0, 0, 0);
        }
      }
      assert fetch.items[..|fetch.items|] == fetch.items && envs[..|envs|] == envs;
      source.RecordFetchOutcome(finished, false, true);
      out := RunOutcome(true, |fetch.items|, added, dup, written, would);
    }
  }

  lemma {:induction false} StaysAborted(a: Progress, items: seq<Fetched>, envs: seq<Env>, m: Mode, score: Scorer,
                                        i: nat)
    requires |items| == |envs| && i <= |items|
    requires Run(a, items[..i], envs[..i], m, score).aborted
    ensures Run(a, items, envs, m, score) == Run(a, items[..i], envs[..i], m, score)
  {
    var n := |items| - 1;
    if i == |items| {
      assert items[..i] == items && envs[..i] == envs;
    } else {
      assert items[..n][..i] == items[..i] && envs[..n][..i] == envs[..i];
      StaysAborted(a, items[..n], envs[..n], m, score, i);
    }
  }
}

/** What holds over every run of the ingest calls. */
module IngestRuns {
  import opened Ingest

  /** Rows keep their hash, their place and their note, and statuses move forward; vault files never
      change or disappear. */
  lemma {:induction false} RunGrows(s: State, es: seq<Event>)
    requires Good(s)
    ensures var h, h' := s.home, Run(s, es).home;
      && |h.rows| <= |h'.rows|
      && (forall i :: 0 <= i < |h.rows| ==>
            h'.rows[i].hash == h.rows[i].hash && Forward(h.rows[i].status, h'.rows[i].status))
      && (forall i :: 0 <= i < |h.rows| && h.rows[i].note.Some? ==> h'.rows[i].note == h.rows[i].note)
      && (forall p :: p in h.notes ==> p in h'.notes && h'.notes[p] == h.notes[p])
  {
    hide Next, Fits;
    if es != [] {
      var before := es[..|es| - 1];
      RunGrows(s, before);
      RunKeeps(s, before);
      StepGrows(Run(s, before), es[|es| - 1]);
    }
  }

  lemma StepGrows(s: State, e: Event)
    requires Good(s)
    ensures Grows(s.home, Step(s, e).home,
                  if e.Advance? && e.i < |s.calls| then s.calls[e.i] else Call("", "", "", Sha256(""), false, 0, Over))
  {
    hide Next, Fits;
    if e.Advance? && e.i < |s.calls| { NextGrows(s.home, s.calls[e.i], e.env); }
  }

  /** From an empty registry over any vault and inbox, whatever the interleaving, failures and
      crashes: one row per hash; every `done` row names a note that carries its hash, and no other
      row names that note; nothing that was in the vault has changed. */
  lemma DoneRowsNameTheirNotes(notes: map<string, Note>, files: map<string, string>, es: seq<Event>)
    ensures var h := Run(State(Home([], notes, files), []), es).home;
      && (forall i, j :: 0 <= i < j < |h.rows| ==> h.rows[i].hash != h.rows[j].hash)
      && (forall i :: 0 <= i < |h.rows| && h.rows[i].status == Done ==>
            h.rows[i].note.Some? && Carries(h, h.rows[i].note.value, h.rows[i].hash))
      && (forall i, j :: 0 <= i < j < |h.rows| && h.rows[i].note.Some? ==> h.rows[i].note != h.rows[j].note)
      && (forall p :: p in notes ==> p in h.notes && h.notes[p] == notes[p])
  {
    var s := State(Home([], notes, files), []);
    RunKeeps(s, es);
    RunGrows(s, es);
  }

  ghost predicate Unowned(s: State, i: nat) {
    forall k :: 0 <= k < |s.calls| && Owns(s.calls[k]) ==> s.calls[k].row != i
  }

  /** A row whose call has returned or died never changes again. */
  lemma {:induction false} UnownedRowsAreFinal(s: State, es: seq<Event>, i: nat)
    requires Good(s) && i < |s.home.rows| && Unowned(s, i)
    ensures var t := Run(s, es); i < |t.home.rows| && t.home.rows[i] == s.home.rows[i] && Unowned(t, i)
  {
    hide Next, Fits;
    if es != [] {
      var before := es[..|es| - 1];
      var t := Run(s, before);
      UnownedRowsAreFinal(s, before, i);
      RunKeeps(s, before);
      var e := es[|es| - 1];
      StepGrows(t, e);
      if e.Advance? && e.i < |t.calls| { NextFits(t.home, t.calls[e.i], e.env); }
    }
  }

  /** A crash freezes every row as it stands: an unfinished one never reaches `done` or `failed`. */
  lemma CrashStrandsRows(s: State, es: seq<Event>, i: nat)
    requires Good(s) && i < |s.home.rows|
    ensures var t := Run(Step(s, Crash), es); i < |t.home.rows| && t.home.rows[i] == s.home.rows[i]
  {
    UnownedRowsAreFinal(Step(s, Crash), es, i);
  }

  /** Once a hash has a row, a call that brings the same bytes ends without touching anything. */
  lemma DuplicateTouchesNothing(h: Home, c: Call, e: Env)
    requires (c.at.Looking? || c.at.Inserting?) && Known(h.rows, c.hash)
    ensures Next(h, c, e) == (h, c.(at := Over))
  {
  }

  function Drops(es: seq<Event>): nat {
    if es == [] then 0 else Drops(es[..|es| - 1]) + (if es[|es| - 1].Drop? then 1 else 0)
  }

  /** One for each file that is dropped in. */
  lemma {:induction false} DropsAdd(es: seq<Event>, fs: seq<Event>, e: Event)
    ensures Drops([]) == 0 && Drops([e]) == (if e.Drop? then 1 else 0)
    ensures Drops(es + fs) == Drops(es) + Drops(fs)
  {
    assert [e][..0] == [];
    if fs == [] {
      assert es + fs == es;
    } else {
      var n := |fs| - 1;
      DropsAdd(es, fs[..n], e);
      assert (es + fs)[..|es + fs| - 1] == es + fs[..n];
    }
  }

  predicate Holds(files: map<string, string>, data: string) { exists p :: p in files && files[p] == data }

  lemma MovedKeeps(files: map<string, string>, src: string, t: string)
    requires src in files && t !in files
    ensures |Moved(files, src, t)| == |files|
    ensures forall p :: p in files ==> Holds(Moved(files, src, t), files[p])
  {
    var after := Moved(files, src, t);
    assert after.Keys == files.Keys - {src} + {t};
    assert |after.Keys| == |after| && |files.Keys| == |files|;
    forall p | p in files ensures Holds(after, files[p]) {
      assert p != src ==> after[p] == files[p];
      assert after[t] == files[src];
    }
  }

  /** Only a move changes files. */
  lemma NextFiles(h: Home, c: Call, e: Env)
    ensures Next(h, c, e).0.files ==
      if (c.at.Archiving? || c.at.Discarding?) && e.ok && c.src in h.files
      then Moved(h.files, c.src, MoveTarget(h.files, if c.at.Archiving? then ARCHIVE else FAILED, c.stem, c.ext))
      else h.files
  {
    hide Moved, MoveTarget, NotePath;
  }

  lemma StepKeepsFiles(s: State, e: Event)
    requires |s.home.files| < 1000
    ensures var f, g := s.home.files, Step(s, e).home.files;
      |f| <= |g| <= |f| + (if e.Drop? then 1 else 0) && forall p :: p in f ==> Holds(g, f[p])
  {
    hide Moved, MoveTarget, Next;
    var f, g := s.home.files, Step(s, e).home.files;
    if e.Advance? && e.i < |s.calls| {
      var c := s.calls[e.i];
      NextFiles(s.home, c, e.env);
      if c.src in f {
        var dir := if c.at.Archiving? then ARCHIVE else FAILED;
        MoveFresh(f, c.src, dir, c.stem, c.ext);
        MovedKeeps(f, c.src, MoveTarget(f, dir, c.stem, c.ext));
      }
    }
    forall p | p in f && p in g && g[p] == f[p] ensures Holds(g, f[p]) { }
  }

  /** While fewer than 1000 files exist, archiving never loses one: every content that is there at any
      moment of the run, from the start or dropped in later, is still there at the end under some name. */
  lemma {:induction false} NoFileIsLost(s: State, es: seq<Event>, k: nat)
    requires |s.home.files| + Drops(es) < 1000 && k <= |es|
    ensures |s.home.files| <= |Run(s, es).home.files| <= |s.home.files| + Drops(es)
    ensures forall p :: p in Run(s, es[..k]).home.files ==> Holds(Run(s, es).home.files, Run(s, es[..k]).home.files[p])
  {
    hide Step;
    if es == [] {
      assert es[..k] == es;
    } else {
      var before, n := es[..|es| - 1], |es| - 1;
      var g, h := Run(s, before).home.files, Run(s, es).home.files;
      NoFileIsLost(s, before, if k < |es| then k else n);
      StepKeepsFiles(Run(s, before), es[n]);
      assert h == Step(Run(s, before), es[n]).home.files;
      if k < |es| {
        assert before[..k] == es[..k];
        HoldsStill(Run(s, es[..k]).home.files, g, h);
      } else {
        assert es[..k] == es;
      }
    }
  }

  lemma HoldsStill(f: map<string, string>, g: map<string, string>, h: map<string, string>)
    requires forall p :: p in f ==> Holds(g, f[p])
    requires forall p :: p in g ==> Holds(h, g[p])
    ensures forall p :: p in f ==> Holds(h, f[p])
  {
    forall p | p in f ensures Holds(h, f[p]) {
      var q :| q in g && g[q] == f[p];
      assert Holds(h, g[q]);
    }
  }
}

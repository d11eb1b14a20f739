/** core/ingest/pipeline.py: the object that `ingest_path` runs on. */
module IngestObject {
  import opened Wrappers
  import opened FreshNames
  import opened Ingest

  /** One call run to its end with nothing interleaved. */
  function Alone(h: Home, c: Call, es: seq<Env>): (Home, Call) {
    if es == [] then (h, c)
    else
      var (h', c') := Alone(h, c, es[..|es| - 1]);
      Next(h', c', es[|es| - 1])
  }

  lemma AloneStarts(h: Home, c: Call, es: seq<Env>)
    ensures Alone(h, c, es[..0]) == (h, c)
  {
  }

  lemma AloneNext(h: Home, c: Call, es: seq<Env>, k: nat)
    requires k < |es|
    ensures var (h', c') := Alone(h, c, es[..k]); Alone(h, c, es[..k + 1]) == Next(h', c', es[k])
  {
    assert es[..k + 1][..k] == es[..k];
  }

  lemma {:induction false} AloneStops(h: Home, c: Call, es: seq<Env>, k: nat)
    requires k <= |es| && Alone(h, c, es[..k]).1.at.Over?
    ensures Alone(h, c, es) == Alone(h, c, es[..k])
    decreases |es| - k
  {
    if k < |es| {
      AloneNext(h, c, es, k);
      AloneStops(h, c, es, k + 1);
    } else {
      assert es[..k] == es;
    }
  }

  function Advances(es: seq<Env>): seq<Event> {
    if es == [] then [] else Advances(es[..|es| - 1]) + [Advance(0, es[|es| - 1])]
  }

  lemma {:induction false} AloneIsRun(h: Home, c: Call, es: seq<Env>)
    ensures var (h', c') := Alone(h, c, es); Run(State(h, [c]), Advances(es)) == State(h', [c'])
  {
    if es != [] {
      AloneIsRun(h, c, es[..|es| - 1]);
      var all := Advances(es);
      assert all[..|all| - 1] == Advances(es[..|es| - 1]);
    }
  }

  /** A new file whose steps all succeed ends as one `done` row, one new note under a free name with
      its hash and text, and the same bytes under the archive name; nothing else changes. */
  lemma CleanIngest(h: Home, c: Call, es: seq<Env>)
    requires c.at.Looking? && c.moveAfter && c.src in h.files && !Known(h.rows, c.hash) && |es| == 8
    requires forall k :: 0 <= k < 8 ==> es[k].ok && es[k].extraction.Text?
    ensures var p, t := NotePath(h.notes, es[3].base), MoveTarget(h.files, ARCHIVE, c.stem, c.ext);
      p !in h.notes &&
      Alone(h, c, es).0 == Home(h.rows + [Row(c.hash, Done, Some(p), Some(t))],
                                h.notes[p := Ingested(c.hash, es[3].extraction.text)],
                                Moved(h.files, c.src, t))
  {
    hide Alone, Moved, MoveTarget, Slot, NotePath;
    var p, t := NotePath(h.notes, es[3].base), MoveTarget(h.files, ARCHIVE, c.stem, c.ext);
    var n := |h.rows|;
    NoteIsFree(h.notes, es[3].base);
    NotingHalf(h, c, es);
    var rows := h.rows + [Row(c.hash, Extracting, None, None)];
    var notes := h.notes[p := Ingested(c.hash, es[3].extraction.text)];
    AloneNext(h, c, es, 4);
    assert rows[n := rows[n].(status := Indexing, note := Some(p))] == h.rows + [Row(c.hash, Indexing, Some(p), None)];
    rows := h.rows + [Row(c.hash, Indexing, Some(p), None)];
    assert Alone(h, c, es[..5]) == (Home(rows, notes, h.files), c.(row := n, at := Archiving));
    CleanEnd(h, c, es, Home(rows, notes, h.files), p, t);
  }

  lemma LastRow(rows: seq<Row>, row: Row, other: Row)
    ensures (rows + [row])[|rows|] == row && (rows + [row])[|rows| := other] == rows + [other]
  {
  }

  lemma CleanEnd(h: Home, c: Call, es: seq<Env>, g: Home, p: string, t: string)
    requires c.src in g.files && |es| == 8 && t == MoveTarget(g.files, ARCHIVE, c.stem, c.ext)
    requires g.rows == h.rows + [Row(c.hash, Indexing, Some(p), None)]
    requires Alone(h, c, es[..5]) == (g, c.(row := |h.rows|, at := Archiving))
    requires forall k :: 0 <= k < 8 ==> es[k].ok && es[k].extraction.Text?
    ensures Alone(h, c, es).0 == Home(h.rows + [Row(c.hash, Done, Some(p), Some(t))], g.notes, Moved(g.files, c.src, t))
  {
    hide Alone, NotePath, Slot, MoveTarget, Moved;
    var n, indexing := |h.rows|, Row(c.hash, Indexing, Some(p), None);
    AloneNext(h, c, es, 5);
    AloneNext(h, c, es, 6);
    LastRow(h.rows, indexing, indexing.(stored := Some(t)));
    AloneNext(h, c, es, 7);
    LastRow(h.rows, indexing.(stored := Some(t)), Row(c.hash, Done, Some(p), Some(t)));
    assert es[..8] == es;
  }

  lemma RunSnoc(s: State, es: seq<Event>, e: Event)
    ensures Run(s, es + [e]) == Step(Run(s, es), e)
  {
    assert (es + [e])[..|es|] == es;
  }

  lemma {:induction false} RunFrom(s: State, begin: seq<Event>, es: seq<Env>)
    ensures Run(s, begin + Advances(es)) == Run(Run(s, begin), Advances(es))
  {
    if es == [] {
      assert begin + Advances(es) == begin;
    } else {
      var n := |es| - 1;
      var before, last := Advances(es[..n]), Advance(0, es[n]);
      assert Advances(es) == before + [last];
      hide Step, Run, Advances;
      RunFrom(s, begin, es[..n]);
      assert begin + (before + [last]) == begin + before + [last];
      RunSnoc(s, begin + before, last);
      RunSnoc(Run(s, begin), before, last);
    }
  }

  /** From the drop of a file to its note: a new file with bytes not seen before, ingested without a
      failure, ends as one `done` row with the hash of these bytes, one new note with its text, and the
      bytes under the archive name. */
  lemma DropIsIngested(h: Home, path: string, data: string, stem: string, ext: string, es: seq<Env>)
    requires path !in h.files && !Known(h.rows, Sha256(data)) && |es| == 8
    requires forall k :: 0 <= k < 8 ==> es[k].ok && es[k].extraction.Text?
    ensures var files, p := h.files[path := data], NotePath(h.notes, es[3].base);
      var t := MoveTarget(files, ARCHIVE, stem, ext);
      Run(State(h, []), [Drop(path, data), Arrive(path, stem, ext, true)] + Advances(es)).home ==
        Home(h.rows + [Row(Sha256(data), Done, Some(p), Some(t))],
             h.notes[p := Ingested(Sha256(data), es[3].extraction.text)], Moved(files, path, t))
  {
    var dropped := h.(files := h.files[path := data]);
    var c := Call(path, stem, ext, Sha256(data), true, 0, Looking);
    hide Alone, Moved, MoveTarget, NotePath, Run, Step, Advances;
    DropThenArrive(h, path, data, stem, ext);
    RunFrom(State(h, []), [Drop(path, data), Arrive(path, stem, ext, true)], es);
    AloneIsRun(dropped, c, es);
    CleanIngest(dropped, c, es);
  }

  lemma DropThenArrive(h: Home, path: string, data: string, stem: string, ext: string)
    requires path !in h.files
    ensures Run(State(h, []), [Drop(path, data), Arrive(path, stem, ext, true)]) ==
      State(h.(files := h.files[path := data]), [Call(path, stem, ext, Sha256(data), true, 0, Looking)])
  {
    var s, drop, arrive := State(h, []), Drop(path, data), Arrive(path, stem, ext, true);
    assert Run(s, []) == s;
    RunSnoc(s, [], drop);
    RunSnoc(s, [] + [drop], arrive);
    hide Run;
    assert [] + [drop] + [arrive] == [drop, arrive];
  }

  /** A cancelled call ends where it is, a crash ends them all; neither touches rows, notes or files. */
  lemma CancelledCallsEnd(s: State, i: nat)
    requires i < |s.calls|
    ensures Step(s, Abandon(i)) == State(s.home, s.calls[i := s.calls[i].(at := Over)])
    ensures Step(s, Crash) == State(s.home, [])
  {
  }

  /** A file that cannot be read, where marking the row as failed raises too: the call ends there, and
      the row says `failed` only if the update was committed. The file stays. */
  lemma UnmarkedFailure(h: Home, c: Call, es: seq<Env>)
    requires c.at.Looking? && !Known(h.rows, c.hash) && |es| == 8
    requires es[0].ok && es[1].ok && es[2].ok && !es[3].extraction.Text? && !es[4].ok
    ensures Alone(h, c, es).0 ==
      h.(rows := h.rows + [Row(c.hash, if es[4].landed then Failed else Extracting, None, None)])
  {
    hide Alone, NotePath, Slot, MoveTarget, Moved;
    ExtractingHalf(h, c, es);
    AloneNext(h, c, es, 3);
    AloneNext(h, c, es, 4);
    var extracting, n := h.rows + [Row(c.hash, Extracting, None, None)], |h.rows|;
    assert extracting[n := extracting[n].(status := Failed)] == h.rows + [Row(c.hash, Failed, None, None)];
    AloneStops(h, c, es, 5);
  }

  /** A new file that cannot be read as its type, or whose note cannot be written, ends as a failed row,
      its bytes under the failed directory; an unexpected error leaves the file where it was. No note is
      written. */
  lemma FailedIngest(h: Home, c: Call, es: seq<Env>)
    requires c.at.Looking? && c.src in h.files && !Known(h.rows, c.hash) && |es| == 8
    requires (!es[3].extraction.Text? || !es[3].ok) && forall k :: 0 <= k < 8 && k != 3 ==> es[k].ok
    ensures var t := MoveTarget(h.files, FAILED, c.stem, c.ext);
      Alone(h, c, es).0 ==
        if es[3].extraction.Unexpected? then h.(rows := h.rows + [Row(c.hash, Failed, None, None)])
        else h.(rows := h.rows + [Row(c.hash, Failed, None, Some(t))], files := Moved(h.files, c.src, t))
  {
    hide Alone, NotePath, Slot, MoveTarget, Moved;
    FailedHalf(h, c, es);
    var failed := h.(rows := h.rows + [Row(c.hash, Failed, None, None)]);
    if es[3].extraction.Unexpected? {
      AloneStops(h, c, es, 5);
    } else {
      FailedEnd(h, c, es, failed);
    }
  }

  lemma FailedHalf(h: Home, c: Call, es: seq<Env>)
    requires c.at.Looking? && !Known(h.rows, c.hash) && |es| == 8
    requires (!es[3].extraction.Text? || !es[3].ok) && forall k :: 0 <= k < 8 && k != 3 ==> es[k].ok
    ensures Alone(h, c, es[..5]) == (h.(rows := h.rows + [Row(c.hash, Failed, None, None)]),
                                     c.(row := |h.rows|,
                                        at := if es[3].extraction.Unexpected? then Over else Discarding))
  {
    hide Alone, NotePath, Slot, MoveTarget, Moved;
    ExtractingHalf(h, c, es);
    AloneNext(h, c, es, 3);
    AloneNext(h, c, es, 4);
    var extracting, n := h.rows + [Row(c.hash, Extracting, None, None)], |h.rows|;
    assert extracting[n := extracting[n].(status := Failed)] == h.rows + [Row(c.hash, Failed, None, None)];
  }

  /** When the update that should record a written note raises, the row ends as failed, with the note's
      path if that update was committed; the note stays and the file moves to the failed directory. */
  lemma LateFailure(h: Home, c: Call, es: seq<Env>)
    requires c.at.Looking? && c.src in h.files && !Known(h.rows, c.hash) && |es| == 8
    requires es[3].extraction.Text? && !es[4].ok && forall k :: 0 <= k < 8 && k != 4 ==> es[k].ok
    ensures var p, t := NotePath(h.notes, es[3].base), MoveTarget(h.files, FAILED, c.stem, c.ext);
      Alone(h, c, es).0 == Home(h.rows + [Row(c.hash, Failed, if es[4].landed then Some(p) else None, Some(t))],
                                h.notes[p := Ingested(c.hash, es[3].extraction.text)], Moved(h.files, c.src, t))
  {
    hide Alone, NotePath, Slot, MoveTarget, Moved;
    NotingHalf(h, c, es);
    var n, p, t := |h.rows|, NotePath(h.notes, es[3].base), MoveTarget(h.files, FAILED, c.stem, c.ext);
    var note := if es[4].landed then Some(p) else None;
    var noting := h.rows + [Row(c.hash, Extracting, None, None)];
    var notes := h.notes[p := Ingested(c.hash, es[3].extraction.text)];
    var status := if es[4].landed then Indexing else Extracting;
    AloneNext(h, c, es, 4);
    assert noting[n := noting[n].(status := Indexing, note := Some(p))]
        == h.rows + [Row(c.hash, Indexing, Some(p), None)];
    var late := h.rows + [Row(c.hash, status, note, None)];
    assert Alone(h, c, es[..5]) == (Home(late, notes, h.files), c.(row := n, at := Failing(true)));
    LateEnd(h, c, es, Home(late, notes, h.files), note, t);
  }

  lemma LateEnd(h: Home, c: Call, es: seq<Env>, g: Home, note: Option<string>, t: string)
    requires c.src in g.files && |es| == 8 && t == MoveTarget(g.files, FAILED, c.stem, c.ext)
    requires |g.rows| == |h.rows| + 1 && g.rows == h.rows + [g.rows[|h.rows|]]
    requires g.rows[|h.rows|].hash == c.hash && g.rows[|h.rows|].note == note && g.rows[|h.rows|].stored == None
    requires Alone(h, c, es[..5]) == (g, c.(row := |h.rows|, at := Failing(true)))
    requires es[5].ok && es[6].ok && es[7].ok
    ensures Alone(h, c, es).0 == Home(h.rows + [Row(c.hash, Failed, note, Some(t))], g.notes, Moved(g.files, c.src, t))
  {
    hide Alone, NotePath, Slot, MoveTarget, Moved;
    var n := |h.rows|;
    var failed := h.rows + [Row(c.hash, Failed, note, None)];
    AloneNext(h, c, es, 5);
    assert g.rows[n := g.rows[n].(status := Failed)] == failed;
    AloneNext(h, c, es, 6);
    AloneNext(h, c, es, 7);
    assert failed[n := failed[n].(stored := Some(t))] == h.rows + [Row(c.hash, Failed, note, Some(t))];
    assert es[..8] == es;
  }

  /** A failed archive move is swallowed: the row is done all the same, and the file stays. */
  lemma UnarchivedIngest(h: Home, c: Call, es: seq<Env>)
    requires c.at.Looking? && c.moveAfter && !Known(h.rows, c.hash) && |es| == 8
    requires es[3].extraction.Text? && !es[5].ok && forall k :: 0 <= k < 8 && k != 5 ==> es[k].ok
    ensures var p := NotePath(h.notes, es[3].base);
      Alone(h, c, es).0 == Home(h.rows + [Row(c.hash, Done, Some(p), None)],
                                h.notes[p := Ingested(c.hash, es[3].extraction.text)], h.files)
  {
    hide Alone, NotePath, Slot, MoveTarget, Moved;
    NotingHalf(h, c, es);
    var n, p := |h.rows|, NotePath(h.notes, es[3].base);
    var noting := h.rows + [Row(c.hash, Extracting, None, None)];
    var noted := h.rows + [Row(c.hash, Indexing, Some(p), None)];
    AloneNext(h, c, es, 4);
    assert noting[n := noting[n].(status := Indexing, note := Some(p))] == noted;
    AloneNext(h, c, es, 5);
    AloneNext(h, c, es, 6);
    assert noted[n := noted[n].(status := Done)] == h.rows + [Row(c.hash, Done, Some(p), None)];
    AloneStops(h, c, es, 7);
  }

  lemma NotingHalf(h: Home, c: Call, es: seq<Env>)
    requires c.at.Looking? && !Known(h.rows, c.hash) && |es| == 8
    requires es[3].extraction.Text? && forall k :: 0 <= k <= 3 ==> es[k].ok
    ensures var p := NotePath(h.notes, es[3].base);
      Alone(h, c, es[..4]) == (Home(h.rows + [Row(c.hash, Extracting, None, None)],
                                    h.notes[p := Ingested(c.hash, es[3].extraction.text)], h.files),
                               c.(row := |h.rows|, at := Noting(p)))
  {
    hide Alone, NotePath, Slot, MoveTarget, Moved;
    ExtractingHalf(h, c, es);
    AloneNext(h, c, es, 3);
  }

  lemma FailedEnd(h: Home, c: Call, es: seq<Env>, g: Home)
    requires c.src in h.files && |es| == 8 && es[5].ok && es[6].ok
    requires g == h.(rows := h.rows + [Row(c.hash, Failed, None, None)])
    requires Alone(h, c, es[..5]) == (g, c.(row := |h.rows|, at := Discarding))
    ensures var t := MoveTarget(h.files, FAILED, c.stem, c.ext);
      Alone(h, c, es).0 == h.(rows := h.rows + [Row(c.hash, Failed, None, Some(t))], files := Moved(h.files, c.src, t))
  {
    hide Alone, NotePath, Slot, MoveTarget, Moved;
    var t, n := MoveTarget(h.files, FAILED, c.stem, c.ext), |h.rows|;
    AloneNext(h, c, es, 5);
    AloneNext(h, c, es, 6);
    assert g.rows[n := g.rows[n].(stored := Some(t))] == h.rows + [Row(c.hash, Failed, None, Some(t))];
    AloneStops(h, c, es, 7);
  }

  lemma ExtractingHalf(h: Home, c: Call, es: seq<Env>)
    requires c.at.Looking? && !Known(h.rows, c.hash) && |es| == 8 && es[0].ok && es[1].ok && es[2].ok
    ensures Alone(h, c, es[..3]) ==
        (h.(rows := h.rows + [Row(c.hash, Extracting, None, None)]), c.(row := |h.rows|, at := Composing))
  {
    hide Alone, NotePath, Slot, MoveTarget, Moved;
    AloneStarts(h, c, es);
    AloneNext(h, c, es, 0);
    AloneNext(h, c, es, 1);
    var rows, n := h.rows + [Row(c.hash, Pending, None, None)], |h.rows|;
    assert Alone(h, c, es[..2]) == (h.(rows := rows), c.(row := n, at := Marking));
    AloneNext(h, c, es, 2);
    assert rows[n := rows[n].(status := Extracting)] == h.rows + [Row(c.hash, Extracting, None, None)];
  }

  lemma NoteIsFree(notes: map<string, Note>, stem: string)
    ensures NotePath(notes, stem) !in notes
  {
  }

  class IngestPipeline {
    var rows: seq<Row>
    var notes: map<string, Note>
    var files: map<string, string>

    ghost function View(): Home reads this { Home(rows, notes, files) }

    /** `_compose_note`: ends because every name it rejects is a file of the vault. */
    method ComposeNote(stem: string, hash: Digest, text: string) returns (rel: string)
      modifies this`notes
      ensures rel == NotePath(old(notes), stem) && rel !in old(notes)
      ensures notes == old(notes)[rel := Ingested(hash, text)]
    {
      rel := Numbered(stem, ".md", 0);
      var i := 1;
      while rel in notes
        invariant notes == old(notes) && i >= 1 && rel == Numbered(stem, ".md", i - 1)
        invariant AllTaken(stem, ".md", 0, i - 1, notes.Keys)
        decreases |notes.Keys| + 1 - i
      {
        TakenNames(stem, ".md", 0, i, notes.Keys);
        rel := Numbered(stem, ".md", i);
        i := i + 1;
      }
      FirstFreeIs(notes.Keys, stem, ".md", i - 1);
      notes := notes[rel := Ingested(hash, text)];
    }

    /** `_move` */
    method Move(src: string, dir: string, stem: string, ext: string) returns (target: string)
      requires src in files
      modifies this`files
      ensures target == MoveTarget(old(files), dir, stem, ext)
      ensures files == Moved(old(files), src, target)
    {
      target := Numbered(dir + stem, ext, 0);
      SlotIs(files.Keys, dir + stem, ext, 0);
      if target in files {
        for i := 1 to 1000
          invariant files == old(files) && target == Numbered(dir + stem, ext, 0)
          invariant AllTaken(dir + stem, ext, 0, i, files.Keys)
        {
          var alt := Numbered(dir + stem, ext, i);
          if alt !in files {
            target := alt;
            SlotAt(files.Keys, dir + stem, ext, i);
            break;
          }
        }
        assert target == MoveTarget(files, dir, stem, ext);
      } else {
        assert Slot(files.Keys, dir + stem, ext, 0) == 0;
      }
      files := Moved(files, src, target);
    }

    /** The path every exception handler takes: mark the row, then move the file unless the failure
        was unexpected. The call has made the first k of its steps. */
    method Fail(c: Call, moves: bool, es: seq<Env>, k: nat, ghost h0: Home, ghost c0: Call) returns (raised: bool)
      requires k + 3 <= |es| && c.row < |rows| && c.at == Failing(moves)
      requires Alone(h0, c0, es[..k]) == (View(), c)
      modifies this`rows, this`files
      ensures View() == Alone(h0, c0, es).0
    {
      hide Alone, Moved, MoveTarget, Slot, NotePath;
      AloneNext(h0, c0, es, k);
      if Lands(es[k]) { rows := rows[c.row := rows[c.row].(status := Failed)]; }
      if !es[k].ok {
        AloneStops(h0, c0, es, k + 1);
        return true;
      }
      if !moves {
        AloneStops(h0, c0, es, k + 1);
        return false;
      }
      AloneNext(h0, c0, es, k + 1);
      if !es[k + 1].ok || c.src !in files {
        AloneStops(h0, c0, es, k + 2);
        return true;
      }
      var stored := Move(c.src, FAILED, c.stem, c.ext);
      AloneNext(h0, c0, es, k + 2);
      AloneStops(h0, c0, es, k + 3);
      raised := !es[k + 2].ok;
      if Lands(es[k + 2]) { rows := rows[c.row := rows[c.row].(stored := Some(stored))]; }
    }

    /** From the archive move on; its failures are swallowed. */
    method Finish(c: Call, es: seq<Env>, k: nat, ghost h0: Home, ghost c0: Call) returns (raised: bool)
      requires k + 3 <= |es| && c.row < |rows| && c.at == (if c.moveAfter then Archiving else Finishing)
      requires Alone(h0, c0, es[..k]) == (View(), c)
      modifies this`rows, this`files
      ensures View() == Alone(h0, c0, es).0
    {
      hide Alone, Moved, MoveTarget, Slot, NotePath;
      var j := k;
      if c.moveAfter {
        AloneNext(h0, c0, es, k);
        j := k + 1;
        if es[k].ok && c.src in files {
          var stored := Move(c.src, ARCHIVE, c.stem, c.ext);
          AloneNext(h0, c0, es, k + 1);
          j := k + 2;
          if Lands(es[k + 1]) { rows := rows[c.row := rows[c.row].(stored := Some(stored))]; }
        }
      }
      AloneNext(h0, c0, es, j);
      AloneStops(h0, c0, es, j + 1);
      raised := !es[j].ok;
      if Lands(es[j]) { rows := rows[c.row := rows[c.row].(status := Done)]; }
    }

    /** From the new row on: extract, compose the note, and finish or fail. */
    method Process(c: Call, es: seq<Env>, ghost h0: Home, ghost c0: Call) returns (raised: bool)
      requires |es| == 8 && c.row < |rows| && c.at == Marking
      requires Alone(h0, c0, es[..2]) == (View(), c)
      modifies this
      ensures View() == Alone(h0, c0, es).0
    {
      hide Alone, Moved, MoveTarget, Slot, NotePath;
      AloneNext(h0, c0, es, 2);
      if Lands(es[2]) { rows := rows[c.row := rows[c.row].(status := Extracting)]; }
      if !es[2].ok {
        raised := Fail(c.(at := Failing(false)), false, es, 3, h0, c0);
        return;
      }
      AloneNext(h0, c0, es, 3);
      if !es[3].extraction.Text? || !es[3].ok {
        var moves := !es[3].extraction.Unexpected?;
        raised := Fail(c.(at := Failing(moves)), moves, es, 4, h0, c0);
        return;
      }
      var note := ComposeNote(es[3].base, c.hash, es[3].extraction.text);
      AloneNext(h0, c0, es, 4);
      if Lands(es[4]) { rows := rows[c.row := rows[c.row].(status := Indexing, note := Some(note))]; }
      if !es[4].ok {
        raised := Fail(c.(at := Failing(true)), true, es, 5, h0, c0);
        return;
      }
      raised := Finish(c.(at := if c.moveAfter then Archiving else Finishing), es, 5, h0, c0);
    }

    /** `ingest_path`, es being what each of its steps meets. */
    method IngestPath(src: string, stem: string, ext: string, moveAfter: bool, es: seq<Env>)
      returns (raised: bool, duplicate: bool)
      requires src in files && |es| == 8
      modifies this
      ensures View() == Alone(old(View()), Call(src, stem, ext, Sha256(old(files)[src]), moveAfter, 0, Looking), es).0
      ensures duplicate <==> es[0].ok && Known(old(rows), Sha256(old(files)[src]))
      ensures duplicate ==> View() == old(View())
    {
      hide Alone, Moved, MoveTarget, Slot, NotePath;
      raised, duplicate := false, false;
      var c := Call(src, stem, ext, Sha256(files[src]), moveAfter, 0, Looking);
      ghost var h0, c0 := View(), c;
      AloneStarts(h0, c0, es);
      AloneNext(h0, c0, es, 0);
      if !es[0].ok || Known(rows, c.hash) {
        AloneStops(h0, c0, es, 1);
        return !es[0].ok, es[0].ok;
      }
      AloneNext(h0, c0, es, 1);
      c := c.(row := |rows|, at := Marking);
      if Lands(es[1]) { rows := rows + [Row(c.hash, Pending, None, None)]; }
      if !es[1].ok {
        AloneStops(h0, c0, es, 2);
        return true, false;
      }
      raised := Process(c, es, h0, c0);
    }
  }

  lemma FirstFreeIs(taken: set<string>, stem: string, ext: string, n: nat)
    requires AllTaken(stem, ext, 0, n, taken) && Numbered(stem, ext, n) !in taken
    ensures FirstFree(taken, stem, ext, 0) == n
  {
  }

  lemma SlotAt(taken: set<string>, stem: string, ext: string, n: nat)
    requires n < 1000 && AllTaken(stem, ext, 0, n, taken) && Numbered(stem, ext, n) !in taken
    ensures Slot(taken, stem, ext, 0) == n
  {
    SlotIs(taken, stem, ext, 0);
  }
}

/** core/ingest: registry rows, the fresh-name searches, and any number of `ingest_path` calls
    interleaved at their awaits, with failures and crashes anywhere. */
module Ingest {
  import opened Wrappers
  import opened FreshNames

  const ARCHIVE := "inbox/archive/"
  const FAILED := "inbox/failed/"

  /** SHA-256 taken as collision-free. */
  datatype Digest = Sha256(data: string)

  datatype Status = Pending | Extracting | Indexing | Done | Failed

  datatype Row = Row(hash: Digest, status: Status, note: Option<string>, stored: Option<string>)

  /** A vault file: one written here, with its frontmatter hash, or anything else. */
  datatype Note = Ingested(hash: Digest, text: string) | Other(text: string)

  /** Database rows (a row's id is its position), vault files, and files around the inbox. */
  datatype Home = Home(rows: seq<Row>, notes: map<string, Note>, files: map<string, string>)

  /** Where a call is suspended. */
  datatype Point =
    | Looking                // get_by_hash
    | Inserting              // INSERT
    | Marking                // update(status="extracting")
    | Composing              // extract_text and _compose_note, with no await between them
    | Noting(note: string)   // update(status="indexing", brain_note_path=...)
    | Archiving              // _move to the archive
    | Storing(path: string)  // update(stored_path=...)
    | Finishing              // update(status="done")
    | Failing(moves: bool)   // update(status="failed"), then _move unless the failure was unexpected
    | Discarding             // _move to the failed directory
    | Recording(path: string)
    | Over

  datatype Call = Call(src: string, stem: string, ext: string, hash: Digest, moveAfter: bool, row: nat, at: Point)

  datatype Extraction = Text(text: string) | Unreadable | Unexpected

  /** What the surroundings decide for one step: whether its I/O works (an update that raises may have
      been committed all the same: it reads the row back), what extraction yields, and the note's
      folder, day and slug. */
  datatype Env = Env(ok: bool, landed: bool, extraction: Extraction, base: string)

  // ---- Names ----

  /** The first free counter from i on. */
  function FirstFree(taken: set<string>, stem: string, ext: string, i: nat): (n: nat)
    requires AllTaken(stem, ext, 0, i, taken)
    ensures Numbered(stem, ext, n) !in taken && AllTaken(stem, ext, 0, n, taken)
    decreases |taken| - i
  {
    if Numbered(stem, ext, i) !in taken then i
    else
      TakenNames(stem, ext, 0, i + 1, taken);
      FirstFree(taken, stem, ext, i + 1)
  }

  function NotePath(notes: map<string, Note>, stem: string): string {
    Numbered(stem, ".md", FirstFree(notes.Keys, stem, ".md", 0))
  }

  /** The first free counter in i..999, or 0. */
  function Slot(taken: set<string>, stem: string, ext: string, i: nat): (n: nat)
    requires i <= 1000
    decreases 1000 - i
  {
    if i == 1000 then 0 else if Numbered(stem, ext, i) !in taken then i else Slot(taken, stem, ext, i + 1)
  }

  function MoveTarget(files: map<string, string>, dir: string, stem: string, ext: string): string {
    Numbered(dir + stem, ext, Slot(files.Keys, dir + stem, ext, 0))
  }

  /** `shutil.move`, replacing whatever is at the target. */
  function Moved(files: map<string, string>, src: string, target: string): map<string, string>
    requires src in files
  {
    (files - {src})[target := files[src]]
  }

  lemma {:induction false} SlotIs(taken: set<string>, stem: string, ext: string, i: nat)
    requires i <= 1000
    ensures AllTaken(stem, ext, i, 1000, taken) ==> Slot(taken, stem, ext, i) == 0
    ensures !AllTaken(stem, ext, i, 1000, taken) ==> (
              var n := Slot(taken, stem, ext, i);
              i <= n < 1000 && Numbered(stem, ext, n) !in taken && AllTaken(stem, ext, i, n, taken))
    decreases 1000 - i
  {
    hide Numbered;
    if i < 1000 && Numbered(stem, ext, i) in taken { SlotIs(taken, stem, ext, i + 1); }
  }

  /** The names an archived file is given, in the order they are tried. */
  lemma MoveTargetIs(files: map<string, string>, dir: string, stem: string, ext: string)
    ensures ARCHIVE == "inbox/archive/" && FAILED == "inbox/failed/"
    ensures dir + stem + ext !in files ==> MoveTarget(files, dir, stem, ext) == dir + stem + ext
    ensures AllTaken(dir + stem, ext, 0, 1000, files.Keys) ==> MoveTarget(files, dir, stem, ext) == dir + stem + ext
    ensures dir + stem + ext in files && !AllTaken(dir + stem, ext, 0, 1000, files.Keys) ==>
              exists n: nat ::
                1 <= n < 1000 && MoveTarget(files, dir, stem, ext) == dir + stem + "-" + Dec(n) + ext &&
                MoveTarget(files, dir, stem, ext) !in files && AllTaken(dir + stem, ext, 0, n, files.Keys)
  {
    SlotIs(files.Keys, dir + stem, ext, 0);
    NumberedIs(dir + stem, ext, Slot(files.Keys, dir + stem, ext, 0));
  }

  /** A move leaves every other file as it was exactly when one of the 1000 candidate names is free
      (or what it overwrites is a copy of itself). */
  lemma MoveKeepsOthersIff(files: map<string, string>, src: string, dir: string, stem: string, ext: string)
    requires src in files
    ensures var after := Moved(files, src, MoveTarget(files, dir, stem, ext));
      (forall p :: p in files && p != src ==> p in after && after[p] == files[p])
      <==> (!AllTaken(dir + stem, ext, 0, 1000, files.Keys) || files[Numbered(dir + stem, ext, 0)] == files[src])
  {
    SlotIs(files.Keys, dir + stem, ext, 0);
    var t := MoveTarget(files, dir, stem, ext);
    var after := Moved(files, src, t);
    assert after[t] == files[src];
    assert forall p :: p in files && p != src && p != t ==> p in after && after[p] == files[p];
  }

  lemma MoveFresh(files: map<string, string>, src: string, dir: string, stem: string, ext: string)
    requires src in files && |files| < 1000
    ensures MoveTarget(files, dir, stem, ext) !in files
  {
    SlotIs(files.Keys, dir + stem, ext, 0);
    assert |files.Keys| == |files|;
    if AllTaken(dir + stem, ext, 0, 1000, files.Keys) { TakenNames(dir + stem, ext, 0, 1000, files.Keys); }
  }

  // ---- One step of one call ----

  predicate Known(rows: seq<Row>, h: Digest) { exists i :: 0 <= i < |rows| && rows[i].hash == h }

  function SetStatus(h: Home, i: nat, s: Status): Home {
    if i < |h.rows| then h.(rows := h.rows[i := h.rows[i].(status := s)]) else h
  }

  function SetNote(h: Home, i: nat, p: string): Home {
    if i < |h.rows| then h.(rows := h.rows[i := h.rows[i].(status := Indexing, note := Some(p))]) else h
  }

  function SetStored(h: Home, i: nat, p: string): Home {
    if i < |h.rows| then h.(rows := h.rows[i := h.rows[i].(stored := Some(p))]) else h
  }

  function Composed(h: Home, c: Call, e: Env): (Home, Call) {
    match e.extraction
    case Unreadable => (h, c.(at := Failing(true)))
    case Unexpected => (h, c.(at := Failing(false)))
    case Text(t) =>
      if !e.ok then (h, c.(at := Failing(true)))
      else
        var p := NotePath(h.notes, e.base);
        (h.(notes := h.notes[p := Ingested(c.hash, t)]), c.(at := Noting(p)))
  }

  function Relocated(h: Home, c: Call, e: Env, dir: string): Option<string> {
    if e.ok && c.src in h.files then Some(MoveTarget(h.files, dir, c.stem, c.ext)) else None
  }

  function MovedHome(h: Home, c: Call, to: Option<string>): Home {
    if to.Some? && c.src in h.files then h.(files := Moved(h.files, c.src, to.value)) else h
  }

  predicate Lands(e: Env) { e.ok || e.landed }

  function Next(h: Home, c: Call, e: Env): (Home, Call) {
    match c.at
    case Looking => (h, c.(at := if !e.ok || Known(h.rows, c.hash) then Over else Inserting))
    case Inserting =>
      if Known(h.rows, c.hash) || !Lands(e) then (h, c.(at := Over))  // the unique index refuses a second row
      else (h.(rows := h.rows + [Row(c.hash, Pending, None, None)]),
            c.(row := |h.rows|, at := if e.ok then Marking else Over))
    case Marking =>
      (if Lands(e) then SetStatus(h, c.row, Extracting) else h, c.(at := if e.ok then Composing else Failing(false)))
    case Composing => Composed(h, c, e)
    case Noting(p) =>
      (if Lands(e) then SetNote(h, c.row, p) else h,
       c.(at := if !e.ok then Failing(true) else if c.moveAfter then Archiving else Finishing))
    case Archiving =>
      var to := Relocated(h, c, e, ARCHIVE);
      (MovedHome(h, c, to), c.(at := if to.Some? then Storing(to.value) else Finishing))
    case Storing(p) => (if Lands(e) then SetStored(h, c.row, p) else h, c.(at := Finishing))
    case Finishing => (if Lands(e) then SetStatus(h, c.row, Done) else h, c.(at := Over))
    case Failing(moves) =>
      (if Lands(e) then SetStatus(h, c.row, Failed) else h, c.(at := if e.ok && moves then Discarding else Over))
    case Discarding =>
      var to := Relocated(h, c, e, FAILED);
      (MovedHome(h, c, to), c.(at := if to.Some? then Recording(to.value) else Over))
    case Recording(p) => (if Lands(e) then SetStored(h, c.row, p) else h, c.(at := Over))
    case Over => (h, c)
  }

  // ---- Runs ----

  datatype State = State(home: Home, calls: seq<Call>)

  datatype Event =
    | Drop(path: string, data: string)                                    // a file appears
    | Arrive(src: string, stem: string, ext: string, moveAfter: bool)     // ingest_path is called
    | Advance(i: nat, env: Env)
    | Abandon(i: nat)                                                     // the call is cancelled where it is
    | Crash

  function Step(s: State, e: Event): State {
    match e
    case Drop(p, data) => if p in s.home.files then s else s.(home := s.home.(files := s.home.files[p := data]))
    case Arrive(src, stem, ext, m) =>
      if src in s.home.files then
        s.(calls := s.calls + [Call(src, stem, ext, Sha256(s.home.files[src]), m, 0, Looking)])
      else s
    case Advance(i, env) =>
      if i < |s.calls| then
        var (h, c) := Next(s.home, s.calls[i], env);
        State(h, s.calls[i := c])
      else s
    case Abandon(i) => if i < |s.calls| then s.(calls := s.calls[i := s.calls[i].(at := Over)]) else s
    case Crash => s.(calls := [])
  }

  function Run(s: State, es: seq<Event>): State {
    if es == [] then s else Step(Run(s, es[..|es| - 1]), es[|es| - 1])
  }

  /** The call owns its row: it inserted it and has not returned. */
  predicate Owns(c: Call) { !c.at.Looking? && !c.at.Inserting? && !c.at.Over? }

  predicate Carries(h: Home, p: string, d: Digest) { p in h.notes && h.notes[p].Ingested? && h.notes[p].hash == d }

  /** What the row of a suspended call looks like. */
  predicate Fits(h: Home, c: Call) {
    c.row < |h.rows| &&
    var r := h.rows[c.row];
    r.hash == c.hash &&
    match c.at
    case Marking => r.status == Pending && r.note.None?
    case Composing => r.status == Extracting && r.note.None?
    case Noting(p) => r.status == Extracting && r.note.None? && Carries(h, p, c.hash)
    case Archiving => r.status == Indexing
    case Storing(_) => r.status == Indexing
    case Finishing => r.status == Indexing
    case Failing(_) => r.status == Pending || r.status == Extracting || r.status == Indexing
    case Discarding => r.status == Failed
    case Recording(_) => r.status == Failed
    case _ => true
  }

  /** From `indexing` on a row has a note; a `failed` one has it when the failure came that late. */
  predicate NoteFitsStatus(r: Row) {
    (r.status == Indexing || r.status == Done ==> r.note.Some?) &&
    (r.status == Pending || r.status == Extracting ==> r.note.None?)
  }

  ghost predicate RowsFit(h: Home) {
    (forall i, j :: 0 <= i < j < |h.rows| ==> h.rows[i].hash != h.rows[j].hash) &&
    (forall i :: 0 <= i < |h.rows| ==> NoteFitsStatus(h.rows[i])) &&
    (forall i :: 0 <= i < |h.rows| && h.rows[i].note.Some? ==> Carries(h, h.rows[i].note.value, h.rows[i].hash))
  }

  ghost predicate Good(s: State) {
    RowsFit(s.home) &&
    (forall k :: 0 <= k < |s.calls| && Owns(s.calls[k]) ==> Fits(s.home, s.calls[k])) &&
    (forall k, l :: 0 <= k < l < |s.calls| && Owns(s.calls[k]) && Owns(s.calls[l]) ==> s.calls[k].row != s.calls[l].row)
  }

  /** Statuses only move forward; `done` and `failed` are final. */
  predicate Forward(a: Status, b: Status) {
    a == b || a == Pending || (a == Extracting && b != Pending) || (a == Indexing && (b == Done || b == Failed))
  }

  /** What every step of one call does to the home. */
  ghost predicate Grows(h: Home, h': Home, c: Call) {
    |h.rows| <= |h'.rows| &&
    (forall i :: 0 <= i < |h.rows| ==>
        h'.rows[i].hash == h.rows[i].hash && Forward(h.rows[i].status, h'.rows[i].status)) &&
    (forall i :: 0 <= i < |h.rows| && (Owns(c) ==> i != c.row) ==> h'.rows[i] == h.rows[i]) &&
    (forall i :: 0 <= i < |h.rows| && h.rows[i].note.Some? ==> h'.rows[i].note == h.rows[i].note) &&
    (forall p :: p in h.notes ==> p in h'.notes && h'.notes[p] == h.notes[p])
  }

  /** Rewriting one row the way the updates do. */
  lemma RowSet(h: Home, i: nat, r: Row)
    requires RowsFit(h) && i < |h.rows| && r.hash == h.rows[i].hash
    requires NoteFitsStatus(r)
    requires r.note.Some? ==> Carries(h, r.note.value, r.hash)
    ensures RowsFit(h.(rows := h.rows[i := r]))
  {
  }

  /** A note is only ever added under a free path. */
  lemma NoteAdded(h: Home, stem: string, n: Note)
    requires RowsFit(h)
    ensures var p := NotePath(h.notes, stem);
      p !in h.notes && RowsFit(h.(notes := h.notes[p := n]))
  {
  }

  lemma NextRows(h: Home, c: Call, e: Env)
    requires RowsFit(h) && (Owns(c) ==> Fits(h, c))
    ensures RowsFit(Next(h, c, e).0)
  {
    hide Slot, Moved, MoveTarget, NotePath;
    if Owns(c) {
      var r := h.rows[c.row];
      match c.at {
        case Marking => RowSet(h, c.row, r.(status := Extracting));
        case Composing => NoteAdded(h, e.base, Ingested(c.hash, if e.extraction.Text? then e.extraction.text else ""));
        case Noting(p) => RowSet(h, c.row, r.(status := Indexing, note := Some(p)));
        case Storing(p) => RowSet(h, c.row, r.(stored := Some(p)));
        case Finishing => RowSet(h, c.row, r.(status := Done));
        case Failing(_) => RowSet(h, c.row, r.(status := Failed));
        case Recording(p) => RowSet(h, c.row, r.(stored := Some(p)));
        case _ =>
      }
    }
  }

  lemma RowGrows(h: Home, c: Call, r: Row)
    requires Owns(c) && c.row < |h.rows| && r.hash == h.rows[c.row].hash && Forward(h.rows[c.row].status, r.status)
    requires h.rows[c.row].note.Some? ==> r.note == h.rows[c.row].note
    ensures Grows(h, h.(rows := h.rows[c.row := r]), c)
  {
  }

  lemma SameGrows(h: Home, h': Home, c: Call)
    requires h'.rows == h.rows && forall p :: p in h.notes ==> p in h'.notes && h'.notes[p] == h.notes[p]
    ensures Grows(h, h', c)
  {
  }

  lemma NextGrows(h: Home, c: Call, e: Env)
    requires Owns(c) ==> Fits(h, c)
    ensures Grows(h, Next(h, c, e).0, c)
  {
    hide Slot, Moved, MoveTarget, NotePath, Grows, Known;
    SameGrows(h, h, c);
    match c.at {
      case Looking =>
      case Inserting => InsertGrows(h, c, e);
      case Marking => RowGrows(h, c, h.rows[c.row].(status := Extracting));
      case Composing => ComposedGrows(h, c, e);
      case Noting(p) => RowGrows(h, c, h.rows[c.row].(status := Indexing, note := Some(p)));
      case Archiving => SameGrows(h, Next(h, c, e).0, c);
      case Storing(p) => RowGrows(h, c, h.rows[c.row].(stored := Some(p)));
      case Finishing => RowGrows(h, c, h.rows[c.row].(status := Done));
      case Failing(_) => RowGrows(h, c, h.rows[c.row].(status := Failed));
      case Discarding => SameGrows(h, Next(h, c, e).0, c);
      case Recording(p) => RowGrows(h, c, h.rows[c.row].(stored := Some(p)));
      case Over =>
    }
  }

  lemma InsertGrows(h: Home, c: Call, e: Env)
    requires c.at.Inserting?
    ensures Grows(h, Next(h, c, e).0, c)
  {
  }

  lemma ComposedGrows(h: Home, c: Call, e: Env)
    ensures Grows(h, Composed(h, c, e).0, c)
  {
  }

  /** The row a call leaves behind is the one its next point expects. */
  lemma NextFits(h: Home, c: Call, e: Env)
    requires Owns(c) ==> Fits(h, c)
    ensures var (h', c') := Next(h, c, e);
      (Owns(c') ==> Fits(h', c') && c'.row == if Owns(c) then c.row else |h.rows|) &&
      (Owns(c) || !Owns(c') || |h'.rows| == |h.rows| + 1)
  {
    hide Slot, Moved, MoveTarget, NotePath, Known;
    if Owns(c) { OwnerFits(h, c, e); }
  }

  lemma OwnerFits(h: Home, c: Call, e: Env)
    requires Owns(c) && Fits(h, c)
    ensures var (h', c') := Next(h, c, e); Owns(c') ==> Fits(h', c') && c'.row == c.row
  {
    hide Slot, Moved, MoveTarget, NotePath, Known;
    match c.at {
      case Composing => ComposedFits(h, c, e);
      case _ =>
    }
  }

  lemma ComposedFits(h: Home, c: Call, e: Env)
    requires c.at.Composing? && Fits(h, c)
    ensures var (h', c') := Composed(h, c, e); Fits(h', c') && c'.row == c.row
  {
    hide NotePath;
  }

  lemma StepKeeps(s: State, e: Event)
    requires Good(s)
    ensures Good(Step(s, e))
  {
    hide Next;
    if e.Advance? && e.i < |s.calls| {
      NextFits(s.home, s.calls[e.i], e.env);
      NextRows(s.home, s.calls[e.i], e.env);
      NextGrows(s.home, s.calls[e.i], e.env);
    }
  }

  lemma {:induction false} RunKeeps(s: State, es: seq<Event>)
    requires Good(s)
    ensures Good(Run(s, es))
  {
    if es != [] {
      RunKeeps(s, es[..|es| - 1]);
      StepKeeps(Run(s, es[..|es| - 1]), es[|es| - 1]);
    }
  }
}

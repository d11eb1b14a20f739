/** core/io/telegram_bridge.py: the per-session vault file over any run with cancelled
    dispatches, crashes and restarts. One dispatch is alive at a time (see Processor). */
module SessionLog {
  import opened Wrappers
  import opened TextOrder
  import opened Clock
  import opened SessionTracker
  import opened Vault
  import opened Text

  /** `_session_file_header` */
  function Header(id: string, startedAt: Instant): string {
    var d := Utc(startedAt);
    "# Session " + id + "\n\n- **Channel:** Telegram\n- **Started:** "
      + Pad(d.year, 4) + "-" + Pad(d.month, 2) + "-" + Pad(d.day, 2) + " " + Pad(d.hour, 2) + ":" + Pad(d.minute, 2)
      + " UTC\n\n---\n\n"
  }

  /** The banner shows the id, the date, and the time of day to the minute. */
  lemma HeaderShows(id: string, startedAt: Instant)
    ensures var s := Stamp(startedAt);
      |s| >= 19 &&
      Header(id, startedAt) ==
        "# Session " + id + "\n\n- **Channel:** Telegram\n- **Started:** " + s[..10] + " " + s[11..16] +
        " UTC\n\n---\n\n"
  {
    StampSlices(startedAt);
    var d, s := Utc(startedAt), Stamp(startedAt);
    hide Utc, Stamp, Pad;
    assert s[..10] == s[..4] + "-" + s[5..7] + "-" + s[8..10];
    assert s[11..16] == s[11..13] + ":" + s[14..16];
  }

  /** `_append_or_create`. `readFails` is a read error other than "not found"; the code then takes the
      file for missing. */
  function Attempt(notes: Notes, id: string, block: string, header: string, force: bool,
                   readFails: bool): Option<string> {
    if !readFails && id in notes && !force then NewContent(notes, id, block, true)
    else NewContent(notes, id, header + block, false)
  }

  function AppendOrCreate(notes: Notes, id: string, block: string, header: string, force: bool,
                          readFails: bool): Notes {
    var c := Attempt(notes, id, block, header, force, readFails);
    if c.None? then notes else notes[id := c.value]
  }

  /** The method behind it, against the vault. */
  method AppendOrCreateNote(vault: Folder, id: string, block: string, header: string, force: bool, readFails: bool)
    returns (ok: bool)
    modifies vault
    ensures vault.notes == AppendOrCreate(old(vault.notes), id, block, header, force, readFails)
    ensures ok <==> Attempt(old(vault.notes), id, block, header, force, readFails).Some?
    ensures id in old(vault.notes) && !force && !readFails ==>
              (ok <==> Utf8Len(block) <= 1_048_576 && Utf8Len(old(vault.notes)[id] + "\n\n" + block) <= 1_048_576) &&
              (ok ==> vault.notes == old(vault.notes)[id := old(vault.notes)[id] + "\n\n" + block])
    ensures !(id in old(vault.notes) && !force && !readFails) ==>
              (ok <==> Utf8Len(header + block) <= 1_048_576) &&
              (ok ==> vault.notes == old(vault.notes)[id := header + block])
    ensures !ok ==> vault.notes == old(vault.notes)
  {
    var present := !readFails && id in vault.notes;
    if present && !force {
      ok := vault.Write(id, block, true);
    } else {
      ok := vault.Write(id, header + block, false);
    }
  }

  /** What was in the file survives an accepted write as its beginning exactly when the file was
      recognised and the header not forced, or the header and block happen to begin with it. The
      comment in the source that a failed read at worst duplicates the header is wrong. */
  lemma OldContentSurvivesIff(notes: Notes, id: string, block: string, header: string, force: bool, readFails: bool)
    requires id in notes && Attempt(notes, id, block, header, force, readFails).Some?
    ensures notes[id] <= AppendOrCreate(notes, id, block, header, force, readFails)[id]
       <==> (!readFails && !force) || notes[id] <= header + block
  {
  }

  /** One accepted exchange. */
  datatype Exchange = Exchange(startedAt: Instant, block: string)

  /** The dispatch that is running: the session it was filed under, and whether it opened it. */
  datatype Flight = Flight(startedAt: Instant, isNew: bool)

  /** `persisted` lists every exchange whose reply went out, `accepted` those the vault took. */
  datatype State = State(
    gap: int, clock: Instant, tracker: Tracker, disk: Saved, notes: Notes, flight: Option<Flight>,
    accepted: seq<Exchange>, persisted: seq<Exchange>)

  function Start(gap: int, clock: Instant): State {
    State(gap, clock, Fresh, AsState(Fresh), map[], None, [], [])
  }

  datatype Event =
    | Dispatch(now: Instant)                     // tick the tracker and save the state
    | Abandon                                    // cancelled, busy, timed out or failed
    | Persist(block: string, readFails: bool)    // the reply is out; archive the exchange
    | Restart(loaded: Tracker)                   // the process died; a new one loads the state file
    | ClockBack(to: Instant)                     // the wall clock is set back

  ghost predicate Enabled(s: State, e: Event) {
    match e
    case Dispatch(now) => s.flight.None? && now >= s.clock
    case Abandon => s.flight.Some?
    case Persist(_, _) => s.flight.Some?
    case Restart(loaded) => Loads(s.disk, loaded)
    case ClockBack(to) => to < s.clock
  }

  /** The part of Persist that touches the vault. */
  function Archive(s: State, f: Flight, block: string, readFails: bool): State {
    var id := SessionId(f.startedAt);
    var c := Attempt(s.notes, id, block, Header(id, f.startedAt), f.isNew, readFails);
    if c.None? then s
    else s.(notes := s.notes[id := c.value], accepted := s.accepted + [Exchange(f.startedAt, block)])
  }

  ghost function Step(s: State, e: Event): State {
    if !Enabled(s, e) then s
    else match e
      case Dispatch(now) =>
        var t := Ticked(s.tracker, now, s.gap);
        s.(clock := now, tracker := t, disk := AsState(t),
           flight := Some(Flight(if t.startedAt.Some? then t.startedAt.value else now,
                                 OpensSession(s.tracker, now, s.gap))))
      case Abandon => s.(flight := None)
      case Persist(block, readFails) =>
        Archive(s, s.flight.value, block, readFails).(
          flight := None,
          disk := AsState(s.tracker),
          persisted := s.persisted + [Exchange(s.flight.value.startedAt, block)])
      case Restart(loaded) => s.(tracker := loaded, flight := None)
      case ClockBack(to) => s.(clock := to)
  }

  ghost function Run(gap: int, clock: Instant, es: seq<Event>): State {
    if es == [] then Start(gap, clock) else Step(Run(gap, clock, es[..|es| - 1]), es[|es| - 1])
  }

  /** The blocks of one session, oldest first, joined by a blank line. */
  function Thread(accepted: seq<Exchange>, startedAt: Instant): seq<string> {
    if accepted == [] then []
    else
      var e := accepted[|accepted| - 1];
      Thread(accepted[..|accepted| - 1], startedAt) + (if e.startedAt == startedAt then [e.block] else [])
  }

  /** The file of one session is its header and its thread; a session without an accepted exchange has no file. */
  ghost predicate FileKept(s: State, startedAt: Instant) {
    var id, thread := SessionId(startedAt), Thread(s.accepted, startedAt);
    (thread != [] ==> id in s.notes && s.notes[id] == Header(id, startedAt) + Join("\n\n", thread))
  }

  /** Sessions in the archive are the tracker's own or older by at least one whole second. */
  ghost predicate Older(s: State) {
    forall i :: 0 <= i < |s.accepted| ==>
      && s.tracker.startedAt.Some?
      && (s.accepted[i].startedAt == s.tracker.startedAt.value
          || s.accepted[i].startedAt / SECOND < s.tracker.startedAt.value / SECOND)
  }

  ghost predicate FilesAccounted(s: State) {
    forall id :: id in s.notes ==> exists i :: 0 <= i < |s.accepted| && SessionId(s.accepted[i].startedAt) == id
  }

  ghost predicate TrackerSane(s: State) {
    && s.disk == AsState(s.tracker)
    && (s.tracker.id.Some? <==> s.tracker.startedAt.Some?)
    && (s.tracker.id.Some? <==> s.tracker.lastActivity.Some?)
    && (s.tracker.startedAt.Some? ==>
          s.tracker.id.value == SessionId(s.tracker.startedAt.value)
          && s.tracker.startedAt.value <= s.tracker.lastActivity.value <= s.clock)
    && (s.flight.Some? ==> s.tracker.startedAt == Some(s.flight.value.startedAt))
    && (s.flight.Some? && s.flight.value.isNew ==> forall i :: 0 <= i < |s.accepted| ==>
          s.accepted[i].startedAt != s.flight.value.startedAt)
  }

  ghost predicate Valid(s: State) {
    TrackerSane(s) && Older(s) && FilesAccounted(s) && forall t: Instant :: FileKept(s, t)
  }

  lemma {:induction false} ThreadEmptyIff(accepted: seq<Exchange>, t: Instant)
    ensures Thread(accepted, t) == [] <==> forall i :: 0 <= i < |accepted| ==> accepted[i].startedAt != t
  {
    if accepted != [] {
      var n := |accepted| - 1;
      ThreadEmptyIff(accepted[..n], t);
      assert forall i :: 0 <= i < n ==> accepted[..n][i] == accepted[i];
      if accepted[n].startedAt != t && Thread(accepted, t) != [] {
        var i :| 0 <= i < n && accepted[..n][i].startedAt == t;
        assert accepted[i].startedAt == t;
      }
    }
  }

  /** The new session's id was never used for a file. */
  lemma FreshId(s: State, f: Flight)
    requires TrackerSane(s) && Older(s) && FilesAccounted(s) && s.flight == Some(f)
    ensures SessionId(f.startedAt) in s.notes ==>
        exists i :: 0 <= i < |s.accepted| && s.accepted[i].startedAt == f.startedAt
    ensures forall i :: 0 <= i < |s.accepted| && SessionId(s.accepted[i].startedAt) == SessionId(f.startedAt) ==>
        s.accepted[i].startedAt == f.startedAt
  {
    forall i | 0 <= i < |s.accepted| && SessionId(s.accepted[i].startedAt) == SessionId(f.startedAt)
      ensures s.accepted[i].startedAt == f.startedAt
    {
      IdOrder(s.accepted[i].startedAt, f.startedAt);
    }
  }

  lemma ThreadGrows(accepted: seq<Exchange>, e: Exchange)
    ensures Thread(accepted + [e], e.startedAt) == Thread(accepted, e.startedAt) + [e.block]
    ensures Thread(accepted, e.startedAt) != [] ==>
              Join("\n\n", Thread(accepted + [e], e.startedAt)) ==
              Join("\n\n", Thread(accepted, e.startedAt)) + ("\n\n" + e.block)
  {
    var thread := Thread(accepted, e.startedAt);
    assert (accepted + [e])[..|accepted|] == accepted;
    assert (thread + [e.block])[..|thread|] == thread;
    if thread != [] {
      assert Join("\n\n", thread + [e.block]) == Join("\n\n", thread) + "\n\n" + e.block;
    }
  }

  lemma ArchiveOwnFile(s: State, f: Flight, block: string)
    requires Valid(s) && s.flight == Some(f)
    ensures FileKept(Archive(s, f, block, false), f.startedAt)
  {
    hide SessionId, Header, Stamp, Utf8Len, IdText, Iso;
    FreshId(s, f);
    ThreadEmptyIff(s.accepted, f.startedAt);
    assert FileKept(s, f.startedAt);
    ThreadGrows(s.accepted, Exchange(f.startedAt, block));
    hide Thread, Join, Valid, TrackerSane, Older, FilesAccounted;
    var t, id := Archive(s, f, block, false), SessionId(f.startedAt);
    if t.accepted != s.accepted {
      assert t.accepted == s.accepted + [Exchange(f.startedAt, block)];
      var thread := Thread(s.accepted, f.startedAt);
      if thread == [] { JoinOne(block); }
      assert (Header(id, f.startedAt) + Join("\n\n", thread)) + "\n\n" + block
          == Header(id, f.startedAt) + (Join("\n\n", thread) + ("\n\n" + block));
    }
  }

  lemma JoinOne(block: string)
    ensures Join("\n\n", [] + [block]) == block
  {
  }

  lemma ThreadOfOther(accepted: seq<Exchange>, e: Exchange, other: Instant)
    requires e.startedAt != other
    ensures Thread(accepted + [e], other) == Thread(accepted, other)
  {
    assert (accepted + [e])[..|accepted + [e]| - 1] == accepted;
  }

  lemma OtherIdDiffers(s: State, f: Flight, other: Instant)
    requires Valid(s) && s.flight == Some(f) && other != f.startedAt && Thread(s.accepted, other) != []
    ensures SessionId(other) != SessionId(f.startedAt)
  {
    hide SessionId, Header, Stamp, Utf8Len, IdText, Iso;
    FreshId(s, f);
    ThreadEmptyIff(s.accepted, other);
    var i :| 0 <= i < |s.accepted| && s.accepted[i].startedAt == other;
    assert SessionId(s.accepted[i].startedAt) == SessionId(other);
  }

  lemma ArchiveOtherFile(s: State, f: Flight, block: string, other: Instant)
    requires Valid(s) && s.flight == Some(f) && other != f.startedAt
    ensures FileKept(Archive(s, f, block, false), other)
  {
    hide SessionId, Header, Attempt, Thread, TrackerSane, Older, FilesAccounted;
    assert FileKept(s, other);
    ThreadOfOther(s.accepted, Exchange(f.startedAt, block), other);
    if Thread(s.accepted, other) != [] { OtherIdDiffers(s, f, other); }
  }

  lemma ArchiveStep(s: State, f: Flight, block: string)
    requires Valid(s) && s.flight == Some(f)
    ensures Valid(Archive(s, f, block, false).(flight := None))
  {
    hide SessionId, Header, Stamp, Utf8Len, IdText, Iso;
    var t := Archive(s, f, block, false);
    forall x: Instant ensures FileKept(t.(flight := None), x) {
      if x == f.startedAt { ArchiveOwnFile(s, f, block); } else { ArchiveOtherFile(s, f, block, x); }
      assert FileKept(t, x);
    }
    forall id | id in t.notes ensures exists i :: 0 <= i < |t.accepted| && SessionId(t.accepted[i].startedAt) == id {
      if id in s.notes {
        var i :| 0 <= i < |s.accepted| && SessionId(s.accepted[i].startedAt) == id;
        assert t.accepted[i] == s.accepted[i];
      } else {
        assert t.accepted[|s.accepted|].startedAt == f.startedAt;
      }
    }
  }

  lemma DispatchStep(s: State, now: Instant)
    requires Valid(s) && s.gap >= SAFE_GAP && s.flight.None? && now >= s.clock
    ensures Valid(Step(s, Dispatch(now)))
  {
    hide SessionId, Header, Stamp, Utf8Len, IdText, Iso;
    var t := Step(s, Dispatch(now));
    if OpensSession(s.tracker, now, s.gap) && s.tracker.startedAt.Some? {
      assert now - s.tracker.startedAt.value >= SECOND;
      assert s.tracker.startedAt.value / SECOND < now / SECOND;
    }
    forall x: Instant ensures FileKept(t, x) { assert FileKept(s, x); }
  }

  /** Reads fail only for missing files, and the clock is not set back. */
  predicate Harmless(e: Event) { (e.Persist? ==> !e.readFails) && !e.ClockBack? }

  lemma KeptStep(s: State, e: Event)
    requires Valid(s) && s.gap >= SAFE_GAP && Harmless(e)
    ensures Valid(Step(s, e)) && Step(s, e).gap == s.gap
  {
    hide SessionId, Header, Stamp, Utf8Len, IdText, Iso;
    if Enabled(s, e) {
      match e
      case Dispatch(now) => DispatchStep(s, now);
      case Abandon => forall x: Instant ensures FileKept(Step(s, e), x) { assert FileKept(s, x); }
      case Persist(block, readFails) =>
        ArchiveStep(s, s.flight.value, block);
        var archived := Archive(s, s.flight.value, block, false).(flight := None);
        assert Step(s, e) == archived.(disk := AsState(s.tracker), persisted := Step(s, e).persisted);
        forall x: Instant ensures FileKept(Step(s, e), x) { assert FileKept(archived, x); }
      case Restart(loaded) =>
        SaveLoadIsIdentity(s.tracker, loaded);
        forall x: Instant ensures FileKept(Step(s, e), x) { assert FileKept(s, x); }
    }
  }

  lemma {:induction false} RunKeeps(gap: int, clock: Instant, es: seq<Event>)
    requires gap >= SAFE_GAP
    requires forall i :: 0 <= i < |es| ==> Harmless(es[i])
    ensures Valid(Run(gap, clock, es)) && Run(gap, clock, es).gap == gap
  {
    hide SessionId, Header, Stamp, Utf8Len, IdText, Iso;
    if es == [] {
      forall x: Instant ensures FileKept(Start(gap, clock), x) { }
    } else {
      RunKeeps(gap, clock, es[..|es| - 1]);
      KeptStep(Run(gap, clock, es[..|es| - 1]), es[|es| - 1]);
    }
  }

  /** Over any run with a clock that is not set back, with restarts anywhere, every session file is its
      header followed by exactly the session's archived exchange blocks in order, joined by blank lines. */
  lemma SessionFilesComplete(gap: int, clock: Instant, es: seq<Event>, startedAt: Instant)
    requires gap >= SAFE_GAP
    requires forall i :: 0 <= i < |es| ==> Harmless(es[i])
    ensures var s := Run(gap, clock, es); var id, thread := SessionId(startedAt), Thread(s.accepted, startedAt);
      thread != [] ==> id in s.notes && s.notes[id] == Header(id, startedAt) + Join("\n\n", thread)
    ensures forall id :: id in Run(gap, clock, es).notes ==>
      exists i :: 0 <= i < |Run(gap, clock, es).accepted| && SessionId(Run(gap, clock, es).accepted[i].startedAt) == id
  {
    hide SessionId, Header, Stamp, Utf8Len, IdText, Iso;
    RunKeeps(gap, clock, es);
    assert FileKept(Run(gap, clock, es), startedAt);
  }

  // ---- nothing is refused that fits ----

  /** The whole text of every session's file is within the size that one write may have. */
  ghost predicate AllFit(xs: seq<Exchange>) { forall t: Instant :: Fits(xs, t) }

  ghost predicate Fits(xs: seq<Exchange>, t: Instant) {
    Utf8Len(Header(SessionId(t), t) + Join("\n\n", Thread(xs, t))) <= 1_048_576
  }

  lemma LongerThread(xs: seq<Exchange>, e: Exchange, t: Instant)
    ensures Thread(xs + [e], t) == Thread(xs, t) + (if e.startedAt == t then [e.block] else [])
    ensures Utf8Len(Join("\n\n", Thread(xs, t))) <= Utf8Len(Join("\n\n", Thread(xs + [e], t)))
  {
    assert (xs + [e])[..|xs|] == xs && Thread(xs, t) + [] == Thread(xs, t);
    if e.startedAt == t && Thread(xs, t) != [] {
      JoinLaws("\n\n", Thread(xs, t), [e.block], "");
      Utf8LenAdds(Join("\n\n", Thread(xs, t)) + "\n\n", Join("\n\n", [e.block]));
      Utf8LenAdds(Join("\n\n", Thread(xs, t)), "\n\n");
    }
  }

  lemma FitBefore(xs: seq<Exchange>, e: Exchange)
    requires AllFit(xs + [e])
    ensures AllFit(xs)
  {
    hide SessionId, Header, Utf8Len, Join, Thread;
    forall t: Instant ensures Fits(xs, t) {
      assert Fits(xs + [e], t);
      LongerThread(xs, e, t);
      Utf8LenAdds(Header(SessionId(t), t), Join("\n\n", Thread(xs, t)));
      Utf8LenAdds(Header(SessionId(t), t), Join("\n\n", Thread(xs + [e], t)));
    }
  }

  /** The vault takes the next exchange when the session's whole text fits. */
  lemma TakesWhatFits(s: State, f: Flight, block: string)
    requires Valid(s) && s.flight == Some(f)
    requires Fits(s.accepted + [Exchange(f.startedAt, block)], f.startedAt)
    ensures Archive(s, f, block, false).accepted == s.accepted + [Exchange(f.startedAt, block)]
  {
    hide SessionId, Header, Stamp, Utf8Len, IdText, Iso;
    var t := f.startedAt;
    var id, thread := SessionId(t), Thread(s.accepted, t);
    FreshId(s, f);
    ThreadEmptyIff(s.accepted, t);
    LongerThread(s.accepted, Exchange(t, block), t);
    assert FileKept(s, t);
    hide Thread, Valid, TrackerSane, Older, FilesAccounted, Join;
    JoinLaws("\n\n", thread, [block], block);
    if thread == [] {
      assert [] + [block] == [block];
    } else {
      var whole := s.notes[id] + "\n\n" + block;
      assert whole == Header(id, t) + (Join("\n\n", thread) + "\n\n" + block);
      Utf8LenAdds(s.notes[id] + "\n\n", block);
    }
  }

  lemma {:induction false} NothingIsRefused(gap: int, clock: Instant, es: seq<Event>)
    requires gap >= SAFE_GAP && (forall i :: 0 <= i < |es| ==> Harmless(es[i])) && AllFit(Run(gap, clock, es).persisted)
    ensures Run(gap, clock, es).accepted == Run(gap, clock, es).persisted
  {
    if es != [] {
      var s, e := Run(gap, clock, es[..|es| - 1]), es[|es| - 1];
      assert Run(gap, clock, es) == Step(s, e);
      RunKeeps(gap, clock, es[..|es| - 1]);
      hide Run, Valid, AllFit, Fits, Attempt, SessionId, Header, Loads;
      if e.Persist? && s.flight.Some? {
        var x := Exchange(s.flight.value.startedAt, e.block);
        assert Step(s, e).persisted == s.persisted + [x];
        FitBefore(s.persisted, x);
        NothingIsRefused(gap, clock, es[..|es| - 1]);
        FitsOne(s.persisted + [x], x.startedAt);
        TakesWhatFits(s, s.flight.value, e.block);
      } else {
        assert Step(s, e).persisted == s.persisted && Step(s, e).accepted == s.accepted;
        NothingIsRefused(gap, clock, es[..|es| - 1]);
      }
    }
  }

  lemma FitsOne(xs: seq<Exchange>, t: Instant)
    requires AllFit(xs)
    ensures Fits(xs, t)
  {
  }

  /** So when every session's whole text fits into one write, every exchange whose reply went out is in
      its session's file, in order. */
  lemma EveryExchangeIsFiled(gap: int, clock: Instant, es: seq<Event>, startedAt: Instant)
    requires gap >= SAFE_GAP && (forall i :: 0 <= i < |es| ==> Harmless(es[i])) && AllFit(Run(gap, clock, es).persisted)
    ensures var s := Run(gap, clock, es); var id, thread := SessionId(startedAt), Thread(s.persisted, startedAt);
      thread != [] ==> id in s.notes && s.notes[id] == Header(id, startedAt) + Join("\n\n", thread)
  {
    NothingIsRefused(gap, clock, es);
    SessionFilesComplete(gap, clock, es, startedAt);
  }

  /** Each reply that goes out adds its exchange, under the instant at which the tracker's session began. */
  lemma PersistRecords(gap: int, clock: Instant, es: seq<Event>, now: Instant, block: string, readFails: bool)
    requires var s := Run(gap, clock, es); s.flight.None? && now >= s.clock
    ensures var s, t := Run(gap, clock, es), Run(gap, clock, es + [Dispatch(now)]);
      var u := Run(gap, clock, es + [Dispatch(now)] + [Persist(block, readFails)]);
      t.tracker.startedAt.Some? ==>
        t.persisted == s.persisted && u.persisted == s.persisted + [Exchange(t.tracker.startedAt.value, block)]
  {
    hide SessionId, Header, Attempt, Loads, Ticked, OpensSession;
    RunSnoc(gap, clock, es, Dispatch(now));
    RunSnoc(gap, clock, es + [Dispatch(now)], Persist(block, readFails));
  }

  /** A restart at any moment rejoins the open session: the tracker it loads is the one that was lost
      with the process, nothing is on its way any more, and the files are as they were. */
  lemma RestartRejoins(gap: int, clock: Instant, es: seq<Event>, loaded: Tracker)
    requires gap >= SAFE_GAP && (forall i :: 0 <= i < |es| ==> Harmless(es[i]))
    requires Loads(Run(gap, clock, es).disk, loaded)
    ensures var s, t := Run(gap, clock, es), Run(gap, clock, es + [Restart(loaded)]);
      t.tracker == s.tracker && t.flight.None? && t.notes == s.notes && t.disk == s.disk && t.persisted == s.persisted
  {
    hide SessionId, Header, Stamp, Utf8Len, IdText, Iso, Loads;
    var s := Run(gap, clock, es);
    RunKeeps(gap, clock, es);
    SaveLoadIsIdentity(s.tracker, loaded);
    RunSnoc(gap, clock, es, Restart(loaded));
  }

  // ---- why the gap matters ----

  lemma {:induction false} Utf8Bound(s: string)
    ensures Utf8Len(s) <= 4 * |s|
  {
    if s != "" { Utf8Bound(s[..|s| - 1]); }
  }

  lemma ShortNoteFits(t: Instant, block: string)
    requires |block| <= 1000
    ensures Utf8Len(Header(SessionId(t), t) + block) <= MAX_WRITE_BYTES
  {
    var d := Utc(t);
    assert |SessionId(t)| < 100;
    assert |Header(SessionId(t), t)| < 1000;
    Utf8Bound(Header(SessionId(t), t) + block);
  }

  /** Below 999999 microseconds the forced header does destroy content: two exchanges are archived
      and the file holds only the second. */
  lemma ShortGapLosesExchange(gap: int, first: string, second: string)
    requires 0 <= gap < SAFE_GAP && |first| <= 1000 && |second| <= 1000
    ensures var a: Instant, b: Instant := MIN_INSTANT, MIN_INSTANT + gap + 1;
      var s := Run(gap, a, [Dispatch(a), Persist(first, false), Dispatch(b), Persist(second, false)]);
      s.accepted == [Exchange(a, first), Exchange(b, second)]
      && s.notes == map[SessionId(a) := Header(SessionId(b), b) + second]
  {
    hide SessionId, Header, Stamp, Utf8Len, IdText, Iso;
    var a: Instant, b: Instant := MIN_INSTANT, MIN_INSTANT + gap + 1;
    IdOrder(a, b);
    ShortNoteFits(a, first);
    ShortNoteFits(b, second);
    var es := [Dispatch(a), Persist(first, false), Dispatch(b), Persist(second, false)];
    assert es[..3][..2] == [Dispatch(a), Persist(first, false)];
    assert es[..3][..2][..1] == [Dispatch(a)] && es[..3][..2][..1][..0] == [];
    var s1 := Step(Start(gap, a), Dispatch(a));
    assert s1.flight == Some(Flight(a, true)) && s1.notes == map[] && s1.accepted == [];
    var s2 := Step(s1, Persist(first, false));
    assert s2.notes == map[SessionId(a) := Header(SessionId(a), a) + first];
    var s3 := Step(s2, Dispatch(b));
    assert s3.flight == Some(Flight(b, true)) && s3.notes == s2.notes && s3.accepted == s2.accepted;
    var s4 := Step(s3, Persist(second, false));
    assert s4.notes == map[SessionId(a) := Header(SessionId(b), b) + second];
    assert Run(gap, a, es[..3][..2][..1]) == s1;
    assert Run(gap, a, es[..3][..2]) == s2;
    assert Run(gap, a, es[..3]) == s3;
  }

  lemma RunSnoc(gap: int, clock: Instant, es: seq<Event>, e: Event)
    ensures Run(gap, clock, es + [e]) == Step(Run(gap, clock, es), e)
  {
    assert (es + [e])[..|es|] == es;
  }

  /** Whatever the gap, a clock that is set back can bring an id back: a message at the earlier time a
      moves the last activity there, and the next one at b opens a session with the id of the first.
      Both exchanges are archived and the file holds only the second. */
  lemma ClockBackLosesExchange(gap: int, a: Instant, b: Instant, first: string, second: string)
    requires gap >= 0 && b - a > gap && |first| <= 1000 && |second| <= 1000
    ensures exists es :: var s := Run(gap, b, es);
      s.accepted == [Exchange(b, first), Exchange(b, second)]
      && s.notes == map[SessionId(b) := Header(SessionId(b), b) + second]
  {
    hide SessionId, Header, Stamp, Utf8Len, IdText, Iso;
    var begin := [] + [Dispatch(b)] + [Persist(first, false)];
    var back := begin + [ClockBack(a)] + [Dispatch(a)] + [Abandon];
    FirstArchived(gap, b, first);
    var s := Run(gap, b, begin);
    hide Run;
    RunSnoc(gap, b, begin, ClockBack(a));
    RunSnoc(gap, b, begin + [ClockBack(a)], Dispatch(a));
    RunSnoc(gap, b, begin + [ClockBack(a)] + [Dispatch(a)], Abandon);
    var t := Run(gap, b, back);
    assert t.notes == s.notes && t.accepted == s.accepted && t.flight.None? && t.clock == a && t.gap == gap;
    RunSnoc(gap, b, back, Dispatch(b));
    RunSnoc(gap, b, back + [Dispatch(b)], Persist(second, false));
    SecondArchived(t, b, second);
    var es := back + [Dispatch(b)] + [Persist(second, false)];
    assert Run(gap, b, es).accepted == [Exchange(b, first), Exchange(b, second)];
  }

  lemma FirstArchived(gap: int, b: Instant, first: string)
    requires |first| <= 1000
    ensures var s := Run(gap, b, [] + [Dispatch(b)] + [Persist(first, false)]);
      s.gap == gap && s.clock == b && s.flight.None? && s.tracker.id.Some? && s.tracker.lastActivity == Some(b)
      && s.notes == map[SessionId(b) := Header(SessionId(b), b) + first] && s.accepted == [Exchange(b, first)]
  {
    hide SessionId, Header, Stamp, Utf8Len, IdText, Iso;
    ShortNoteFits(b, first);
    RunSnoc(gap, b, [], Dispatch(b));
    RunSnoc(gap, b, [] + [Dispatch(b)], Persist(first, false));
  }

  lemma SecondArchived(t: State, b: Instant, second: string)
    requires t.flight.None? && t.clock <= b && |second| <= 1000
    requires t.tracker.lastActivity.Some? && b - t.tracker.lastActivity.value > t.gap
    ensures var u := Step(Step(t, Dispatch(b)), Persist(second, false));
      u.notes == t.notes[SessionId(b) := Header(SessionId(b), b) + second] &&
      u.accepted == t.accepted + [Exchange(b, second)]
  {
    hide SessionId, Header, Stamp, Utf8Len, IdText, Iso;
    ShortNoteFits(b, second);
  }
}

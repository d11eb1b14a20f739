/** core/io/telegram_bridge.py, `_ChatSession`: sessions are runs of messages with no idle gap. */
module SessionTracker {
  import opened Wrappers
  import opened TextOrder
  import opened Clock

  datatype Tracker = Tracker(id: Option<string>, lastActivity: Option<Instant>, startedAt: Option<Instant>, count: nat)

  const Fresh := Tracker(None, None, None, 0)

  /** `now.strftime("tg-%Y%m%d-%H%M%S")`, with the year padded to four digits. */
  function IdText(d: DateTime): string
    requires d.Valid()
  {
    "tg-" + Field(d.year, 4, "", Field(d.month, 2, "", Field(d.day, 2, "-",
      Field(d.hour, 2, "", Field(d.minute, 2, "", Pad(d.second, 2))))))
  }

  function SessionId(t: Instant): string { IdText(Utc(t)) }

  /** The id shows the date and the time of day to the second, as the stamp does. */
  lemma IdShows(t: Instant)
    ensures var s := Stamp(t);
      |s| >= 19 &&
      SessionId(t) == "tg-" + s[..4] + s[5..7] + s[8..10] + "-" + s[11..13] + s[14..16] + s[17..19]
  {
    StampSlices(t);
    hide Utc, Stamp, Pad;
  }

  predicate OpensSession(s: Tracker, now: Instant, gap: int) {
    s.id.None? || s.lastActivity.None? || now - s.lastActivity.value > gap
  }

  function Ticked(s: Tracker, now: Instant, gap: int): Tracker {
    if OpensSession(s, now, gap) then Tracker(Some(SessionId(now)), Some(now), Some(now), 1)
    else s.(lastActivity := Some(now), count := s.count + 1)
  }

  /** The "session" object of the state file; absent texts are JSON nulls. */
  datatype Saved = Saved(id: Option<string>, startedAt: Option<string>, lastActivity: Option<string>, count: nat)

  function StampOf(t: Option<Instant>): Option<string> { if t.None? then None else Some(Stamp(t.value)) }

  function AsState(s: Tracker): Saved { Saved(s.id, StampOf(s.startedAt), StampOf(s.lastActivity), s.count) }

  /** `datetime.fromisoformat` of a text that `isoformat` wrote. */
  ghost predicate ParsesTo(text: string, t: Instant) { text == Stamp(t) }

  ghost predicate LoadsTo(text: Option<string>, t: Option<Instant>) {
    if text.None? then t.None? else t.Some? && ParsesTo(text.value, t.value)
  }

  /** A fresh process reading a saved tracker: null fields leave the fresh value. */
  ghost predicate Loads(saved: Saved, s: Tracker) {
    && s.id == saved.id && s.count == saved.count
    && LoadsTo(saved.startedAt, s.startedAt) && LoadsTo(saved.lastActivity, s.lastActivity)
  }

  /** Saving and loading the tracker gives the same tracker back, and nothing else. */
  lemma SaveLoadIsIdentity(s: Tracker, loaded: Tracker)
    ensures Loads(AsState(s), loaded) <==> loaded == s
  {
    hide Stamp;
    if s.startedAt.Some? && loaded.startedAt.Some? { StampOrder(s.startedAt.value, loaded.startedAt.value); }
    if s.lastActivity.Some? && loaded.lastActivity.Some? {
      StampOrder(s.lastActivity.value, loaded.lastActivity.value);
    }
  }

  // ---- ids sort like the seconds they name ----

  predicate SecondsLess(a: DateTime, b: DateTime) { FieldsLess(a.(micro := 0), b.(micro := 0)) }

  lemma IdFieldsOrder(a: DateTime, b: DateTime)
    requires a.Valid() && b.Valid() && SecondsLess(a, b)
    ensures Less(IdText(a), IdText(b))
  {
    assert Pow10(1) == 10 && Pow10(2) == 100 && Pow10(3) == 1000 && Pow10(4) == 10000;
    var sa, sb := Pad(a.second, 2), Pad(b.second, 2);
    var ma, mb := Field(a.minute, 2, "", sa), Field(b.minute, 2, "", sb);
    var ha, hb := Field(a.hour, 2, "", ma), Field(b.hour, 2, "", mb);
    var da, db := Field(a.day, 2, "-", ha), Field(b.day, 2, "-", hb);
    var oa, ob := Field(a.month, 2, "", da), Field(b.month, 2, "", db);
    if a.year == b.year {
      if a.month == b.month {
        if a.day == b.day {
          if a.hour == b.hour {
            if a.minute == b.minute {
              PadOrder(a.second, b.second, 2, "", "");
              assert sa + "" == sa && sb + "" == sb;
            }
            FieldOrder(a.minute, b.minute, 2, "", sa, sb);
          }
          FieldOrder(a.hour, b.hour, 2, "", ma, mb);
        }
        FieldOrder(a.day, b.day, 2, "-", ha, hb);
      }
      FieldOrder(a.month, b.month, 2, "", da, db);
    }
    FieldOrder(a.year, b.year, 4, "", oa, ob);
    LessAfterPrefix("tg-", Field(a.year, 4, "", oa), Field(b.year, 4, "", ob));
  }

  lemma SecondsOrder(a: DateTime, b: DateTime)
    requires a.Valid() && b.Valid()
    ensures SecondsLess(a, b) ==> a.Micros() / SECOND < b.Micros() / SECOND
    ensures SecondsLess(a, b) || SecondsLess(b, a) || a.(micro := 0) == b.(micro := 0)
  {
    WholeSeconds(a);
    WholeSeconds(b);
    var x, y := a.(micro := 0), b.(micro := 0);
    WholeSeconds(x);
    WholeSeconds(y);
    if SecondsLess(a, b) { FieldsOrder(x, y); }
  }

  /** Session ids compare as texts exactly like the whole seconds of their clock readings. */
  lemma IdOrder(a: Instant, b: Instant)
    ensures Less(SessionId(a), SessionId(b)) <==> a / SECOND < b / SECOND
    ensures SessionId(a) == SessionId(b) <==> a / SECOND == b / SECOND
  {
    var x, y := Utc(a), Utc(b);
    SecondsOrder(x, y);
    SecondsOrder(y, x);
    LessIrreflexive(SessionId(a));
    if SecondsLess(x, y) { IdFieldsOrder(x, y); LessAsymmetric(SessionId(a), SessionId(b)); }
    else if SecondsLess(y, x) { IdFieldsOrder(y, x); LessAsymmetric(SessionId(b), SessionId(a)); }
    else { WholeSeconds(x); WholeSeconds(y); }
  }

  // ---- the partition of a whole time line ----


  /** Reference definition: message i opens a session iff it is the first or comes after a gap. */
  predicate Boundary(times: seq<Instant>, gap: int, i: nat)
    requires i < |times|
  {
    i == 0 || times[i] - times[i - 1] > gap
  }

  /** The message that opened the session message i belongs to. */
  function Opener(times: seq<Instant>, gap: int, i: nat): (j: nat)
    requires i < |times|
    ensures j <= i && Boundary(times, gap, j)
    ensures forall k :: j < k <= i ==> !Boundary(times, gap, k)
  {
    if Boundary(times, gap, i) then i else Opener(times, gap, i - 1)
  }

  /** The tracker after ticking through the time line. A process that dies between two ticks hands the
      next one the same tracker through the state file (SaveLoadIsIdentity). */
  function Track(times: seq<Instant>, gap: int): Tracker {
    if times == [] then Fresh else Ticked(Track(times[..|times| - 1], gap), times[|times| - 1], gap)
  }

  /** What online tracking knows after each message is what splitting the whole line says. */
  lemma {:induction false} TrackSplits(times: seq<Instant>, gap: int)
    requires times != []
    ensures var n := |times| - 1; var j := Opener(times, gap, n);
      Track(times, gap) == Tracker(Some(SessionId(times[j])), Some(times[n]), Some(times[j]), n - j + 1)
    ensures OpensSession(Track(times[..|times| - 1], gap), times[|times| - 1], gap) <==>
        Boundary(times, gap, |times| - 1)
  {
    hide SessionId;
    var n := |times| - 1;
    if n > 0 {
      var before := times[..n];
      TrackSplits(before, gap);
      OpenerOfPrefix(times, gap, n - 1);
    }
  }

  lemma {:induction false} OpenerOfPrefix(times: seq<Instant>, gap: int, i: nat)
    requires i < |times| - 1
    ensures Opener(times[..|times| - 1], gap, i) == Opener(times, gap, i)
  {
    if !Boundary(times, gap, i) { OpenerOfPrefix(times, gap, i - 1); }
  }

  /** The session id message i was filed under. */
  function IdAt(times: seq<Instant>, gap: int, i: nat): string
    requires i < |times|
  {
    var t := Track(times[..i + 1], gap);
    if t.id.Some? then t.id.value else ""
  }

  lemma IdAtIsOpeners(times: seq<Instant>, gap: int, i: nat)
    requires i < |times|
    ensures IdAt(times, gap, i) == SessionId(times[Opener(times, gap, i)])
  {
    hide SessionId;
    var head := times[..i + 1];
    TrackSplits(head, gap);
    OpenerInPrefix(times, gap, i, i + 1);
  }

  lemma {:induction false} OpenerInPrefix(times: seq<Instant>, gap: int, i: nat, n: nat)
    requires i < n <= |times|
    ensures Opener(times[..n], gap, i) == Opener(times, gap, i)
  {
    if !Boundary(times, gap, i) { OpenerInPrefix(times, gap, i - 1, n); }
  }

  lemma {:induction false} OpenersAgree(times: seq<Instant>, gap: int, i: nat, j: nat)
    requires i <= j < |times|
    ensures Opener(times, gap, i) == Opener(times, gap, j) || (i < Opener(times, gap, j) <= j)
  {
    if i < j && !Boundary(times, gap, j) { OpenersAgree(times, gap, i, j - 1); }
  }

  /** The smallest idle gap for which distinct sessions always get distinct ids. */
  const SAFE_GAP := 999_999

  /** With a non-decreasing clock and a gap of at least 999999 microseconds, two messages carry
      the same session id iff no gap lies between them, and otherwise the later id sorts later. */
  lemma SameSessionIff(times: seq<Instant>, gap: int, i: nat, j: nat)
    requires (forall k, l :: 0 <= k <= l < |times| ==> times[k] <= times[l]) && gap >= 999_999 && i <= j < |times|
    ensures IdAt(times, gap, i) == IdAt(times, gap, j) <==> forall k :: i < k <= j ==> times[k] - times[k - 1] <= gap
    ensures IdAt(times, gap, i) == IdAt(times, gap, j) || Less(IdAt(times, gap, i), IdAt(times, gap, j))
  {
    IdAtIsOpeners(times, gap, i);
    IdAtIsOpeners(times, gap, j);
    OpenersAgree(times, gap, i, j);
    var a, b := Opener(times, gap, i), Opener(times, gap, j);
    if a != b {
      assert Boundary(times, gap, b) && times[b] - times[b - 1] > gap;
      assert times[a] <= times[b - 1];
      assert times[a] / SECOND < times[b] / SECOND;
      IdOrder(times[a], times[b]);
      LessIrreflexive(IdAt(times, gap, i));
    } else {
      forall k | i < k <= j ensures times[k] - times[k - 1] <= gap { assert !Boundary(times, gap, k); }
    }
  }

  /** Below that gap the ids collide: the second message opens a new session with the same id. */
  lemma ShortGapReusesIds(gap: int)
    requires 0 <= gap < SAFE_GAP
    ensures exists a: Instant, b: Instant ::
              a <= b && Boundary([a, b], gap, 1) && IdAt([a, b], gap, 0) == IdAt([a, b], gap, 1)
  {
    var a: Instant := MIN_INSTANT;
    var b: Instant := MIN_INSTANT + gap + 1;
    IdAtIsOpeners([a, b], gap, 0);
    IdAtIsOpeners([a, b], gap, 1);
    assert Opener([a, b], gap, 0) == 0 && Opener([a, b], gap, 1) == 1;
    IdOrder(a, b);
  }

  /** `_ChatSession` */
  class ChatSession {
    const gap: int
    var id: Option<string>
    var lastActivity: Option<Instant>
    var startedAt: Option<Instant>
    var count: nat

    ghost function View(): Tracker
      reads this
    {
      Tracker(id, lastActivity, startedAt, count)
    }

    constructor (gap: int)
      ensures View() == Fresh && this.gap == gap
    {
      this.gap := gap;
      id, lastActivity, startedAt, count := None, None, None, 0;
    }

    method Tick(now: Instant) returns (session: string, isNew: bool)
      modifies this
      ensures isNew == OpensSession(old(View()), now, gap)
      ensures View() == Ticked(old(View()), now, gap)
      ensures id == Some(session)
    {
      isNew := id.None? || lastActivity.None? || now - lastActivity.value > gap;
      if isNew {
        id := Some(SessionId(now));
        startedAt, count := Some(now), 0;
      }
      lastActivity := Some(now);
      count := count + 1;
      session := id.value;
    }
  }
}

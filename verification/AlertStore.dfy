/** core/alerts/store.py: the append-only alert log and its two queries. Both queries compare
    ISO timestamp texts. */
module AlertStore {
  import opened Clock
  import opened Tally

  datatype Delivery = Silent | Digest | Dashboard | Telegram

  datatype Reason =
    | DuplicateWithin24h | BelowMinScore | TopicMuted | TopicMuteWindowActive | DigestOnlyMode
    | TelegramNotEnabled | QuietHours | MaxPerDayCap | PushTopicOverride | DefaultRoute

  /** A dedupe key: what the caller gave, or SHA-1 cut to 24 digits of a text. The hash is taken as
      collision-free and never equal to a given key. */
  datatype Key = Given(text: string) | Derived(text: string)

  /** One row of the `alerts` table. The column `created_at` holds Stamp(at). */
  datatype Row = Row(key: Key, delivery: Delivery, reason: Reason, at: Instant)

  /** `datetime.now(UTC) - timedelta(hours=24)`; clamped on the very first day of the calendar. */
  function Cutoff(now: Instant): (c: Instant)
    ensures c <= now
    ensures now >= MIN_INSTANT + DAY ==> c == now - DAY
  {
    if now - DAY >= MIN_INSTANT then now - DAY else MIN_INSTANT
  }

  /** `SELECT 1 FROM alerts WHERE dedupe_key = ? AND created_at >= ?`: a comparison of texts. */
  predicate SeenText(rows: seq<Row>, key: Key, cutoff: string) {
    exists i :: 0 <= i < |rows| && rows[i].key == key && AtOrAfter(Stamp(rows[i].at), cutoff)
  }

  /** `delivery = 'telegram' AND created_at >= ?`: a comparison of texts. */
  function PushSinceText(since: string): Row -> bool {
    (r: Row) => r.delivery == Telegram && AtOrAfter(Stamp(r.at), since)
  }

  /** What the dedupe query is meant to ask. */
  predicate Seen(rows: seq<Row>, key: Key, cutoff: Instant) {
    exists i :: 0 <= i < |rows| && rows[i].key == key && rows[i].at >= cutoff
  }

  /** What the daily count is meant to count. */
  function PushSince(since: Instant): Row -> bool {
    (r: Row) => r.delivery == Telegram && r.at >= since
  }

  /** Telegram rows of one UTC day. */
  function PushedOn(day: int): Row -> bool {
    (r: Row) => r.delivery == Telegram && DayOf(r.at) == day
  }

  /** Rows that were not silent, carry the key and fall into the closed 24 hours from `from`. */
  function FiredIn(key: Key, from: int): Row -> bool {
    (r: Row) => r.key == key && r.delivery != Silent && from <= r.at <= from + DAY
  }

  /** The text queries select exactly the rows they are meant to select. */
  lemma TextQueriesAreChronological(rows: seq<Row>, key: Key, bound: Instant)
    ensures SeenText(rows, key, Stamp(bound)) <==> Seen(rows, key, bound)
    ensures Count(rows, PushSinceText(Stamp(bound))) == Count(rows, PushSince(bound))
  {
    forall i | 0 <= i < |rows| ensures AtOrAfter(Stamp(rows[i].at), Stamp(bound)) <==> rows[i].at >= bound {
      StampOrder(rows[i].at, bound);
    }
    CountWeaker(rows, PushSinceText(Stamp(bound)), PushSince(bound));
    CountWeaker(rows, PushSince(bound), PushSinceText(Stamp(bound)));
  }

  /** The daily count never misses a push of the day on which it was asked, or of a later day. */
  lemma CountCoversDay(rows: seq<Row>, since: Instant, day: int)
    requires since <= day * DAY
    ensures Count(rows, PushedOn(day)) <= Count(rows, PushSince(since))
  {
    forall i | 0 <= i < |rows| && PushedOn(day)(rows[i]) ensures PushSince(since)(rows[i]) {
      DayCut(rows[i].at, day);
    }
    CountWeaker(rows, PushedOn(day), PushSince(since));
  }

  class Store {
    var rows: seq<Row>

    constructor ()
      ensures rows == []
    {
      rows := [];
    }

    method Insert(key: Key, delivery: Delivery, reason: Reason, now: Instant) returns (row: Row)
      modifies this
      ensures row == Row(key, delivery, reason, now)
      ensures rows == old(rows) + [row]
    {
      row := Row(key, delivery, reason, now);
      rows := rows + [row];
    }

    /** True exactly when a row with this key was recorded in the last 24 hours, the bound included. */
    method AlreadySeen(key: Key, now: Instant) returns (seen: bool)
      ensures seen <==> Seen(rows, key, Cutoff(now))
    {
      TextQueriesAreChronological(rows, key, Cutoff(now));
      seen := SeenText(rows, key, Stamp(Cutoff(now)));
    }

    /** When no row is dated after today, this is the number of today's pushes. */
    method CountPushesToday(now: Instant) returns (n: nat)
      ensures n == Count(rows, PushSince(StartOfDay(now)))
      ensures (forall i :: 0 <= i < |rows| ==> DayOf(rows[i].at) <= DayOf(now)) ==>
          n == Count(rows, PushedOn(DayOf(now)))
    {
      MidnightStamp(now);
      TextQueriesAreChronological(rows, Given(""), StartOfDay(now));
      n := Count(rows, PushSinceText(Iso(Midnight(Utc(now)))));
      CountCoversDay(rows, StartOfDay(now), DayOf(now));
      if forall i :: 0 <= i < |rows| ==> DayOf(rows[i].at) <= DayOf(now) {
        forall i | 0 <= i < |rows| && PushSince(StartOfDay(now))(rows[i]) ensures PushedOn(DayOf(now))(rows[i]) {
          DayCut(rows[i].at, DayOf(now));
        }
        CountWeaker(rows, PushSince(StartOfDay(now)), PushedOn(DayOf(now)));
      }
    }
  }
}

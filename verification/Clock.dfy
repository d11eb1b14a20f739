/** The UTC clock: instants are whole microseconds, and every table stores them as the text
    `datetime.isoformat()` prints. The calendar is Python's proleptic Gregorian one. */
module Clock {
  import opened TextOrder

  const SECOND := 1_000_000
  const DAY := 86_400_000_000

  predicate Leap(y: int) { y % 4 == 0 && (y % 100 != 0 || y % 400 == 0) }

  function DaysInYear(y: int): int { if Leap(y) then 366 else 365 }

  function DaysInMonth(y: int, m: int): int {
    if m == 2 then (if Leap(y) then 29 else 28)
    else if m == 4 || m == 6 || m == 9 || m == 11 then 30
    else 31
  }

  function DaysBeforeYear(y: int): int {
    (y - 1) * 365 + (y - 1) / 4 - (y - 1) / 100 + (y - 1) / 400
  }

  function DaysBeforeMonth(y: int, m: int): int
    requires 1 <= m <= 13
  {
    if m == 1 then 0 else DaysBeforeMonth(y, m - 1) + DaysInMonth(y, m - 1)
  }

  datatype DateTime = DateTime(year: int, month: int, day: int, hour: int, minute: int, second: int, micro: int) {
    predicate Valid() {
      && 1 <= year <= 9999 && 1 <= month <= 12 && 1 <= day <= DaysInMonth(year, month)
      && 0 <= hour < 24 && 0 <= minute < 60 && 0 <= second < 60 && 0 <= micro < SECOND
    }

    /** The proleptic ordinal of the date: 1 January of year 1 is day 1. */
    function Ordinal(): int
      requires Valid()
    {
      DaysBeforeYear(year) + DaysBeforeMonth(year, month) + day
    }

    function SecondOfDay(): int { hour * 3600 + minute * 60 + second }

    /** Microseconds on one time line. */
    function Micros(): int
      requires Valid()
    {
      (Ordinal() * 86_400 + SecondOfDay()) * 1_000_000 + micro
    }
  }

  const MIN_INSTANT := DAY
  const MAX_INSTANT := 3_652_060 * DAY - 1

  /** Every instant a Python datetime can hold, 0001-01-01 to 9999-12-31. */
  type Instant = t: int | MIN_INSTANT <= t <= MAX_INSTANT witness MIN_INSTANT

  // ---- reading a date off an ordinal ----

  lemma Quotients(y: int)
    ensures y / 4 == (y - 1) / 4 + (if y % 4 == 0 then 1 else 0)
    ensures y / 100 == (y - 1) / 100 + (if y % 100 == 0 then 1 else 0)
    ensures y / 400 == (y - 1) / 400 + (if y % 400 == 0 then 1 else 0)
  {
  }

  lemma YearStep(y: int)
    ensures DaysBeforeYear(y + 1) == DaysBeforeYear(y) + DaysInYear(y)
  {
    Quotients(y);
    Divisors(y);
  }

  lemma Hundreds(q: int)
    ensures (100 * q) % 100 == 0
  {
  }

  lemma Fours(q: int)
    ensures (4 * q) % 4 == 0
  {
  }

  lemma Divisors(y: int)
    ensures y % 400 == 0 ==> y % 100 == 0
    ensures y % 100 == 0 ==> y % 4 == 0
  {
    if y % 400 == 0 { Hundreds(4 * (y / 400)); }
    if y % 100 == 0 { Fours(25 * (y / 100)); }
  }

  lemma {:induction false} YearsGrow(y: int, z: int)
    requires y < z
    ensures DaysBeforeYear(y) + DaysInYear(y) <= DaysBeforeYear(z)
    decreases z - y
  {
    YearStep(z - 1);
    if y < z - 1 { YearsGrow(y, z - 1); }
  }

  lemma {:induction false} MonthsGrow(y: int, m: int, n: int)
    requires 1 <= m < n <= 13
    ensures DaysBeforeMonth(y, m) + DaysInMonth(y, m) <= DaysBeforeMonth(y, n)
    decreases n - m
  {
    if m < n - 1 { MonthsGrow(y, m, n - 1); }
  }

  lemma MonthsFillYear(y: int)
    ensures DaysBeforeMonth(y, 13) == DaysInYear(y)
  {
    assert DaysBeforeMonth(y, 2) == 31;
    assert DaysBeforeMonth(y, 3) == 31 + DaysInMonth(y, 2);
    assert DaysBeforeMonth(y, 5) == DaysBeforeMonth(y, 3) + 61;
    assert DaysBeforeMonth(y, 7) == DaysBeforeMonth(y, 5) + 61;
    assert DaysBeforeMonth(y, 9) == DaysBeforeMonth(y, 7) + 62;
    assert DaysBeforeMonth(y, 11) == DaysBeforeMonth(y, 9) + 61;
    assert DaysBeforeMonth(y, 13) == DaysBeforeMonth(y, 11) + 61;
  }

  function FindYear(ordinal: int, y: int): (r: int)
    requires 1 <= y && DaysBeforeYear(y) < ordinal
    ensures y <= r && DaysBeforeYear(r) < ordinal <= DaysBeforeYear(r + 1)
    decreases ordinal - DaysBeforeYear(y)
  {
    YearStep(y);
    if ordinal <= DaysBeforeYear(y + 1) then y else FindYear(ordinal, y + 1)
  }

  function FindMonth(y: int, dayOfYear: int, m: int): (r: int)
    requires 1 <= m <= 12 && DaysBeforeMonth(y, m) < dayOfYear <= DaysInYear(y)
    ensures m <= r <= 12 && DaysBeforeMonth(y, r) < dayOfYear <= DaysBeforeMonth(y, r + 1)
    decreases 12 - m
  {
    MonthsFillYear(y);
    if dayOfYear <= DaysBeforeMonth(y, m + 1) then m else FindMonth(y, dayOfYear, m + 1)
  }

  /** The calendar reading of an instant; it inverts Micros. */
  function Utc(t: Instant): (d: DateTime)
    ensures d.Valid() && d.Micros() == t
  {
    var ordinal, rest := t / DAY, t % DAY;
    assert DaysBeforeYear(1) == 0;
    var y := FindYear(ordinal, 1);
    YearStep(y);
    var dayOfYear := ordinal - DaysBeforeYear(y);
    var m := FindMonth(y, dayOfYear, 1);
    assert y <= 9999 by {
      assert DaysBeforeYear(10000) == 3_652_059;
      if y > 9999 && y != 10000 { YearsGrow(10000, y); }
    }
    var secs := rest / SECOND;
    DateTime(y, m, dayOfYear - DaysBeforeMonth(y, m), secs / 3600, secs / 60 % 60, secs % 60, rest % SECOND)
  }

  // ---- chronological order of the fields ----

  /** The fields compared left to right. */
  predicate FieldsLess(a: DateTime, b: DateTime) {
    a.year < b.year || (a.year == b.year && (
      a.month < b.month || (a.month == b.month && (
        a.day < b.day || (a.day == b.day && (
          a.hour < b.hour || (a.hour == b.hour && (
            a.minute < b.minute || (a.minute == b.minute && (
              a.second < b.second || (a.second == b.second && a.micro < b.micro)))))))))))
  }

  lemma DateFieldsOrder(a: DateTime, b: DateTime)
    requires a.Valid() && b.Valid()
    requires a.year < b.year || (a.year == b.year && (a.month < b.month || (a.month == b.month && a.day < b.day)))
    ensures a.Ordinal() < b.Ordinal()
  {
    if a.year < b.year {
      YearsGrow(a.year, b.year);
      MonthsFillYear(a.year);
      MonthsGrow(a.year, a.month, 13);
      if b.month > 1 { MonthsGrow(b.year, 1, b.month); }
    } else if a.month < b.month {
      MonthsGrow(a.year, a.month, b.month);
    }
  }

  lemma WholeSeconds(d: DateTime)
    requires d.Valid()
    ensures 0 <= d.SecondOfDay() < 86_400
    ensures d.Micros() / SECOND == d.Ordinal() * 86_400 + d.SecondOfDay()
    ensures DayOf(d.Micros()) == d.Ordinal()
  {
    var secs := d.Ordinal() * 86_400 + d.SecondOfDay();
    assert d.Micros() == secs * 1_000_000 + d.micro;
  }

  lemma FieldsOrder(a: DateTime, b: DateTime)
    requires a.Valid() && b.Valid() && FieldsLess(a, b)
    ensures a.Micros() < b.Micros()
  {
    if a.year != b.year || a.month != b.month || a.day != b.day { DateFieldsOrder(a, b); }
    WholeSeconds(a);
    WholeSeconds(b);
  }

  // ---- isoformat() ----

  /** `.ffffff+00:00`, or only `+00:00` when the microsecond is 0. */
  function IsoTail(micro: nat): string {
    if micro == 0 then "+00:00" else "." + Pad(micro, 6) + "+00:00"
  }

  function Iso(d: DateTime): string
    requires d.Valid()
  {
    Pad(d.year, 4) + ("-" + (Pad(d.month, 2) + ("-" + (Pad(d.day, 2) + ("T" + (Pad(d.hour, 2) + (":"
      + (Pad(d.minute, 2) + (":" + (Pad(d.second, 2) + IsoTail(d.micro)))))))))))
  }

  lemma IsoTailOrder(a: nat, b: nat)
    requires a < b < SECOND
    ensures Less(IsoTail(a), IsoTail(b))
  {
    if a == 0 {
      assert IsoTail(a)[0] == '+' && IsoTail(b)[0] == '.';
    } else {
      PadOrder(a, b, 6, "+00:00", "+00:00");
      assert IsoTail(a) == "." + (Pad(a, 6) + "+00:00") && IsoTail(b) == "." + (Pad(b, 6) + "+00:00");
      LessAfterPrefix(".", Pad(a, 6) + "+00:00", Pad(b, 6) + "+00:00");
    }
  }

  /** One zero-padded field followed by a separator and the rest of the text. */
  function Field(n: nat, w: nat, sep: string, rest: string): string { Pad(n, w) + (sep + rest) }

  lemma FieldOrder(m: nat, n: nat, w: nat, sep: string, x: string, y: string)
    requires m < Pow10(w) && n < Pow10(w)
    requires m < n || (m == n && Less(x, y))
    ensures Less(Field(m, w, sep, x), Field(n, w, sep, y))
  {
    if m < n {
      PadOrder(m, n, w, sep + x, sep + y);
    } else {
      LessAfterPrefix(sep, x, y);
      LessAfterPrefix(Pad(m, w), sep + x, sep + y);
    }
  }

  function IsoFromSecond(d: DateTime): string requires d.Valid() { Field(d.second, 2, "", IsoTail(d.micro)) }
  function IsoFromHour(d: DateTime): string
    requires d.Valid()
  { Field(d.hour, 2, ":", Field(d.minute, 2, ":", IsoFromSecond(d))) }

  lemma IsoShape(d: DateTime)
    requires d.Valid()
    ensures Iso(d) == Field(d.year, 4, "-", Field(d.month, 2, "-", Field(d.day, 2, "T", IsoFromHour(d))))
  {
    assert "" + IsoTail(d.micro) == IsoTail(d.micro);
  }

  lemma IsoFieldsOrder(a: DateTime, b: DateTime)
    requires a.Valid() && b.Valid() && FieldsLess(a, b)
    ensures Less(Iso(a), Iso(b))
  {
    IsoShape(a); IsoShape(b);
    assert Pow10(1) == 10 && Pow10(2) == 100 && Pow10(3) == 1000 && Pow10(4) == 10000;
    if a.micro < b.micro { IsoTailOrder(a.micro, b.micro); }
    var sa, sb := IsoFromSecond(a), IsoFromSecond(b);
    var ma, mb := Field(a.minute, 2, ":", sa), Field(b.minute, 2, ":", sb);
    var ha, hb := IsoFromHour(a), IsoFromHour(b);
    var da, db := Field(a.day, 2, "T", ha), Field(b.day, 2, "T", hb);
    var oa, ob := Field(a.month, 2, "-", da), Field(b.month, 2, "-", db);
    if a.year < b.year { FieldOrder(a.year, b.year, 4, "-", oa, ob); return; }
    if a.month == b.month {
      if a.day == b.day {
        if a.hour == b.hour {
          if a.minute == b.minute { FieldOrder(a.second, b.second, 2, "", IsoTail(a.micro), IsoTail(b.micro)); }
          FieldOrder(a.minute, b.minute, 2, ":", sa, sb);
        }
        FieldOrder(a.hour, b.hour, 2, ":", ma, mb);
      }
      FieldOrder(a.day, b.day, 2, "T", ha, hb);
    }
    FieldOrder(a.month, b.month, 2, "-", da, db);
    FieldOrder(a.year, b.year, 4, "-", oa, ob);
  }

  /** The text stored in `created_at`, `occurred_at`, `fetched_at`, ... */
  function Stamp(t: Instant): string { Iso(Utc(t)) }

  lemma StampGrows(a: Instant, b: Instant)
    requires a < b
    ensures Less(Stamp(a), Stamp(b))
  {
    var x, y := Utc(a), Utc(b);
    if FieldsLess(y, x) { FieldsOrder(y, x); }
    assert FieldsLess(x, y) || x == y;
    IsoFieldsOrder(x, y);
  }

  /** Comparing two stored stamps as text is comparing the instants, in both directions and for
      equality, although the fraction is left out at microsecond 0. */
  lemma StampOrder(a: Instant, b: Instant)
    ensures Less(Stamp(a), Stamp(b)) <==> a < b
    ensures Stamp(a) == Stamp(b) <==> a == b
  {
    if a < b { StampGrows(a, b); LessIrreflexive(Stamp(a)); }
    if b < a { StampGrows(b, a); LessAsymmetric(Stamp(b), Stamp(a)); LessIrreflexive(Stamp(a)); }
    if a == b { LessIrreflexive(Stamp(a)); }
  }

  /** A SQL `column >= ?` on two stamps. */
  predicate AtOrAfter(column: string, bound: string) { !Less(column, bound) }

  // ---- days ----

  function DayOf(t: int): int { t / DAY }

  /** `now.replace(hour=0, minute=0, second=0, microsecond=0)`. */
  function Midnight(d: DateTime): DateTime {
    d.(hour := 0, minute := 0, second := 0, micro := 0)
  }

  function StartOfDay(t: Instant): (s: Instant)
    ensures s == DayOf(t) * DAY
  {
    t / DAY * DAY
  }

  /** The text the budget and the alert store compare against is the stamp of the day's first instant. */
  lemma MidnightStamp(t: Instant)
    ensures Midnight(Utc(t)).Valid()
    ensures Midnight(Utc(t)).Micros() == StartOfDay(t)
    ensures Iso(Midnight(Utc(t))) == Stamp(StartOfDay(t))
  {
    var d := Utc(t);
    var m := Midnight(d);
    WholeSeconds(d);
    var u := Utc(StartOfDay(t));
    if FieldsLess(m, u) { FieldsOrder(m, u); }
    if FieldsLess(u, m) { FieldsOrder(u, m); }
    assert m == u;
  }

  lemma DayCut(t: int, day: int)
    ensures DayOf(t) >= day <==> t >= day * DAY
  {
    assert t == t / DAY * DAY + t % DAY;
  }

  // ---- what the texts show ----

  /** Where the fields stand in the stamp. */
  lemma StampSlices(t: Instant)
    ensures var d, s := Utc(t), Stamp(t);
      && |s| >= 19 && s[4] == s[7] == '-' && s[10] == 'T' && s[13] == s[16] == ':'
      && s[..4] == Pad(d.year, 4) && s[5..7] == Pad(d.month, 2) && s[8..10] == Pad(d.day, 2)
      && s[11..13] == Pad(d.hour, 2) && s[14..16] == Pad(d.minute, 2) && s[17..19] == Pad(d.second, 2)
      && s[19..] == IsoTail(d.micro)
  {
    var d, s := Utc(t), Stamp(t);
    var tail := IsoTail(d.micro);
    var f := Pad(d.second, 2) + tail;
    var e := Pad(d.minute, 2) + (":" + f);
    var c := Pad(d.hour, 2) + (":" + e);
    var b := Pad(d.day, 2) + ("T" + c);
    var a := Pad(d.month, 2) + ("-" + b);
    assert s == Pad(d.year, 4) + ("-" + a);
    hide Utc, Stamp, Pad, IsoTail;
    Behind(s, Pad(d.year, 4), '-', a);
    Behind(a, Pad(d.month, 2), '-', b);
    Behind(b, Pad(d.day, 2), 'T', c);
    Behind(c, Pad(d.hour, 2), ':', e);
    Behind(e, Pad(d.minute, 2), ':', f);
    assert f[..2] == Pad(d.second, 2) && f[2..] == tail;
    assert s[8..] == a[3..] && s[11..] == b[3..] && s[14..] == c[3..] && s[17..] == e[3..] && s[19..] == f[2..];
    assert s[5..7] == a[..2] && s[8..10] == b[..2] && s[11..13] == c[..2] && s[14..16] == e[..2] && s[17..19] == f[..2];
    assert s[7] == a[2] && s[10] == b[2] && s[13] == c[2] && s[16] == e[2];
  }

  lemma Behind(s: string, p: string, sep: char, rest: string)
    requires s == p + ([sep] + rest)
    ensures |s| == |p| + 1 + |rest| && s[..|p|] == p && s[|p|] == sep && s[|p| + 1..] == rest
  {
  }

  lemma TwoDigits(n: nat)
    requires n < 100
    ensures Value(Pad(n, 2)) == n
  {
    assert Pow10(1) == 10 && Pow10(2) == 100;
    PadReads(n, 2);
  }

  lemma FourDigits(n: nat)
    requires n < 10_000
    ensures Value(Pad(n, 4)) == n
  {
    assert Pow10(1) == 10 && Pow10(2) == 100 && Pow10(3) == 1_000 && Pow10(4) == 10_000;
    PadReads(n, 4);
  }

  /** The stamp shows every field in decimal at its place, and the microsecond only when it is not 0. */
  lemma StampReads(t: Instant)
    ensures var d, s := Utc(t), Stamp(t);
      && |s| >= 19 && s[4] == s[7] == '-' && s[10] == 'T' && s[13] == s[16] == ':'
      && Value(s[..4]) == d.year && Value(s[5..7]) == d.month && Value(s[8..10]) == d.day
      && Value(s[11..13]) == d.hour && Value(s[14..16]) == d.minute && Value(s[17..19]) == d.second
      && s[19..] == (if d.micro == 0 then "+00:00" else "." + Pad(d.micro, 6) + "+00:00")
  {
    StampSlices(t);
    var d := Utc(t);
    hide Utc, Stamp, Value, Pad;
    FourDigits(d.year);
    TwoDigits(d.month);
    TwoDigits(d.day);
    TwoDigits(d.hour);
    TwoDigits(d.minute);
    TwoDigits(d.second);
  }

  lemma FirstDay()
    ensures KnownDate(1, 1, 1, 1)
  {
    FirstMonths(1);
  }

  lemma PlainCentury()
    ensures !DateTime(1900, 2, 29, 0, 0, 0, 0).Valid() && KnownDate(1900, 3, 1, 693_655)
  {
    FirstMonths(1900);
  }

  lemma LeapCentury()
    ensures KnownDate(2000, 2, 29, 730_179)
  {
    FirstMonths(2000);
  }

  lemma LeapYearEnd()
    ensures KnownDate(2024, 12, 31, 739_251)
  {
    FirstMonths(2024);
  }

  /** Some dates everybody can look up, around leap days and centuries. */
  lemma KnownDates()
    ensures KnownDate(1, 1, 1, 1) && KnownDate(2024, 12, 31, 739_251)
    ensures !DateTime(1900, 2, 29, 0, 0, 0, 0).Valid()
    ensures KnownDate(1900, 3, 1, 693_655) && KnownDate(2000, 2, 29, 730_179)
  {
    hide KnownDate, DateTime.Valid;
    FirstDay();
    PlainCentury();
    LeapCentury();
    LeapYearEnd();
  }

  predicate KnownDate(year: int, month: int, day: int, ordinal: int) {
    var d := DateTime(year, month, day, 0, 0, 0, 0);
    d.Valid() && d.Ordinal() == ordinal
  }

  lemma FirstMonths(y: int)
    ensures DaysBeforeMonth(y, 1) == 0 && DaysBeforeMonth(y, 2) == 31 && DaysBeforeMonth(y, 3) == 31 + DaysInMonth(y, 2)
    ensures DaysBeforeMonth(y, 12) + 31 == DaysInYear(y)
  {
    MonthsFillYear(y);
    assert DaysBeforeMonth(y, 13) == DaysBeforeMonth(y, 12) + DaysInMonth(y, 12);
  }

  /** The query behind every "since midnight" sum selects exactly the rows of today and later. */
  lemma SinceMidnight(t: Instant, now: Instant)
    ensures AtOrAfter(Stamp(t), Iso(Midnight(Utc(now)))) <==> DayOf(t) >= DayOf(now)
  {
    MidnightStamp(now);
    StampOrder(t, StartOfDay(now));
    DayCut(t, DayOf(now));
  }
}

/** Byte-wise comparison of TEXT values, as SQLite's `>=` and Python's `<` on strings do it,
    and the zero-padded decimals that the timestamps and session ids are built from. */
module TextOrder {

  /** True iff a sorts strictly before b. */
  predicate Less(a: string, b: string) {
    b != [] && (a == [] || a[0] < b[0] || (a[0] == b[0] && Less(a[1..], b[1..])))
  }

  lemma {:induction false} LessIrreflexive(a: string)
    ensures !Less(a, a)
  {
    if a != [] { LessIrreflexive(a[1..]); }
  }

  lemma {:induction false} LessTotal(a: string, b: string)
    ensures Less(a, b) || a == b || Less(b, a)
  {
    if a != [] && b != [] && a[0] == b[0] {
      LessTotal(a[1..], b[1..]);
      assert a == [a[0]] + a[1..] && b == [b[0]] + b[1..];
    }
  }

  lemma {:induction false} LessTransitive(a: string, b: string, c: string)
    requires Less(a, b) && Less(b, c)
    ensures Less(a, c)
  {
    if a != [] && a[0] == b[0] == c[0] { LessTransitive(a[1..], b[1..], c[1..]); }
  }

  lemma LessAsymmetric(a: string, b: string)
    requires Less(a, b)
    ensures !Less(b, a)
  {
    if Less(b, a) {
      LessTransitive(a, b, a);
      LessIrreflexive(a);
    }
  }

  /** A shared prefix does not influence the comparison. */
  lemma {:induction false} LessAfterPrefix(p: string, a: string, b: string)
    ensures Less(p + a, p + b) <==> Less(a, b)
  {
    if p == [] {
      assert p + a == a && p + b == b;
    } else {
      assert (p + a)[1..] == p[1..] + a && (p + b)[1..] == p[1..] + b;
      LessAfterPrefix(p[1..], a, b);
    }
  }

  const DIGITS := "0123456789"

  function Digit(d: nat): (c: char)
    requires d < 10
    ensures '0' <= c <= '9'
  {
    DIGITS[d]
  }

  function Pow10(w: nat): (p: nat)
    ensures p >= 1
  {
    if w == 0 then 1 else 10 * Pow10(w - 1)
  }

  /** The last w decimal digits of n, as `%0wd` prints them when n has at most w digits. */
  function Pad(n: nat, w: nat): (s: string)
    ensures |s| == w
  {
    if w == 0 then "" else Pad(n / 10, w - 1) + [Digit(n % 10)]
  }

  /** Fixed-width decimals sort like the numbers they stand for, whatever follows them. */
  lemma {:induction false} PadOrder(m: nat, n: nat, w: nat, x: string, y: string)
    requires m < n < Pow10(w)
    ensures Less(Pad(m, w) + x, Pad(n, w) + y)
  {
    var tm, tn := [Digit(m % 10)] + x, [Digit(n % 10)] + y;
    assert Pad(m, w) + x == Pad(m / 10, w - 1) + tm;
    assert Pad(n, w) + y == Pad(n / 10, w - 1) + tn;
    if m / 10 < n / 10 {
      PadOrder(m / 10, n / 10, w - 1, tm, tn);
    } else {
      DigitsOrder(m % 10, n % 10, x, y);
      LessAfterPrefix(Pad(m / 10, w - 1), tm, tn);
    }
  }

  lemma DigitsOrder(a: nat, b: nat, x: string, y: string)
    requires a < b < 10
    ensures Less([Digit(a)] + x, [Digit(b)] + y)
  {
    assert Digit(a) < Digit(b);
  }

  /** What a text of decimal digits stands for. */
  function Value(s: string): int { if s == "" then 0 else 10 * Value(s[..|s| - 1]) + (s[|s| - 1] as int - '0' as int) }

  lemma DigitValue(d: nat)
    requires d < 10
    ensures Digit(d) as int - '0' as int == d
  {
  }

  /** A padded number reads back as itself. */
  lemma {:induction false} PadReads(n: nat, w: nat)
    requires n < Pow10(w)
    ensures Value(Pad(n, w)) == n
  {
    if w > 0 {
      PadReads(n / 10, w - 1);
      DigitValue(n % 10);
      assert Pad(n, w)[..w - 1] == Pad(n / 10, w - 1);
    }
  }
}

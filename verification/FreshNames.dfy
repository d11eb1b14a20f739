/** File names with a counter before the extension, tried until one is free. */
module FreshNames {
  import TextOrder

  function Dec(n: nat): (s: string)
    ensures s != []
  {
    (if n < 10 then [] else Dec(n / 10)) + [TextOrder.Digit(n % 10)]
  }

  /** The counter is written in decimal. */
  lemma {:induction false} DecReads(n: nat)
    ensures TextOrder.Value(Dec(n)) == n
  {
    DecParts(n);
    TextOrder.DigitValue(n % 10);
    if n >= 10 { DecReads(n / 10); }
  }

  /** The names tried, written out. */
  lemma NumberedIs(stem: string, ext: string, n: nat)
    ensures Numbered(stem, ext, 0) == stem + ext
    ensures n > 0 ==> Numbered(stem, ext, n) == stem + "-" + Dec(n) + ext
  {
    assert stem + "" + ext == stem + ext;
  }

  lemma DigitInjective(a: nat, b: nat)
    requires a < 10 && b < 10 && TextOrder.Digit(a) == TextOrder.Digit(b)
    ensures a == b
  {
  }

  lemma DecParts(n: nat)
    ensures Dec(n)[..|Dec(n)| - 1] == if n < 10 then [] else Dec(n / 10)
    ensures Dec(n)[|Dec(n)| - 1] == TextOrder.Digit(n % 10)
  {
  }

  lemma {:induction false} DecInjective(m: nat, n: nat)
    requires Dec(m) == Dec(n)
    ensures m == n
  {
    DecParts(m);
    DecParts(n);
    DigitInjective(m % 10, n % 10);
    if m >= 10 && n >= 10 { DecInjective(m / 10, n / 10); }
  }

  /** `stem.ext` for counter 0, `stem-n.ext` otherwise. */
  function Numbered(stem: string, ext: string, n: nat): string {
    stem + (if n == 0 then "" else "-" + Dec(n)) + ext
  }

  lemma NumberedInjective(stem: string, ext: string, m: nat, n: nat)
    requires Numbered(stem, ext, m) == Numbered(stem, ext, n)
    ensures m == n
  {
    var a, b := if m == 0 then "" else "-" + Dec(m), if n == 0 then "" else "-" + Dec(n);
    assert a == Numbered(stem, ext, m)[|stem|..|stem| + |a|];
    assert b == Numbered(stem, ext, n)[|stem|..|stem| + |b|];
    if m > 0 && n > 0 {
      assert a[1..] == Dec(m) && b[1..] == Dec(n);
      DecInjective(m, n);
    }
  }

  ghost predicate AllTaken(stem: string, ext: string, from: nat, to: nat, taken: set<string>) {
    forall i: nat :: from <= i < to ==> Numbered(stem, ext, i) in taken
  }

  /** A run of k taken counters takes k names. */
  lemma {:induction false} TakenNames(stem: string, ext: string, from: nat, to: nat, taken: set<string>)
    requires AllTaken(stem, ext, from, to, taken)
    ensures to - from <= |taken|
  {
    if from < to {
      var top := Numbered(stem, ext, to - 1);
      forall i: nat | from <= i < to - 1 ensures Numbered(stem, ext, i) in taken - {top} {
        if Numbered(stem, ext, i) == top { NumberedInjective(stem, ext, i, to - 1); }
      }
      TakenNames(stem, ext, from, to - 1, taken - {top});
    }
  }
}

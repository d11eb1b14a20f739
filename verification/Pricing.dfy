/** core/ledger/pricing.py in integers: list prices in cents per million tokens, costs in
    micro-dollars, so that one micro-dollar is 10 000 units of tokens times cents times percent. */
module Pricing {
  datatype Price = Price(input: nat, output: nat)

  datatype Usage = Usage(input: nat, output: nat, cacheWrite: nat, cacheRead: nat)

  const TABLE: map<string, Price> := map[
    "claude-opus-4-7" := Price(500, 2500),
    "claude-opus-4-6" := Price(500, 2500),
    "claude-sonnet-4-6" := Price(300, 1500),
    "claude-haiku-4-5" := Price(100, 500),
    "sonnet" := Price(0, 0),
    "haiku" := Price(0, 0),
    "opus" := Price(0, 0),
    "gpt-4o" := Price(250, 1000),
    "gpt-4o-mini" := Price(15, 60),
    "gpt-4o-2024-08-06" := Price(250, 1000),
    "gpt-4o-2024-11-20" := Price(250, 1000),
    "gpt-4-turbo" := Price(1000, 3000),
    "gpt-4-turbo-2024-04-09" := Price(1000, 3000),
    "gpt-4" := Price(3000, 6000),
    "gpt-3.5-turbo" := Price(50, 150),
    "gpt-5.1" := Price(200, 800),
    "gpt-5.2" := Price(200, 800),
    "text-embedding-3-small" := Price(2, 0),
    "text-embedding-3-large" := Price(13, 0),
    "text-embedding-ada-002" := Price(10, 0)]

  const UNIT := 10_000

  /** Cache writes at 125 percent of the input price, cache reads at 10. */
  function Exact(p: Price, u: Usage): nat {
    u.input * p.input * 100 + u.output * p.output * 100 + u.cacheWrite * p.input * 125 + u.cacheRead * p.input * 10
  }

  /** Python's `round`: to the nearest integer, ties to even. */
  function RoundHalfEven(n: nat, d: nat): nat
    requires d > 0
  {
    var q, r := n / d, n % d;
    if 2 * r < d || (2 * r == d && q % 2 == 0) then q else q + 1
  }

  function PriceUsage(model: string, u: Usage): nat {
    if model in TABLE then RoundHalfEven(Exact(TABLE[model], u), UNIT) else 0
  }

  /** m is n/d rounded half to even: no integer is nearer, and of two equally near ones m is even. */
  predicate Nearest(m: int, n: int, d: int) {
    -d <= 2 * (n - m * d) <= d && (2 * (n - m * d) == d || 2 * (n - m * d) == -d ==> m % 2 == 0)
  }

  lemma MulLess(a: nat, b: nat, d: nat)
    requires a < b
    ensures a * d + d <= b * d
  {
    assert (a + 1) * d <= b * d;
  }

  lemma AtMostOneApart(m: nat, k: nat, n: nat, d: nat)
    requires d > 0 && Nearest(m, n, d) && Nearest(k, n, d) && m <= k
    ensures k <= m + 1
  {
    assert (m + 1) * d == m * d + d;
    if m + 1 < k { MulLess(m + 1, k, d); }
  }

  lemma NearestIsUnique(m: nat, k: nat, n: nat, d: nat)
    requires d > 0 && Nearest(m, n, d) && Nearest(k, n, d) && m <= k
    ensures m == k
  {
    AtMostOneApart(m, k, n, d);
    assert (m + 1) * d == m * d + d;
  }

  lemma RoundIsNearestIff(m: nat, n: nat, d: nat)
    requires d > 0
    ensures m == RoundHalfEven(n, d) <==> Nearest(m, n, d)
  {
    var k := RoundHalfEven(n, d);
    assert n == n / d * d + n % d;
    assert (n / d + 1) * d == n / d * d + d;
    assert Nearest(k, n, d);
    if Nearest(m, n, d) {
      if m <= k { NearestIsUnique(m, k, n, d); } else { NearestIsUnique(k, m, n, d); }
    }
  }

  lemma RoundGrows(a: nat, b: nat, d: nat)
    requires a <= b && d > 0
    ensures RoundHalfEven(a, d) <= RoundHalfEven(b, d)
  {
    var x, y := RoundHalfEven(a, d), RoundHalfEven(b, d);
    RoundIsNearestIff(x, a, d);
    RoundIsNearestIff(y, b, d);
    if y < x { MulLess(y, x, d); }
  }

  /** A million tokens cost the list price in cents: output its own, input and cache tokens the input
      price at 100, 125 and 10 percent. A model that is not listed costs nothing. */
  lemma ListPrice(model: string)
    ensures model !in TABLE ==> forall u :: PriceUsage(model, u) == 0
    ensures model in TABLE ==>
      var p := TABLE[model];
      PriceUsage(model, Usage(1_000_000, 0, 0, 0)) == p.input * 10_000 &&
      PriceUsage(model, Usage(0, 1_000_000, 0, 0)) == p.output * 10_000 &&
      PriceUsage(model, Usage(0, 0, 1_000_000, 0)) == p.input * 12_500 &&
      PriceUsage(model, Usage(0, 0, 0, 1_000_000)) == p.input * 1_000
  {
    if model in TABLE {
      var p := TABLE[model];
      RoundIsNearestIff(p.input * 10_000, p.input * 100_000_000, UNIT);
      RoundIsNearestIff(p.output * 10_000, p.output * 100_000_000, UNIT);
      RoundIsNearestIff(p.input * 12_500, p.input * 125_000_000, UNIT);
      RoundIsNearestIff(p.input * 1_000, p.input * 10_000_000, UNIT);
    }
  }

  predicate AtMost(u: Usage, v: Usage) {
    u.input <= v.input && u.output <= v.output && u.cacheWrite <= v.cacheWrite && u.cacheRead <= v.cacheRead
  }

  function Plus(u: Usage, v: Usage): Usage {
    Usage(u.input + v.input, u.output + v.output, u.cacheWrite + v.cacheWrite, u.cacheRead + v.cacheRead)
  }

  lemma ExactAdds(p: Price, u: Usage, v: Usage)
    ensures Exact(p, Plus(u, v)) == Exact(p, u) + Exact(p, v)
  {
    Distribute(u.input, v.input, p.input);
    Distribute(u.output, v.output, p.output);
    Distribute(u.cacheWrite, v.cacheWrite, p.input);
    Distribute(u.cacheRead, v.cacheRead, p.input);
  }

  lemma Distribute(x: nat, y: nat, p: nat)
    ensures (x + y) * p == x * p + y * p
  {
  }

  /** More tokens of any kind never cost less; reading from the cache never costs more than sending
      the same tokens, and writing to it never less. */
  lemma PriceGrows(model: string, u: Usage, v: Usage)
    requires AtMost(u, v)
    ensures PriceUsage(model, u) <= PriceUsage(model, v)
  {
    if model in TABLE {
      var p := TABLE[model];
      ExactAdds(p, u, Usage(v.input - u.input, v.output - u.output,
                            v.cacheWrite - u.cacheWrite, v.cacheRead - u.cacheRead));
      RoundGrows(Exact(p, u), Exact(p, v), UNIT);
    }
  }

  lemma CacheTiers(model: string, n: nat)
    ensures PriceUsage(model, Usage(0, 0, 0, n)) <= PriceUsage(model, Usage(n, 0, 0, 0))
    ensures PriceUsage(model, Usage(n, 0, 0, 0)) <= PriceUsage(model, Usage(0, 0, n, 0))
  {
    if model in TABLE {
      var p := TABLE[model];
      var x := n * p.input;
      assert Exact(p, Usage(0, 0, 0, n)) == x * 10 && Exact(p, Usage(n, 0, 0, 0)) == x * 100 &&
          Exact(p, Usage(0, 0, n, 0)) == x * 125;
      RoundGrows(x * 10, x * 100, UNIT);
      RoundGrows(x * 100, x * 125, UNIT);
    }
  }

  function Total(us: seq<Usage>): Usage {
    if us == [] then Usage(0, 0, 0, 0) else Plus(Total(us[..|us| - 1]), us[|us| - 1])
  }

  function Billed(model: string, us: seq<Usage>): nat {
    if us == [] then 0 else Billed(model, us[..|us| - 1]) + PriceUsage(model, us[|us| - 1])
  }

  /** Rounding each call separately drifts from the exact price of all of them together by at most
      half a micro-dollar a call. */
  lemma {:induction false} RoundingDrift(model: string, us: seq<Usage>)
    requires model in TABLE
    ensures -UNIT * |us| <= 2 * (Exact(TABLE[model], Total(us)) - Billed(model, us) * UNIT) <= UNIT * |us|
  {
    if us != [] {
      var head, u := us[..|us| - 1], us[|us| - 1];
      RoundingDrift(model, head);
      ExactAdds(TABLE[model], Total(head), u);
      RoundIsNearestIff(PriceUsage(model, u), Exact(TABLE[model], u), UNIT);
    }
  }
}

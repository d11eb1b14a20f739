/** core/memory/hydration.py: packing sections into the character budget. Sections are named by
    their position in the list. */
module MemoryBudget {
  import opened Text
  import opened Tally
  import opened StableSort

  const CHARS_PER_TOKEN := 4

  datatype Section = Section(header: string, lines: seq<string>, dropPriority: int, critical: bool) {
    function Render(): string { if lines == [] then "" else Join("\n", [header] + lines) }
    function Cost(): int { |Render()| + 2 }
  }

  type Sections = seq<Section>

  function CharBudget(tokenCap: int): int { if tokenCap * CHARS_PER_TOKEN > 0 then tokenCap * CHARS_PER_TOKEN else 0 }

  /** The positions below n of the critical, or of the optional, sections. */
  function Positions(s: Sections, n: nat, critical: bool): (r: seq<nat>)
    requires n <= |s|
    ensures Ascending(r)
    ensures forall i: nat :: i in r <==> i < n && s[i].critical == critical
  {
    if n == 0 then []
    else
      var r := Positions(s, n - 1, critical);
      assert forall k :: 0 <= k < |r| ==> r[k] in r;
      if s[n - 1].critical == critical then r + [n - 1] else r
  }

  function CostOf(s: Sections): nat -> int { (i: nat) => if i < |s| then s[i].Cost() else 0 }

  function CriticalCost(s: Sections): int { Sum(Positions(s, |s|, true), CostOf(s)) }

  /** `sorted(optional, key=drop_priority, reverse=True)`, which keeps equal priorities in list order. */
  function PriorityKey(s: Sections): nat -> int { (i: nat) => if i < |s| then -s[i].dropPriority else 0 }

  function Order(s: Sections): seq<nat> { SortBy(Positions(s, |s|, false), PriorityKey(s)) }

  /** What the greedy loop has taken, and used, after the given positions. */
  datatype Pick = Pick(taken: seq<nat>, used: int)

  function Greedy(s: Sections, order: seq<nat>, budget: int): Pick {
    if order == [] then Pick([], CriticalCost(s))
    else
      var p, i := Greedy(s, order[..|order| - 1], budget), order[|order| - 1];
      if p.used + CostOf(s)(i) <= budget then Pick(p.taken + [i], p.used + CostOf(s)(i)) else p
  }

  /** `sections.index(s)`: the first section equal to this one. */
  function FirstEqual(s: Sections, i: nat, k: nat): nat
    requires k <= i < |s|
    decreases i - k
  {
    if s[k] == s[i] then k else FirstEqual(s, i, k + 1)
  }

  function IndexKey(s: Sections): nat -> int { (i: nat) => if i < |s| then FirstEqual(s, i, 0) else 0 }

  function Included(s: Sections, budget: int): seq<nat> {
    Positions(s, |s|, true) + Greedy(s, Order(s), budget).taken
  }

  /** The positions in the order in which they are rendered. */
  function Layout(s: Sections, budget: int): seq<nat> { SortBy(Included(s, budget), IndexKey(s)) }

  function Blocks(s: Sections, layout: seq<nat>): seq<string> {
    if layout == [] then []
    else
      var i := layout[|layout| - 1];
      Blocks(s, layout[..|layout| - 1]) + (if i < |s| && s[i].Render() != "" then [s[i].Render()] else [])
  }

  const OPENING := "[memory_context]\n\n"
  const CLOSING := "\n[/memory_context]"

  function Wrapped(blocks: seq<string>): string {
    if blocks == [] then "" else OPENING + Join("\n\n", blocks) + CLOSING
  }

  /** `_apply_budget` */
  function Budgeted(s: Sections, tokenCap: int): string { Wrapped(Blocks(s, Layout(s, CharBudget(tokenCap)))) }

  /** The always-include list, then the fold over the optional sections. */
  method Select(s: Sections, budget: int) returns (included: seq<nat>)
    ensures included == Included(s, budget)
  {
    hide Positions, Order, CriticalCost, Section.Cost;
    included := Positions(s, |s|, true);
    var used := CriticalCost(s);
    var optional := Order(s);
    for k := 0 to |optional|
      invariant included == Positions(s, |s|, true) + Greedy(s, optional[..k], budget).taken
      invariant used == Greedy(s, optional[..k], budget).used
    {
      assert optional[..k + 1][..k] == optional[..k];
      var cost := CostOf(s)(optional[k]);
      if used + cost <= budget {
        included := included + [optional[k]];
        used := used + cost;
      }
    }
    assert optional[..|optional|] == optional;
  }

  method ApplyBudget(s: Sections, tokenCap: int) returns (body: string)
    ensures body == Budgeted(s, tokenCap)
  {
    hide Included, SortBy, FirstEqual, Join;
    var included := Select(s, CharBudget(tokenCap));
    var layout := SortBy(included, IndexKey(s));
    var blocks := [];
    for k := 0 to |layout|
      invariant blocks == Blocks(s, layout[..k])
    {
      assert layout[..k + 1][..k] == layout[..k];
      var i := layout[k];
      if i < |s| && s[i].Render() != "" { blocks := blocks + [s[i].Render()]; }
    }
    assert layout[..|layout|] == layout;
    body := if blocks == [] then "" else OPENING + Join("\n\n", blocks) + CLOSING;
  }

  // ---- the greedy choice ----

  function KeptCost(s: Sections, taken: seq<nat>): nat -> int {
    (i: nat) => if i in taken then CostOf(s)(i) else 0
  }

  predicate Kept(s: Sections, budget: int, i: nat) { i in Greedy(s, Order(s), budget).taken }

  predicate Chosen(s: Sections, budget: int, i: nat) { i < |s| && (s[i].critical || Kept(s, budget, i)) }

  lemma OrderFacts(s: Sections)
    ensures Ordered(Order(s), PriorityKey(s))
    ensures forall i: nat :: i in Order(s) <==> i < |s| && !s[i].critical
  {
    SortByOrders(Positions(s, |s|, false), PriorityKey(s));
    SortByMembers(Positions(s, |s|, false), PriorityKey(s));
  }

  /** In an ordered list no position repeats. */
  lemma NoRepeat(order: seq<nat>, key: nat -> int, k: nat)
    requires Ordered(order, key) && k < |order|
    ensures order[k] !in order[..k]
  {
    forall j | 0 <= j < k ensures order[..k][j] != order[k] { assert Before(order[j], order[k], key); }
  }

  /** What is taken is a part of the order, in that order. */
  lemma {:induction false} GreedyTakes(s: Sections, order: seq<nat>, budget: int)
    requires Ordered(order, PriorityKey(s))
    ensures var p := Greedy(s, order, budget);
      && (forall i :: i in p.taken ==> i in order)
      && Ordered(p.taken, PriorityKey(s))
  {
    hide CostOf, CriticalCost, PriorityKey;
    if order != [] {
      var n := |order| - 1;
      GreedyTakes(s, order[..n], budget);
      var p := Greedy(s, order[..n], budget);
      forall y | y in p.taken ensures Before(y, order[n], PriorityKey(s)) {
        var k :| 0 <= k < n && order[k] == y;
      }
      AppendOrders(p.taken, order[n], PriorityKey(s));
    }
  }

  lemma {:induction false} GreedyUses(s: Sections, order: seq<nat>, budget: int)
    ensures var p := Greedy(s, order, budget);
      && p.used == CriticalCost(s) + Sum(p.taken, CostOf(s))
      && (p.used <= budget || p.used == CriticalCost(s))
  {
    hide CriticalCost;
    if order != [] {
      var n := |order| - 1;
      GreedyUses(s, order[..n], budget);
      SumAppend(Greedy(s, order[..n], budget).taken, order[n], CostOf(s));
    }
  }

  lemma {:induction false} GreedyPrefix(s: Sections, order: seq<nat>, budget: int, k: nat)
    requires Ordered(order, PriorityKey(s)) && k <= |order|
    ensures var p, q := Greedy(s, order[..k], budget), Greedy(s, order, budget);
      && p.used <= q.used
      && (forall i :: i in p.taken ==> i in q.taken)
      && (forall i :: i in order[..k] && i in q.taken ==> i in p.taken)
    decreases |order| - k
  {
    hide CriticalCost;
    if k == |order| {
      assert order[..k] == order;
    } else {
      GreedyPrefix(s, order, budget, k + 1);
      assert order[..k + 1][..k] == order[..k];
      NoRepeat(order, PriorityKey(s), k);
    }
  }

  /** The used count after the first k positions is the critical cost plus the kept costs among them. */
  lemma {:induction false} UsedIsKeptSum(s: Sections, order: seq<nat>, budget: int, k: nat)
    requires Ordered(order, PriorityKey(s)) && k <= |order|
    ensures Greedy(s, order[..k], budget).used ==
        CriticalCost(s) + Sum(order[..k], KeptCost(s, Greedy(s, order, budget).taken))
  {
    hide CriticalCost;
    if k > 0 {
      UsedIsKeptSum(s, order, budget, k - 1);
      assert order[..k][..k - 1] == order[..k - 1];
      GreedyPrefix(s, order, budget, k);
      NoRepeat(order, PriorityKey(s), k - 1);
      OrderedPrefix(order, PriorityKey(s), k - 1);
      GreedyTakes(s, order[..k - 1], budget);
      assert order[k - 1] in order[..k];
    }
  }

  lemma OrderedPrefix(order: seq<nat>, key: nat -> int, k: nat)
    requires Ordered(order, key) && k <= |order|
    ensures Ordered(order[..k], key)
  {
  }

  /** Nothing that was dropped would still fit. */
  lemma GreedyIsMaximal(s: Sections, budget: int, i: nat)
    requires i < |s| && !s[i].critical && !Kept(s, budget, i)
    ensures Greedy(s, Order(s), budget).used + s[i].Cost() > budget
  {
    hide Order, Greedy, CriticalCost, Section.Render, Positions, PriorityKey;
    OrderFacts(s);
    var order := Order(s);
    var k :| 0 <= k < |order| && order[k] == i;
    GreedyPrefix(s, order, budget, k);
    TakenIff(s, order, budget, k);
  }

  /** The positions in front of the k-th are those that come before it in priority order. */
  lemma OrderPrefixIs(s: Sections, k: nat)
    requires k < |Order(s)|
    ensures forall j: nat :: j in Order(s)[..k] <==> j < |s| && !s[j].critical && Before(j, Order(s)[k], PriorityKey(s))
  {
    OrderFacts(s);
    var order := Order(s);
    forall j: nat ensures j in order[..k] <==> j < |s| && !s[j].critical && Before(j, order[k], PriorityKey(s)) {
      if j in order[..k] {
        var m :| 0 <= m < k && order[..k][m] == j;
        assert Before(order[m], order[k], PriorityKey(s)) && order[m] in order;
      }
      if j < |s| && !s[j].critical && Before(j, order[k], PriorityKey(s)) {
        var m :| 0 <= m < |order| && order[m] == j;
        assert m > k ==> Before(order[k], order[m], PriorityKey(s));
        assert order[..k][m] == j;
      }
    }
  }

  /** An optional section is kept exactly when it fits beside the critical ones and the kept ones of
      higher priority, or of equal priority and earlier in the list: those, and no others, precede it. */
  lemma KeptIff(s: Sections, budget: int, i: nat) returns (k: nat)
    requires i < |s| && !s[i].critical
    ensures k < |Order(s)| && Order(s)[k] == i
    ensures forall j: nat :: j in Order(s)[..k] <==>
      j < |s| && !s[j].critical &&
      (s[j].dropPriority > s[i].dropPriority || (s[j].dropPriority == s[i].dropPriority && j < i))
    ensures Kept(s, budget, i) <==>
      CriticalCost(s) + Sum(Order(s)[..k], KeptCost(s, Greedy(s, Order(s), budget).taken)) + s[i].Cost() <= budget
  {
    hide Order, CriticalCost, Section.Render, Greedy, KeptCost, Positions;
    OrderFacts(s);
    var order := Order(s);
    k :| 0 <= k < |order| && order[k] == i;
    OrderPrefixIs(s, k);
    UsedIsKeptSum(s, order, budget, k);
    TakenIff(s, order, budget, k);
  }

  /** The k-th position of the order is taken exactly when it fits after the first k. */
  lemma TakenIff(s: Sections, order: seq<nat>, budget: int, k: nat)
    requires Ordered(order, PriorityKey(s)) && k < |order|
    ensures order[k] in Greedy(s, order, budget).taken <==>
              Greedy(s, order[..k], budget).used + CostOf(s)(order[k]) <= budget
  {
    hide PriorityKey, CriticalCost, CostOf;
    GreedyPrefix(s, order, budget, k + 1);
    OrderedPrefix(order, PriorityKey(s), k);
    GreedyTakes(s, order[..k], budget);
    NoRepeat(order, PriorityKey(s), k);
    assert order[..k + 1][..k] == order[..k];
    assert order[k] in order[..k + 1];
  }

  // ---- the rendered block ----

  lemma {:induction false} FirstEqualIs(s: Sections, i: nat, k: nat)
    requires k <= i < |s|
    ensures var f := FirstEqual(s, i, k);
      k <= f <= i && s[f] == s[i] && forall j :: k <= j < f ==> s[j] != s[i]
    decreases i - k
  {
    if s[k] != s[i] { FirstEqualIs(s, i, k + 1); }
  }

  lemma IncludedFacts(s: Sections, budget: int)
    ensures var included := Included(s, budget);
      && (forall i: nat :: i in included <==> Chosen(s, budget, i))
      && TiesAscend(included, IndexKey(s))
  {
    hide Order, Section.Cost, Positions, IndexKey, Greedy, PriorityKey;
    OrderFacts(s);
    GreedyTakes(s, Order(s), budget);
    var c, g := Positions(s, |s|, true), Greedy(s, Order(s), budget).taken;
    var included := c + g;
    forall a, b | 0 <= a < b < |included| && IndexKey(s)(included[a]) == IndexKey(s)(included[b])
      ensures included[a] < included[b]
    {
      var i, j := included[a], included[b];
      assert i in included && j in included;
      if b < |c| {
        assert c[a] < c[b];
      } else {
        assert j in g;
        SameKeySameKind(s, i, j);
        if a < |c| { assert i in c; } else { TakenTies(s, budget, a - |c|, b - |c|); }
      }
    }
  }

  /** Equal sections agree on everything the selection looks at. */
  lemma SameKeySameKind(s: Sections, i: nat, j: nat)
    requires i < |s| && j < |s| && IndexKey(s)(i) == IndexKey(s)(j)
    ensures s[i].critical == s[j].critical && PriorityKey(s)(i) == PriorityKey(s)(j)
  {
    FirstEqualIs(s, i, 0);
    FirstEqualIs(s, j, 0);
  }

  lemma TakenTies(s: Sections, budget: int, a: nat, b: nat)
    requires var g := Greedy(s, Order(s), budget).taken;
      a < b < |g| && PriorityKey(s)(g[a]) == PriorityKey(s)(g[b])
    ensures Greedy(s, Order(s), budget).taken[a] < Greedy(s, Order(s), budget).taken[b]
  {
    hide Order, Greedy, PriorityKey;
    OrderFacts(s);
    GreedyTakes(s, Order(s), budget);
    var g := Greedy(s, Order(s), budget).taken;
    assert Before(g[a], g[b], PriorityKey(s));
  }

  /** The layout lists the critical and the kept sections, each once, and no others. */
  lemma LayoutListsIncluded(s: Sections, budget: int)
    ensures forall i: nat :: i in Layout(s, budget) <==> Chosen(s, budget, i)
    ensures forall a, b :: 0 <= a < b < |Layout(s, budget)| ==> Layout(s, budget)[a] != Layout(s, budget)[b]
  {
    IncludedFacts(s, budget);
    hide Included, SortBy, IndexKey, Kept;
    SortByMembers(Included(s, budget), IndexKey(s));
    SortByOrders(Included(s, budget), IndexKey(s));
    var layout := Layout(s, budget);
    forall a, b | 0 <= a < b < |layout| ensures layout[a] != layout[b] {
      assert Before(layout[a], layout[b], IndexKey(s));
    }
  }

  /** It is in their original order exactly when the first sections equal to them are: when no
      included section repeats an earlier one across an included one in between. */
  lemma LayoutAscendsIff(s: Sections, budget: int)
    ensures Ascending(Layout(s, budget)) <==>
      forall i: nat, j: nat :: i < j < |s| && Chosen(s, budget, i) && Chosen(s, budget, j) ==>
        FirstEqual(s, i, 0) <= FirstEqual(s, j, 0)
  {
    IncludedFacts(s, budget);
    hide Included, SortBy, Kept, Ascending, TiesAscend;
    AscendsIff(Included(s, budget), IndexKey(s));
  }

  /** So it is with pairwise different sections. */
  lemma LayoutKeepsOrder(s: Sections, budget: int)
    requires forall a, b :: 0 <= a < b < |s| ==> s[a] != s[b]
    ensures Ascending(Layout(s, budget))
  {
    LayoutAscendsIff(s, budget);
    hide Layout, Chosen;
    forall i: nat | i < |s| ensures FirstEqual(s, i, 0) == i { FirstEqualIs(s, i, 0); }
  }

  /** A remark on the helper alone, which hydration never hands equal sections: A, B, A would be laid
      out as A, A, B. */
  lemma EqualSectionsBreakOrder(a: Section, b: Section, budget: int)
    requires a != b && a.critical && b.critical
    ensures !Ascending(Layout([a, b, a], budget))
  {
    var s := [a, b, a];
    LayoutAscendsIff(s, budget);
    FirstEqualIs(s, 1, 0);
    FirstEqualIs(s, 2, 0);
    assert FirstEqual(s, 1, 0) == 1 && FirstEqual(s, 2, 0) == 0;
    assert Chosen(s, budget, 1) && Chosen(s, budget, 2);
  }

  /** Total length of the joined blocks and the two characters charged for each. */
  lemma {:induction false} BlocksLength(s: Sections, layout: seq<nat>)
    ensures Blocks(s, layout) == [] || |Join("\n\n", Blocks(s, layout))| + 2 <= Sum(layout, CostOf(s))
    ensures Sum(layout, CostOf(s)) >= 0
  {
    if layout != [] {
      var n := |layout| - 1;
      BlocksLength(s, layout[..n]);
      var bs := Blocks(s, layout[..n]);
      if Blocks(s, layout) != bs { assert Blocks(s, layout)[..|bs|] == bs; }
    }
  }

  lemma {:induction false} SumInsert(sorted: seq<nat>, x: nat, key: nat -> int, w: nat -> int)
    ensures Sum(Insert(sorted, x, key), w) == Sum(sorted, w) + w(x)
  {
    if sorted == [] || key(sorted[|sorted| - 1]) <= key(x) {
      SumAppend(sorted, x, w);
    } else {
      SumInsert(sorted[..|sorted| - 1], x, key, w);
      SumAppend(Insert(sorted[..|sorted| - 1], x, key), sorted[|sorted| - 1], w);
    }
  }

  lemma {:induction false} SumSorted(xs: seq<nat>, key: nat -> int, w: nat -> int)
    ensures Sum(SortBy(xs, key), w) == Sum(xs, w)
  {
    if xs != [] {
      SumSorted(xs[..|xs| - 1], key, w);
      SumInsert(SortBy(xs[..|xs| - 1], key), xs[|xs| - 1], key, w);
    }
  }

  lemma {:induction false} SumConcat(a: seq<nat>, b: seq<nat>, w: nat -> int)
    ensures Sum(a + b, w) == Sum(a, w) + Sum(b, w)
  {
    if b == [] {
      assert a + b == a;
    } else {
      SumConcat(a, b[..|b| - 1], w);
      assert (a + b)[..|a + b| - 1] == a + b[..|b| - 1];
    }
  }

  /** The rendered block is at most 34 characters longer than the budget, or than the critical
      sections alone when they exceed it: the wrapper is not charged. */
  lemma LengthBound(s: Sections, tokenCap: int)
    ensures var budget := CharBudget(tokenCap);
      |Budgeted(s, tokenCap)| <= 34 + if CriticalCost(s) > budget then CriticalCost(s) else budget
  {
    var budget := CharBudget(tokenCap);
    var layout := Layout(s, budget);
    hide Section.Render;
    BlocksLength(s, layout);
    SumSorted(Included(s, budget), IndexKey(s), CostOf(s));
    GreedyUses(s, Order(s), budget);
    SumConcat(Positions(s, |s|, true), Greedy(s, Order(s), budget).taken, CostOf(s));
    assert |OPENING| == 18 && |CLOSING| == 18;
  }

  lemma {:induction false} BlockListed(s: Sections, layout: seq<nat>, i: nat)
    requires i in layout && i < |s| && s[i].Render() != ""
    ensures s[i].Render() in Blocks(s, layout)
  {
    var n := |layout| - 1;
    if layout[n] != i {
      assert layout == layout[..n] + [layout[n]];
      BlockListed(s, layout[..n], i);
    }
  }

  /** Every critical section that has lines is in the block word for word, whatever the budget. */
  lemma CriticalAlwaysThere(s: Sections, tokenCap: int, i: nat) returns (before: string, after: string)
    requires i < |s| && s[i].critical && s[i].Render() != ""
    ensures Budgeted(s, tokenCap) == before + s[i].Render() + after
  {
    var budget := CharBudget(tokenCap);
    LayoutListsIncluded(s, budget);
    assert Chosen(s, budget, i);
    hide Layout, CharBudget, Section.Render, Kept, Chosen;
    before, after := ListedIsThere(s, tokenCap, i);
  }

  lemma ListedIsThere(s: Sections, tokenCap: int, i: nat) returns (before: string, after: string)
    requires i < |s| && i in Layout(s, CharBudget(tokenCap)) && s[i].Render() != ""
    ensures Budgeted(s, tokenCap) == before + s[i].Render() + after
  {
    hide Layout, CharBudget, Section.Render, Join;
    var layout := Layout(s, CharBudget(tokenCap));
    BlockListed(s, layout, i);
    var blocks := Blocks(s, layout);
    var k :| 0 <= k < |blocks| && blocks[k] == s[i].Render();
    before, after := JoinContains("\n\n", blocks, k);
    assert OPENING + (before + s[i].Render() + after) + CLOSING
        == (OPENING + before) + s[i].Render() + (after + CLOSING);
    before, after := OPENING + before, after + CLOSING;
  }

  // ---- the block, word for word ----

  /** A section with lines is its header and its lines, in order, each on a line of its own; without
      lines it is nothing. */
  lemma RenderIs(s: Section)
    ensures s.lines == [] ==> s.Render() == "" && s.Cost() == 2
    ensures s.lines != [] ==> s.Render() == s.header + "\n" + Join("\n", s.lines)
    ensures '\n' !in s.header && s.lines != [] && (forall i :: 0 <= i < |s.lines| ==> '\n' !in s.lines[i]) ==>
              Lines(s.Render()) == [s.header] + s.lines
    ensures s.Cost() == |s.Render()| + 2
  {
    if s.lines != [] {
      JoinLaws("\n", [s.header], s.lines, s.header);
      var all := [s.header] + s.lines;
      if '\n' !in s.header && forall i :: 0 <= i < |s.lines| ==> '\n' !in s.lines[i] { LinesOfJoin(all); }
    }
  }

  /** The budget is four characters for each token, and none for a negative cap. */
  lemma CharBudgetIs(tokenCap: int)
    ensures CharBudget(tokenCap) == if tokenCap >= 0 then 4 * tokenCap else 0
  {
  }

  /** The texts of the listed sections that have lines, in the order of the list. */
  lemma {:induction false} BlocksAre(s: Sections, xs: seq<nat>, ys: seq<nat>, i: nat)
    requires i < |s|
    ensures Blocks(s, []) == []
    ensures Blocks(s, [i]) == if s[i].lines == [] then [] else [s[i].header + "\n" + Join("\n", s[i].lines)]
    ensures Blocks(s, xs + ys) == Blocks(s, xs) + Blocks(s, ys)
  {
    RenderIs(s[i]);
    hide Section.Render;
    assert [i][..0] == [];
    if ys == [] {
      assert xs + ys == xs;
    } else {
      var n := |ys| - 1;
      BlocksAre(s, xs, ys[..n], i);
      assert (xs + ys)[..|xs + ys| - 1] == xs + ys[..n];
    }
  }

  /** The whole block: the texts of the chosen sections in layout order, a blank line apart, between the
      two marks; nothing at all when no chosen section has lines. */
  lemma BudgetedIs(s: Sections, tokenCap: int)
    ensures var blocks := Blocks(s, Layout(s, CharBudget(tokenCap)));
      Budgeted(s, tokenCap) ==
        if blocks == [] then "" else "[memory_context]\n\n" + Join("\n\n", blocks) + "\n[/memory_context]"
  {
  }

  /** Every chosen section that has lines is in the block with its header and all its lines in order. */
  lemma ChosenSectionsThere(s: Sections, tokenCap: int, i: nat) returns (before: string, after: string)
    requires Chosen(s, CharBudget(tokenCap), i) && s[i].lines != []
    ensures Budgeted(s, tokenCap) == before + (s[i].header + "\n" + Join("\n", s[i].lines)) + after
  {
    RenderIs(s[i]);
    var budget := CharBudget(tokenCap);
    LayoutListsIncluded(s, budget);
    assert i < |s| && i in Layout(s, budget);
    hide Layout, CharBudget, Section.Render, Chosen, Budgeted;
    before, after := ListedIsThere(s, tokenCap, i);
  }

  // ---- what hydrate passes in ----

  datatype Sources = Sources(persona: seq<string>, standing: seq<string>, daily: seq<string>, facts: seq<string>,
                             patterns: seq<string>, preferences: seq<string>, topical: seq<string>,
                             history: seq<string>)

  function Optionally(header: string, lines: seq<string>, dropPriority: int, critical: bool): Sections {
    if lines == [] then [] else [Section(header, lines, dropPriority, critical)]
  }

  /** `_render_sections`, given the lines each category produces. */
  function RenderSections(m: Sources): Sections {
    Optionally("## Persona", m.persona, 99, true)
      + Optionally("## Standing instructions", m.standing, 99, true)
      + Optionally("## Recent daily notes", m.daily, 4, false)
      + Optionally("## Facts", m.facts, 2, false)
      + Optionally("## Patterns", m.patterns, 1, false)
      + Optionally("## Preferences", m.preferences, 0, false)
      + Optionally("## Related brain notes", m.topical, 3, false)
      + Optionally("## Past context from your ChatGPT history", m.history, 2, false)
  }

  /** The eight categories, each with its header, its priority and whether it may be dropped. */
  predicate IsCategory(m: Sources, s: Section) {
    || s == Section("## Persona", m.persona, 99, true)
    || s == Section("## Standing instructions", m.standing, 99, true)
    || s == Section("## Recent daily notes", m.daily, 4, false)
    || s == Section("## Facts", m.facts, 2, false)
    || s == Section("## Patterns", m.patterns, 1, false)
    || s == Section("## Preferences", m.preferences, 0, false)
    || s == Section("## Related brain notes", m.topical, 3, false)
    || s == Section("## Past context from your ChatGPT history", m.history, 2, false)
  }

  /** Every category that has lines is a section, and nothing else is. */
  lemma RenderSectionsIs(m: Sources, s: Section)
    ensures s in RenderSections(m) <==> IsCategory(m, s) && s.lines != []
  {
  }

  /** The sections that have lines, in order. */
  function WithLines(s: Sections): Sections {
    if s == [] then []
    else WithLines(s[..|s| - 1]) + (if s[|s| - 1].lines != [] then [s[|s| - 1]] else [])
  }

  lemma WithLinesSnoc(s: Sections, header: string, lines: seq<string>, dropPriority: int, critical: bool)
    ensures WithLines(s + [Section(header, lines, dropPriority, critical)])
         == WithLines(s) + Optionally(header, lines, dropPriority, critical)
  {
    var more := s + [Section(header, lines, dropPriority, critical)];
    assert more[..|s|] == s;
  }

  /** And they come in this order. */
  lemma ReadingOrder(m: Sources)
    ensures RenderSections(m) == WithLines(
      [] + [Section("## Persona", m.persona, 99, true)]
         + [Section("## Standing instructions", m.standing, 99, true)]
         + [Section("## Recent daily notes", m.daily, 4, false)]
         + [Section("## Facts", m.facts, 2, false)]
         + [Section("## Patterns", m.patterns, 1, false)]
         + [Section("## Preferences", m.preferences, 0, false)]
         + [Section("## Related brain notes", m.topical, 3, false)]
         + [Section("## Past context from your ChatGPT history", m.history, 2, false)])
  {
    assert WithLines([]) == [];
    hide WithLines;
    var a := [] + [Section("## Persona", m.persona, 99, true)];
    var b := a + [Section("## Standing instructions", m.standing, 99, true)];
    var c := b + [Section("## Recent daily notes", m.daily, 4, false)];
    var d := c + [Section("## Facts", m.facts, 2, false)];
    var e := d + [Section("## Patterns", m.patterns, 1, false)];
    var f := e + [Section("## Preferences", m.preferences, 0, false)];
    var g := f + [Section("## Related brain notes", m.topical, 3, false)];
    WithLinesSnoc([], "## Persona", m.persona, 99, true);
    WithLinesSnoc(a, "## Standing instructions", m.standing, 99, true);
    WithLinesSnoc(b, "## Recent daily notes", m.daily, 4, false);
    WithLinesSnoc(c, "## Facts", m.facts, 2, false);
    WithLinesSnoc(d, "## Patterns", m.patterns, 1, false);
    WithLinesSnoc(e, "## Preferences", m.preferences, 0, false);
    WithLinesSnoc(f, "## Related brain notes", m.topical, 3, false);
    WithLinesSnoc(g, "## Past context from your ChatGPT history", m.history, 2, false);
    hide Optionally;
    assert [] + Optionally("## Persona", m.persona, 99, true) == Optionally("## Persona", m.persona, 99, true);
  }

  /** Length tells the eight headers apart. */
  function HeaderRank(h: string): int {
    match |h|
    case 10 => 1
    case 24 => 2
    case 21 => 3
    case 22 => 7
    case 8 => 4
    case 11 => 5
    case 14 => 6
    case _ => 8
  }

  ghost predicate Ranked(s: Sections, lo: int, hi: int) {
    && (forall i :: 0 <= i < |s| ==> lo <= HeaderRank(s[i].header) < hi)
    && (forall i, j :: 0 <= i < j < |s| ==> HeaderRank(s[i].header) < HeaderRank(s[j].header))
  }

  lemma RankedJoin(a: Sections, b: Sections, lo: int, mid: int, hi: int)
    requires Ranked(a, lo, mid) && Ranked(b, mid, hi) && lo <= mid <= hi
    ensures Ranked(a + b, lo, hi)
  {
  }

  lemma RankedOne(header: string, lines: seq<string>, dropPriority: int, critical: bool)
    requires HeaderRank(header) > 0
    ensures Ranked(Optionally(header, lines, dropPriority, critical), HeaderRank(header), HeaderRank(header) + 1)
  {
  }

  /** The sections hydrate builds are pairwise different. */
  lemma HydrateSectionsDiffer(m: Sources)
    ensures forall a, b :: 0 <= a < b < |RenderSections(m)| ==> RenderSections(m)[a] != RenderSections(m)[b]
  {
    RankedOne("## Persona", m.persona, 99, true);
    RankedOne("## Standing instructions", m.standing, 99, true);
    RankedOne("## Recent daily notes", m.daily, 4, false);
    RankedOne("## Facts", m.facts, 2, false);
    RankedOne("## Patterns", m.patterns, 1, false);
    RankedOne("## Preferences", m.preferences, 0, false);
    RankedOne("## Related brain notes", m.topical, 3, false);
    RankedOne("## Past context from your ChatGPT history", m.history, 2, false);
    RankedEight(
      Optionally("## Persona", m.persona, 99, true), Optionally("## Standing instructions", m.standing, 99, true),
      Optionally("## Recent daily notes", m.daily, 4, false), Optionally("## Facts", m.facts, 2, false),
      Optionally("## Patterns", m.patterns, 1, false), Optionally("## Preferences", m.preferences, 0, false),
      Optionally("## Related brain notes", m.topical, 3, false),
      Optionally("## Past context from your ChatGPT history", m.history, 2, false));
    hide Optionally, HeaderRank;
    assert Ranked(RenderSections(m), 1, 9);
  }

  lemma RankedEight(a: Sections, b: Sections, c: Sections, d: Sections, e: Sections, f: Sections, g: Sections,
                    h: Sections)
    requires Ranked(a, 1, 2) && Ranked(b, 2, 3) && Ranked(c, 3, 4) && Ranked(d, 4, 5)
    requires Ranked(e, 5, 6) && Ranked(f, 6, 7) && Ranked(g, 7, 8) && Ranked(h, 8, 9)
    ensures Ranked(a + b + c + d + e + f + g + h, 1, 9)
  {
    hide Ranked;
    RankedJoin(a, b, 1, 2, 3);
    RankedJoin(a + b, c, 1, 3, 4);
    RankedJoin(a + b + c, d, 1, 4, 5);
    RankedJoin(a + b + c + d, e, 1, 5, 6);
    RankedJoin(a + b + c + d + e, f, 1, 6, 7);
    RankedJoin(a + b + c + d + e + f, g, 1, 7, 8);
    RankedJoin(a + b + c + d + e + f + g, h, 1, 8, 9);
  }

  /** So whatever is remembered and whatever the cap: the block keeps the reading order, contains
      the persona and the standing instructions word for word, and stays within its length bound. */
  lemma HydratedBlock(m: Sources, tokenCap: int)
    ensures var s, budget := RenderSections(m), CharBudget(tokenCap);
      && Ascending(Layout(s, budget))
      && |Budgeted(s, tokenCap)| <= 34 + (if CriticalCost(s) > budget then CriticalCost(s) else budget)
      && (forall i :: 0 <= i < |s| && s[i].critical ==>
            s[i].Render() == "" || exists before, after :: Budgeted(s, tokenCap) == before + s[i].Render() + after)
  {
    hide RenderSections, Layout, Budgeted, CharBudget, Section.Render;
    var s := RenderSections(m);
    HydrateSectionsDiffer(m);
    LayoutKeepsOrder(s, CharBudget(tokenCap));
    LengthBound(s, tokenCap);
    forall i | 0 <= i < |s| && s[i].critical && s[i].Render() != ""
      ensures exists before, after :: Budgeted(s, tokenCap) == before + s[i].Render() + after
    {
      var before, after := CriticalAlwaysThere(s, tokenCap, i);
    }
  }
}

/** Python's `sorted(xs, key=...)` on a list of indices: stable, ascending in the key. */
module StableSort {

  /** x goes behind everything whose key is not larger. */
  function Insert(sorted: seq<nat>, x: nat, key: nat -> int): seq<nat> {
    if sorted == [] || key(sorted[|sorted| - 1]) <= key(x) then sorted + [x]
    else Insert(sorted[..|sorted| - 1], x, key) + [sorted[|sorted| - 1]]
  }

  function SortBy(xs: seq<nat>, key: nat -> int): seq<nat> {
    if xs == [] then [] else Insert(SortBy(xs[..|xs| - 1], key), xs[|xs| - 1], key)
  }

  /** a comes before b: smaller key, or equal keys and smaller index. */
  predicate Before(a: nat, b: nat, key: nat -> int) { key(a) < key(b) || (key(a) == key(b) && a < b) }

  ghost predicate Ascending(xs: seq<nat>) { forall i, j :: 0 <= i < j < |xs| ==> xs[i] < xs[j] }

  ghost predicate Ordered(xs: seq<nat>, key: nat -> int) {
    forall i, j :: 0 <= i < j < |xs| ==> Before(xs[i], xs[j], key)
  }

  lemma {:induction false} InsertMembers(sorted: seq<nat>, x: nat, key: nat -> int)
    ensures forall y :: y in Insert(sorted, x, key) <==> y in sorted || y == x
    ensures |Insert(sorted, x, key)| == |sorted| + 1
  {
    if sorted != [] {
      var n := |sorted| - 1;
      assert sorted == sorted[..n] + [sorted[n]];
      InsertMembers(sorted[..n], x, key);
    }
  }

  /** Sorting keeps the elements. */
  lemma {:induction false} SortByMembers(xs: seq<nat>, key: nat -> int)
    ensures forall y :: y in SortBy(xs, key) <==> y in xs
    ensures |SortBy(xs, key)| == |xs|
  {
    if xs != [] {
      var n := |xs| - 1;
      assert xs == xs[..n] + [xs[n]];
      SortByMembers(xs[..n], key);
      InsertMembers(SortBy(xs[..n], key), xs[n], key);
    }
  }

  lemma AppendOrders(r: seq<nat>, last: nat, key: nat -> int)
    requires Ordered(r, key) && forall y :: y in r ==> Before(y, last, key)
    ensures Ordered(r + [last], key)
  {
    forall i | 0 <= i < |r| ensures Before(r[i], last, key) { assert r[i] in r; }
  }

  lemma LastIsLast(sorted: seq<nat>, y: nat, key: nat -> int)
    requires Ordered(sorted, key) && y in sorted
    ensures y == sorted[|sorted| - 1] || Before(y, sorted[|sorted| - 1], key)
  {
  }

  lemma {:induction false} InsertKeeps(sorted: seq<nat>, x: nat, key: nat -> int)
    requires Ordered(sorted, key) && forall y :: y in sorted && key(y) == key(x) ==> y < x
    ensures Ordered(Insert(sorted, x, key), key)
  {
    if sorted == [] || key(sorted[|sorted| - 1]) <= key(x) {
      forall y | y in sorted ensures Before(y, x, key) { LastIsLast(sorted, y, key); }
      AppendOrders(sorted, x, key);
    } else {
      var n := |sorted| - 1;
      var head := sorted[..n];
      forall y | y in head ensures y in sorted && Before(y, sorted[n], key) {
        var k :| 0 <= k < n && head[k] == y;
        assert Before(sorted[k], sorted[n], key);
      }
      InsertKeeps(head, x, key);
      InsertMembers(head, x, key);
      AppendOrders(Insert(head, x, key), sorted[n], key);
    }
  }

  /** Where keys tie, the smaller index comes first. */
  ghost predicate TiesAscend(xs: seq<nat>, key: nat -> int) {
    forall i, j :: 0 <= i < j < |xs| && key(xs[i]) == key(xs[j]) ==> xs[i] < xs[j]
  }

  /** Sorting is stable: a list whose ties ascend comes out ordered by key and then by index. */
  lemma {:induction false} SortByOrders(xs: seq<nat>, key: nat -> int)
    requires TiesAscend(xs, key)
    ensures Ordered(SortBy(xs, key), key)
  {
    if xs != [] {
      var n := |xs| - 1;
      SortByOrders(xs[..n], key);
      SortByMembers(xs[..n], key);
      InsertKeeps(SortBy(xs[..n], key), xs[n], key);
    }
  }

  lemma AscendingKeys(r: seq<nat>, x: nat, y: nat, key: nat -> int)
    requires Ordered(r, key) && Ascending(r) && x in r && y in r && x < y
    ensures key(x) <= key(y)
  {
    var i :| 0 <= i < |r| && r[i] == x;
    var j :| 0 <= j < |r| && r[j] == y;
    assert i < j;
    assert Before(r[i], r[j], key);
  }

  lemma OrderedAscends(r: seq<nat>, key: nat -> int)
    requires Ordered(r, key) && forall x, y :: x in r && y in r && x < y ==> key(x) <= key(y)
    ensures Ascending(r)
  {
    forall i, j | 0 <= i < j < |r| ensures r[i] < r[j] {
      assert Before(r[i], r[j], key) && r[i] in r && r[j] in r;
    }
  }

  /** The result is ascending exactly when the keys never fall as the elements grow. */
  lemma AscendsIff(xs: seq<nat>, key: nat -> int)
    requires TiesAscend(xs, key)
    ensures Ascending(SortBy(xs, key)) <==> forall x, y :: x in xs && y in xs && x < y ==> key(x) <= key(y)
  {
    hide SortBy, Ordered, Ascending, TiesAscend;
    var r := SortBy(xs, key);
    SortByOrders(xs, key);
    SortByMembers(xs, key);
    if Ascending(r) {
      forall x, y | x in xs && y in xs && x < y ensures key(x) <= key(y) { AscendingKeys(r, x, y, key); }
    }
    if forall x, y :: x in xs && y in xs && x < y ==> key(x) <= key(y) { OrderedAscends(r, key); }
  }
}

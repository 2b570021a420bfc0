/**
 * The dashboard summary: linear passes over the product list that count
 * products, count low-stock products, and sum quantities and stock values.
 */
module Dashboard {
  import opened Records
  import opened Queries

  /** Number of low-stock products. */
  function LowStockCount(ps: seq<Product>): (n: nat)
    ensures n <= |ps|
    ensures n == |ps| <==> forall k :: 0 <= k < |ps| ==> IsLowStock(ps[k])
  {
    if ps == [] then 0
    else (if IsLowStock(ps[0]) then 1 else 0) + LowStockCount(ps[1..])
  }

  /** Sum of the quantities. */
  function TotalQuantity(ps: seq<Product>): int {
    if ps == [] then 0 else ps[0].quantity + TotalQuantity(ps[1..])
  }

  /** Sum of quantity times unit price, in cents. */
  function TotalStockValue(ps: seq<Product>): int {
    if ps == [] then 0 else Value(ps[0]) + TotalStockValue(ps[1..])
  }

  /** With no negative quantity or price, the totals are not negative. */
  lemma {:induction false} TotalsNonNegative(ps: seq<Product>)
    requires forall k :: 0 <= k < |ps| ==> ps[k].quantity >= 0 && ps[k].unitPrice >= 0
    ensures TotalQuantity(ps) >= 0 && TotalStockValue(ps) >= 0
  {
    if ps != [] {
      TotalsNonNegative(ps[1..]);
    }
  }

  /** The dashboard summary of a product list and the number of categories. */
  function Stats(ps: seq<Product>, categoryCount: nat): (s: DashboardStats)
    ensures s.totalProducts == |ps| && s.totalCategories == categoryCount
    ensures 0 <= s.lowStockCount <= s.totalProducts
    ensures s.lowStockCount == |LowStock(ps)|
    ensures s.totalQuantity == TotalQuantity(ps) && s.totalStockValue == TotalStockValue(ps)
    ensures ps == [] ==> s.totalProducts == s.lowStockCount == s.totalQuantity == s.totalStockValue == 0
  {
    LowStockCountIsFilterLength(ps);
    DashboardStats(|ps|, categoryCount, LowStockCount(ps), TotalStockValue(ps), TotalQuantity(ps))
  }

  /** The dashboard's low-stock count is the length of the listing's low-stock filter. */
  lemma {:induction false} LowStockCountIsFilterLength(ps: seq<Product>)
    ensures LowStockCount(ps) == |LowStock(ps)|
  {
    if ps != [] {
      LowStockCountIsFilterLength(ps[1..]);
    }
  }

  lemma {:induction false} LowStockCountAppend(a: seq<Product>, b: seq<Product>)
    ensures LowStockCount(a + b) == LowStockCount(a) + LowStockCount(b)
  {
    if a == [] {
      assert a + b == b;
    } else {
      assert (a + b)[1..] == a[1..] + b;
      LowStockCountAppend(a[1..], b);
    }
  }

  lemma {:induction false} TotalQuantityAppend(a: seq<Product>, b: seq<Product>)
    ensures TotalQuantity(a + b) == TotalQuantity(a) + TotalQuantity(b)
  {
    if a == [] {
      assert a + b == b;
    } else {
      assert (a + b)[1..] == a[1..] + b;
      TotalQuantityAppend(a[1..], b);
    }
  }

  lemma {:induction false} TotalStockValueAppend(a: seq<Product>, b: seq<Product>)
    ensures TotalStockValue(a + b) == TotalStockValue(a) + TotalStockValue(b)
  {
    if a == [] {
      assert a + b == b;
    } else {
      assert (a + b)[1..] == a[1..] + b;
      TotalStockValueAppend(a[1..], b);
    }
  }

  /** A list is its prefix, the element at `i` and its suffix. */
  lemma SplitAt(qs: seq<Product>, i: nat)
    requires i < |qs|
    ensures qs == qs[..i] + [qs[i]] + qs[i + 1..]
  {
  }

  /** Taking out the product at index `i` takes its share out of the low-stock count. */
  lemma LowStockCountWithout(qs: seq<Product>, i: nat)
    requires i < |qs|
    ensures LowStockCount(qs) == LowStockCount(qs[..i] + qs[i + 1..]) + (if IsLowStock(qs[i]) then 1 else 0)
  {
    var a, p, b := qs[..i], qs[i], qs[i + 1..];
    SplitAt(qs, i);
    assert [p][1..] == [];
    assert LowStockCount([p]) == LowStockCount([]) + (if IsLowStock(p) then 1 else 0);
    LowStockCountAppend(a + [p], b);
    LowStockCountAppend(a, [p]);
    LowStockCountAppend(a, b);
  }

  /** Taking out the product at index `i` takes its quantity out of the total. */
  lemma TotalQuantityWithout(qs: seq<Product>, i: nat)
    requires i < |qs|
    ensures TotalQuantity(qs) == TotalQuantity(qs[..i] + qs[i + 1..]) + qs[i].quantity
  {
    var a, p, b := qs[..i], qs[i], qs[i + 1..];
    SplitAt(qs, i);
    assert [p][1..] == [];
    TotalQuantityAppend(a + [p], b);
    TotalQuantityAppend(a, [p]);
    TotalQuantityAppend(a, b);
  }

  /** Taking out the product at index `i` takes its value out of the total. */
  lemma TotalStockValueWithout(qs: seq<Product>, i: nat)
    requires i < |qs|
    ensures TotalStockValue(qs) == TotalStockValue(qs[..i] + qs[i + 1..]) + Value(qs[i])
  {
    var a, p, b := qs[..i], qs[i], qs[i + 1..];
    SplitAt(qs, i);
    assert [p][1..] == [];
    TotalStockValueAppend(a + [p], b);
    TotalStockValueAppend(a, [p]);
    TotalStockValueAppend(a, b);
  }

  /** Removing the same element from two permutations of each other leaves permutations. */
  lemma MultisetWithout(ps: seq<Product>, qs: seq<Product>, i: nat)
    requires multiset(ps) == multiset(qs)
    requires ps != [] && i < |qs| && qs[i] == ps[0]
    ensures multiset(ps[1..]) == multiset(qs[..i] + qs[i + 1..])
  {
    assert qs == qs[..i] + [qs[i]] + qs[i + 1..];
    assert ps == [ps[0]] + ps[1..];
    assert multiset(ps[1..]) == multiset(ps) - multiset{ps[0]};
    assert multiset(qs[..i] + qs[i + 1..]) == multiset(qs) - multiset{qs[i]};
  }

  /** Each of the sums ignores the order of the list. */
  lemma {:induction false} SumsPermutationInvariant(ps: seq<Product>, qs: seq<Product>)
    requires multiset(ps) == multiset(qs)
    ensures |ps| == |qs|
    ensures LowStockCount(ps) == LowStockCount(qs)
    ensures TotalQuantity(ps) == TotalQuantity(qs)
    ensures TotalStockValue(ps) == TotalStockValue(qs)
    decreases |ps|
  {
    if ps != [] {
      assert ps[0] in multiset(qs);
      var i :| 0 <= i < |qs| && qs[i] == ps[0];
      MultisetWithout(ps, qs, i);
      SumsPermutationInvariant(ps[1..], qs[..i] + qs[i + 1..]);
      LowStockCountWithout(qs, i);
      TotalQuantityWithout(qs, i);
      TotalStockValueWithout(qs, i);
    } else {
      assert qs == [];
    }
  }

  /** The dashboard summary ignores the order of the list: a permutation gives the same summary. */
  lemma StatsPermutationInvariant(ps: seq<Product>, qs: seq<Product>, categoryCount: nat)
    requires multiset(ps) == multiset(qs)
    ensures Stats(ps, categoryCount) == Stats(qs, categoryCount)
  {
    SumsPermutationInvariant(ps, qs);
  }
}

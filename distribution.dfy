/**
 * Stock distribution: one row per category name, in the order in which the
 * names first appear in the product list, each with the number of products
 * in that category and the sum of their stock values.
 *
 * This module gives the reference definition the store's loop is proved
 * against, and the laws relating it to the dashboard summary.
 */
module Distribution {
  import opened Records
  import opened Queries
  import opened Dashboard

  predicate Distinct(ks: seq<string>) {
    forall i, j :: 0 <= i < j < |ks| ==> ks[i] != ks[j]
  }

  /** Some product of the list has category `c`. */
  predicate Occurs(ps: seq<Product>, c: string) {
    exists k :: 0 <= k < |ps| && ps[k].category == c
  }

  /** The distinct category names of the list, in order of first appearance. */
  function Categories(ps: seq<Product>): (ks: seq<string>)
    ensures Distinct(ks)
    ensures forall c :: c in ks <==> Occurs(ps, c)
  {
    if ps == [] then []
    else
      var front := ps[..|ps| - 1];
      var ks := Categories(front);
      var c := ps[|ps| - 1].category;
      assert forall d :: Occurs(ps, d) <==> Occurs(front, d) || d == c by {
        forall d ensures Occurs(ps, d) <==> Occurs(front, d) || d == c {
          if Occurs(front, d) {
            var k :| 0 <= k < |front| && front[k].category == d;
            assert ps[k].category == d;
          }
          if Occurs(ps, d) && d != c {
            var k :| 0 <= k < |ps| && ps[k].category == d;
            assert front[k].category == d;
          }
        }
      }
      if c in ks then ks else ks + [c]
  }

  /** The row for category `c`: its product count and the sum of their values. */
  function Entry(ps: seq<Product>, c: string): StockDistribution {
    StockDistribution(c, |InCategory(ps, c)|, TotalStockValue(InCategory(ps, c)))
  }

  /** The rows for the given category names, in that order. */
  function EntriesFor(keys: seq<string>, ps: seq<Product>): (es: seq<StockDistribution>)
    ensures |es| == |keys|
    ensures forall j :: 0 <= j < |keys| ==> es[j] == Entry(ps, keys[j])
  {
    if keys == [] then [] else [Entry(ps, keys[0])] + EntriesFor(keys[1..], ps)
  }

  /** The stock distribution of a product list. */
  function StockDistributionOf(ps: seq<Product>): (es: seq<StockDistribution>)
    ensures |es| == |Categories(ps)|
    ensures forall j :: 0 <= j < |es| ==> es[j].category == Categories(ps)[j] && es[j].count >= 1
    ensures ps == [] ==> es == []
  {
    var es := EntriesFor(Categories(ps), ps);
    assert forall j :: 0 <= j < |es| ==> |InCategory(ps, Categories(ps)[j])| >= 1 by {
      forall j | 0 <= j < |es| ensures |InCategory(ps, Categories(ps)[j])| >= 1 {
        var c := Categories(ps)[j];
        assert Occurs(ps, c);
        var k :| 0 <= k < |ps| && ps[k].category == c;
        assert ps[k] in InCategory(ps, c);
      }
    }
    es
  }

  /** Sum of the `count` fields. */
  function SumCounts(es: seq<StockDistribution>): int {
    if es == [] then 0 else es[0].count + SumCounts(es[1..])
  }

  /** Sum of the `totalValue` fields. */
  function SumValues(es: seq<StockDistribution>): int {
    if es == [] then 0 else es[0].totalValue + SumValues(es[1..])
  }

  /**
   * Every occurrence of a later name `ks[j]` in the list is preceded by an
   * occurrence of each earlier name `ks[i]`.
   */
  predicate FirstSeenInOrder(ps: seq<Product>, ks: seq<string>) {
    forall i, j, m :: 0 <= i < j < |ks| && 0 <= m < |ps| && ps[m].category == ks[j]
      ==> exists l :: 0 <= l < m && ps[l].category == ks[i]
  }

  /** Every category that appears after another in the distribution first appears later in the list. */
  lemma {:induction false} FirstAppearanceOrder(ps: seq<Product>)
    ensures FirstSeenInOrder(ps, Categories(ps))
  {
    if ps != [] {
      var front := ps[..|ps| - 1];
      var last := |ps| - 1;
      FirstAppearanceOrder(front);
      var ks := Categories(ps);
      var kf := Categories(front);
      forall i, j, m | 0 <= i < j < |ks| && 0 <= m < |ps| && ps[m].category == ks[j]
        ensures exists l :: 0 <= l < m && ps[l].category == ks[i]
      {
        if j < |kf| {
          assert ks[i] == kf[i] && ks[j] == kf[j];
          if m < last {
            assert front[m].category == kf[j];
            var l :| 0 <= l < m && front[l].category == kf[i];
            assert ps[l].category == ks[i];
          } else {
            assert Occurs(front, kf[j]);
            var m' :| 0 <= m' < |front| && front[m'].category == kf[j];
            var l :| 0 <= l < m' && front[l].category == kf[i];
            assert ps[l].category == ks[i];
          }
        } else {
          assert ks[i] == kf[i];
          assert Occurs(front, kf[i]);
          var l :| 0 <= l < |front| && front[l].category == kf[i];
          assert ps[l].category == ks[i];
        }
      }
    }
  }

  lemma {:induction false} InCategorySnoc(a: seq<Product>, p: Product, c: string)
    ensures InCategory(a + [p], c) == InCategory(a, c) + (if p.category == c then [p] else [])
  {
    InCategoryAppend(a, [p], c);
    assert [p][1..] == [];
  }

  /** Appending a product adds one to its own category's row and nothing to the others. */
  lemma RowSnoc(a: seq<Product>, p: Product, d: string)
    ensures |InCategory(a + [p], d)| == |InCategory(a, d)| + (if p.category == d then 1 else 0)
    ensures TotalStockValue(InCategory(a + [p], d)) == TotalStockValue(InCategory(a, d)) + (if p.category == d then Value(p) else 0)
  {
    InCategorySnoc(a, p, d);
    TotalStockValueAppend(InCategory(a, d), if p.category == d then [p] else []);
    assert TotalStockValue([p]) == Value(p);
  }

  lemma {:induction false} EntriesForSnoc(keys: seq<string>, c: string, ps: seq<Product>)
    ensures EntriesFor(keys + [c], ps) == EntriesFor(keys, ps) + [Entry(ps, c)]
  {
    var lhs := EntriesFor(keys + [c], ps);
    var rhs := EntriesFor(keys, ps) + [Entry(ps, c)];
    assert |lhs| == |rhs|;
    forall j | 0 <= j < |lhs| ensures lhs[j] == rhs[j] {
      assert (keys + [c])[j] == if j < |keys| then keys[j] else c;
    }
  }

  lemma {:induction false} SumsAppend(xs: seq<StockDistribution>, ys: seq<StockDistribution>)
    ensures SumCounts(xs + ys) == SumCounts(xs) + SumCounts(ys)
    ensures SumValues(xs + ys) == SumValues(xs) + SumValues(ys)
  {
    if xs == [] {
      assert xs + ys == ys;
    } else {
      assert (xs + ys)[1..] == xs[1..] + ys;
      SumsAppend(xs[1..], ys);
    }
  }

  /** The tail of a list of distinct names has distinct names. */
  lemma DistinctTail(keys: seq<string>)
    requires keys != [] && Distinct(keys)
    ensures Distinct(keys[1..])
  {
    forall i, j | 0 <= i < j < |keys[1..]| ensures keys[1..][i] != keys[1..][j] {
      assert keys[1..][i] == keys[i + 1] && keys[1..][j] == keys[j + 1];
    }
  }

  /** The first of a list of distinct names does not occur again. */
  lemma DistinctHead(keys: seq<string>)
    requires keys != [] && Distinct(keys)
    ensures keys[0] !in keys[1..]
  {
  }

  /** Appending a product adds it to the row of its category, if that row is listed. */
  lemma {:induction false} EntriesAddProduct(keys: seq<string>, a: seq<Product>, p: Product)
    requires Distinct(keys)
    ensures SumCounts(EntriesFor(keys, a + [p])) == SumCounts(EntriesFor(keys, a)) + (if p.category in keys then 1 else 0)
    ensures SumValues(EntriesFor(keys, a + [p])) == SumValues(EntriesFor(keys, a)) + (if p.category in keys then Value(p) else 0)
  {
    if keys != [] {
      var k, rest := keys[0], keys[1..];
      DistinctTail(keys);
      DistinctHead(keys);
      EntriesAddProduct(rest, a, p);
      RowSnoc(a, p, k);
      assert p.category in keys <==> p.category == k || p.category in rest by {
        assert keys == [k] + rest;
      }
      assert EntriesFor(keys, a + [p])[1..] == EntriesFor(rest, a + [p]);
      assert EntriesFor(keys, a)[1..] == EntriesFor(rest, a);
    }
  }

  /** Appending a product adds its category at the end, unless it was already listed. */
  lemma CategoriesSnoc(a: seq<Product>, p: Product)
    ensures Categories(a + [p]) == if p.category in Categories(a) then Categories(a) else Categories(a) + [p.category]
  {
    assert (a + [p])[..|a + [p]| - 1] == a;
  }

  /** A category no product has selects nothing. */
  lemma {:induction false} NoOccurrenceNoRows(ps: seq<Product>, c: string)
    requires !Occurs(ps, c)
    ensures InCategory(ps, c) == []
  {
    if ps != [] {
      assert ps[0].category != c;
      assert !Occurs(ps[1..], c) by {
        forall k | 0 <= k < |ps[1..]| ensures ps[1..][k].category != c {
          assert ps[1..][k] == ps[k + 1];
        }
      }
      NoOccurrenceNoRows(ps[1..], c);
    }
  }

  /** The row of a category that only the appended product has. */
  lemma NewCategoryRow(a: seq<Product>, p: Product)
    requires p.category !in Categories(a)
    ensures Entry(a + [p], p.category) == StockDistribution(p.category, 1, Value(p))
  {
    var c := p.category;
    assert !Occurs(a, c);
    NoOccurrenceNoRows(a, c);
    InCategorySnoc(a, p, c);
    assert InCategory(a + [p], c) == [p];
    assert TotalStockValue([p]) == Value(p);
  }

  /** A product of a category already listed adds to that row only. */
  lemma SnocKnown(a: seq<Product>, p: Product)
    requires p.category in Categories(a)
    ensures SumCounts(StockDistributionOf(a + [p])) == SumCounts(StockDistributionOf(a)) + 1
    ensures SumValues(StockDistributionOf(a + [p])) == SumValues(StockDistributionOf(a)) + Value(p)
  {
    CategoriesSnoc(a, p);
    EntriesAddProduct(Categories(a), a, p);
  }

  /** A product of a new category adds a row of its own at the end. */
  lemma SnocNew(a: seq<Product>, p: Product)
    requires p.category !in Categories(a)
    ensures SumCounts(StockDistributionOf(a + [p])) == SumCounts(StockDistributionOf(a)) + 1
    ensures SumValues(StockDistributionOf(a + [p])) == SumValues(StockDistributionOf(a)) + Value(p)
  {
    var ka, c := Categories(a), p.category;
    CategoriesSnoc(a, p);
    EntriesAddProduct(ka, a, p);
    EntriesForSnoc(ka, c, a + [p]);
    var row := Entry(a + [p], c);
    SumsAppend(EntriesFor(ka, a + [p]), [row]);
    NewCategoryRow(a, p);
    assert [row][1..] == [];
    assert SumCounts([row]) == 1 && SumValues([row]) == Value(p);
  }

  /**
   * The counts sum to the number of products, and the values sum to the
   * dashboard's total stock value.
   */
  lemma {:induction false} DistributionSums(ps: seq<Product>)
    ensures SumCounts(StockDistributionOf(ps)) == |ps|
    ensures SumValues(StockDistributionOf(ps)) == TotalStockValue(ps)
  {
    if ps != [] {
      var a := ps[..|ps| - 1];
      var p := ps[|ps| - 1];
      assert ps == a + [p];
      DistributionSums(a);
      TotalStockValueAppend(a, [p]);
      assert TotalStockValue([p]) == Value(p);
      if p.category in Categories(a) {
        SnocKnown(a, p);
      } else {
        SnocNew(a, p);
      }
    }
  }

  /** The distribution's values add up to the dashboard's total stock value. */
  lemma DistributionMatchesDashboard(ps: seq<Product>, categoryCount: nat)
    ensures SumValues(StockDistributionOf(ps)) == Stats(ps, categoryCount).totalStockValue
    ensures SumCounts(StockDistributionOf(ps)) == Stats(ps, categoryCount).totalProducts
  {
    DistributionSums(ps);
  }

  /** The two maps have a row exactly for each listed name. */
  ghost predicate Keyed(names: seq<string>, count: map<string, int>, total: map<string, int>) {
    && (forall c :: c in count <==> c in names)
    && (forall c :: c in total <==> c in names)
  }

  /** The row of each listed name holds the count and value of its products in `seen`. */
  ghost predicate Rows(seen: seq<Product>, names: seq<string>, count: map<string, int>, total: map<string, int>) {
    forall c :: c in names ==>
      && c in count && c in total
      && count[c] == |InCategory(seen, c)|
      && total[c] == TotalStockValue(InCategory(seen, c))
  }

  /**
   * The state of a grouping pass after the products `seen`: the names met so
   * far in order of first appearance, and for each name its running count
   * and running value.
   */
  ghost predicate Tallied(seen: seq<Product>, names: seq<string>, count: map<string, int>, total: map<string, int>) {
    && names == Categories(seen)
    && Keyed(names, count, total)
    && Rows(seen, names, count, total)
  }

  /**
   * The state in the middle of a step over product `p`: the row of its
   * category exists (opened at zero if it was missing), the names include
   * it, and every row still holds the tally of `seen` alone.
   */
  ghost predicate Opened(seen: seq<Product>, p: Product, names: seq<string>, count: map<string, int>, total: map<string, int>) {
    && p.category in names
    && Keyed(names, count, total)
    && Rows(seen, names, count, total)
  }

  /** Nothing seen, nothing tallied. */
  lemma TalliedEmpty()
    ensures Tallied([], [], map[], map[])
  {
  }

  /** Overwriting the row of a listed name keeps the rows in step with the names. */
  lemma KeyedSet(names: seq<string>, count: map<string, int>, total: map<string, int>, c: string, x: int, y: int)
    requires Keyed(names, count, total)
    requires c in names
    ensures Keyed(names, count[c := x], total[c := y])
  {
    forall d ensures (d in count[c := x] <==> d in names) && (d in total[c := y] <==> d in names) {
      if d != c {
        assert d in count[c := x] <==> d in count;
        assert d in total[c := y] <==> d in total;
      }
    }
  }

  /** A new name at the end of the list comes with a new row. */
  lemma KeyedOpen(names: seq<string>, count: map<string, int>, total: map<string, int>, c: string)
    requires Keyed(names, count, total)
    ensures Keyed(names + [c], count[c := 0], total[c := 0])
  {
    forall d ensures (d in count[c := 0] <==> d in names + [c]) && (d in total[c := 0] <==> d in names + [c]) {
      assert d in names + [c] <==> d in names || d == c;
      if d != c {
        assert d in count[c := 0] <==> d in count;
        assert d in total[c := 0] <==> d in total;
      }
    }
  }

  /** A zero row for a category no product in `seen` has is a correct row. */
  lemma RowsOpen(seen: seq<Product>, names: seq<string>, count: map<string, int>, total: map<string, int>, c: string)
    requires Rows(seen, names, count, total)
    requires InCategory(seen, c) == []
    ensures Rows(seen, names + [c], count[c := 0], total[c := 0])
  {
    forall d | d in names + [c]
      ensures d in count[c := 0] && d in total[c := 0]
      ensures count[c := 0][d] == |InCategory(seen, d)|
      ensures total[c := 0][d] == TotalStockValue(InCategory(seen, d))
    {
      if d != c {
        assert d in names;
      }
    }
  }

  /** Adding one and the product's value to its own row accounts for the product. */
  lemma RowsAdd(seen: seq<Product>, p: Product, names: seq<string>, count: map<string, int>, total: map<string, int>)
    requires Rows(seen, names, count, total)
    requires p.category in names
    ensures p.category in count && p.category in total
    ensures Rows(seen + [p], names,
                 count[p.category := count[p.category] + 1],
                 total[p.category := total[p.category] + Value(p)])
  {
    var c := p.category;
    var count' := count[c := count[c] + 1];
    var total' := total[c := total[c] + Value(p)];
    forall d | d in names
      ensures d in count' && d in total'
      ensures count'[d] == |InCategory(seen + [p], d)|
      ensures total'[d] == TotalStockValue(InCategory(seen + [p], d))
    {
      RowSnoc(seen, p, d);
      if d == c {
        assert count'[d] == count[d] + 1 && total'[d] == total[d] + Value(p);
      } else {
        assert count'[d] == count[d] && total'[d] == total[d];
      }
    }
  }

  /** A category that already has a row needs no new one. */
  lemma KnownRow(seen: seq<Product>, p: Product, names: seq<string>, count: map<string, int>, total: map<string, int>)
    requires Tallied(seen, names, count, total)
    requires p.category in count
    ensures names == Categories(seen + [p])
    ensures Opened(seen, p, names, count, total)
  {
    CategoriesSnoc(seen, p);
  }

  /** A category met for the first time gets a zero row and its name at the end. */
  lemma OpenRow(seen: seq<Product>, p: Product, names: seq<string>, count: map<string, int>, total: map<string, int>)
    requires Tallied(seen, names, count, total)
    requires p.category !in count
    ensures names + [p.category] == Categories(seen + [p])
    ensures Opened(seen, p, names + [p.category], count[p.category := 0], total[p.category := 0])
  {
    var c := p.category;
    CategoriesSnoc(seen, p);
    assert !Occurs(seen, c);
    NoOccurrenceNoRows(seen, c);
    KeyedOpen(names, count, total, c);
    RowsOpen(seen, names, count, total, c);
  }

  /** Adding one and the product's value to its opened row completes the step. */
  lemma AddRow(seen: seq<Product>, p: Product, names: seq<string>, count: map<string, int>, total: map<string, int>)
    requires Opened(seen, p, names, count, total)
    ensures p.category in count && p.category in total
    ensures Keyed(names, count[p.category := count[p.category] + 1], total[p.category := total[p.category] + Value(p)])
    ensures Rows(seen + [p], names,
                 count[p.category := count[p.category] + 1],
                 total[p.category := total[p.category] + Value(p)])
  {
    var c := p.category;
    KeyedSet(names, count, total, c, count[c] + 1, total[c] + Value(p));
    RowsAdd(seen, p, names, count, total);
  }

  /** Reading the rows off a finished pass gives the stock distribution. */
  lemma TalliedRows(ps: seq<Product>, names: seq<string>, count: map<string, int>, total: map<string, int>,
                    rows: seq<StockDistribution>)
    requires Tallied(ps, names, count, total)
    requires |rows| == |names|
    requires forall j :: 0 <= j < |rows| ==> rows[j] == StockDistribution(names[j], count[names[j]], total[names[j]])
    ensures rows == StockDistributionOf(ps)
  {
    assert rows == EntriesFor(names, ps);
  }
}

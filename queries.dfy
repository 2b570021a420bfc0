/**
 * Read-side rules over the product list: the category and low-stock
 * filters of the product listing, and the lookups the create, update and
 * delete handlers make before they write.
 */
module Queries {
  import opened Records

  /** Products whose category equals `c` exactly, in list order. */
  function InCategory(ps: seq<Product>, c: string): (r: seq<Product>)
    ensures |r| <= |ps|
    ensures forall p :: p in r <==> p in ps && p.category == c
  {
    if ps == [] then []
    else (if ps[0].category == c then [ps[0]] else []) + InCategory(ps[1..], c)
  }

  /** Products with quantity at or below their reorder level, in list order. */
  function LowStock(ps: seq<Product>): (r: seq<Product>)
    ensures |r| <= |ps|
    ensures forall p :: p in r <==> p in ps && IsLowStock(p)
  {
    if ps == [] then []
    else (if IsLowStock(ps[0]) then [ps[0]] else []) + LowStock(ps[1..])
  }

  /** The category filter works element by element: it keeps the order of the list. */
  lemma {:induction false} InCategoryAppend(a: seq<Product>, b: seq<Product>, c: string)
    ensures InCategory(a + b, c) == InCategory(a, c) + InCategory(b, c)
  {
    if a == [] {
      assert a + b == b;
    } else {
      assert (a + b)[1..] == a[1..] + b;
      InCategoryAppend(a[1..], b, c);
    }
  }

  /** The low-stock filter works element by element: it keeps the order of the list. */
  lemma {:induction false} LowStockAppend(a: seq<Product>, b: seq<Product>)
    ensures LowStock(a + b) == LowStock(a) + LowStock(b)
  {
    if a == [] {
      assert a + b == b;
    } else {
      assert (a + b)[1..] == a[1..] + b;
      LowStockAppend(a[1..], b);
    }
  }

  /** Filtering by category and by stock level may be done in either order. */
  lemma {:induction false} FiltersCommute(ps: seq<Product>, c: string)
    ensures LowStock(InCategory(ps, c)) == InCategory(LowStock(ps), c)
  {
    if ps != [] {
      FiltersCommute(ps[1..], c);
      var head := if ps[0].category == c then [ps[0]] else [];
      LowStockAppend(head, InCategory(ps[1..], c));
      var low := if IsLowStock(ps[0]) then [ps[0]] else [];
      InCategoryAppend(low, LowStock(ps[1..]), c);
    }
  }

  /** A category filter applies only for a non-empty name (the handler tests truthiness). */
  predicate CategoryFilterOn(category: Option<string>) {
    category.Some? && category.value != ""
  }

  /** The low-stock filter applies only when it is explicitly true. */
  predicate LowStockFilterOn(lowStock: Option<bool>) {
    lowStock == Some(true)
  }

  /** Whether one product passes the listing's query. */
  predicate Matches(p: Product, category: Option<string>, lowStock: Option<bool>) {
    (CategoryFilterOn(category) ==> p.category == category.value)
    && (LowStockFilterOn(lowStock) ==> IsLowStock(p))
  }

  /** The product listing: the category query, then the low-stock filter. */
  function ListProducts(ps: seq<Product>, category: Option<string>, lowStock: Option<bool>): (r: seq<Product>)
    ensures |r| <= |ps|
    ensures forall p :: p in r <==> p in ps && Matches(p, category, lowStock)
    ensures !CategoryFilterOn(category) && !LowStockFilterOn(lowStock) ==> r == ps
    ensures CategoryFilterOn(category) && !LowStockFilterOn(lowStock) ==> r == InCategory(ps, category.value)
    ensures !CategoryFilterOn(category) && LowStockFilterOn(lowStock) ==> r == LowStock(ps)
  {
    var found := if CategoryFilterOn(category) then InCategory(ps, category.value) else ps;
    if LowStockFilterOn(lowStock) then LowStock(found) else found
  }

  /** Index of the first product with the given id, if any. */
  function IndexOfId(ps: seq<Product>, id: string): (r: Option<nat>)
    ensures r.None? <==> forall k :: 0 <= k < |ps| ==> ps[k].id != id
    ensures r.Some? ==> r.value < |ps| && ps[r.value].id == id
    ensures r.Some? ==> forall k :: 0 <= k < r.value ==> ps[k].id != id
  {
    if ps == [] then None
    else if ps[0].id == id then Some(0)
    else match IndexOfId(ps[1..], id)
      case None => None
      case Some(k) => Some(k + 1)
  }

  /** Some product holds the SKU. */
  predicate SkuTaken(ps: seq<Product>, sku: string) {
    exists k :: 0 <= k < |ps| && ps[k].sku == sku
  }

  /** Some product other than the one with id `id` holds the SKU. */
  predicate SkuTakenByOther(ps: seq<Product>, sku: string, id: string) {
    exists k :: 0 <= k < |ps| && ps[k].sku == sku && ps[k].id != id
  }

  /** Some category already has the name. */
  predicate NameTaken(cs: seq<Category>, name: string) {
    exists k :: 0 <= k < |cs| && cs[k].name == name
  }

  /** No two products share a SKU. */
  predicate SkusUnique(ps: seq<Product>) {
    forall i, j :: 0 <= i < j < |ps| ==> ps[i].sku != ps[j].sku
  }

  /** No two products share an id. */
  predicate IdsUnique(ps: seq<Product>) {
    forall i, j :: 0 <= i < j < |ps| ==> ps[i].id != ps[j].id
  }

  /** No two categories share a name. */
  predicate NamesUnique(cs: seq<Category>) {
    forall i, j :: 0 <= i < j < |cs| ==> cs[i].name != cs[j].name
  }
}

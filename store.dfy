/**
 * The inventory store: the product and category collections and the
 * handlers that write to them (create a category, create, update and
 * delete a product) or walk them (the stock distribution).
 *
 * The database collections are in-memory sequences in insertion order;
 * every write keeps SKUs, product ids and category names unique.
 */
module Store {
  import opened Records
  import opened Queries
  import opened Dashboard
  import opened Distribution

  /** The product list without the entry at index `i`. */
  function Without(ps: seq<Product>, i: nat): (r: seq<Product>)
    requires i < |ps|
    ensures |r| == |ps| - 1
    ensures forall k :: 0 <= k < i ==> r[k] == ps[k]
    ensures forall k :: i <= k < |r| ==> r[k] == ps[k + 1]
  {
    ps[..i] + ps[i + 1..]
  }

  /** The update at index `i` would give the product a SKU another product holds. */
  predicate SkuClash(ps: seq<Product>, i: nat, u: ProductUpdate)
    requires i < |ps|
  {
    u.sku.Some? && u.sku.value != ps[i].sku && SkuTakenByOther(ps, u.sku.value, ps[i].id)
  }

  /**
   * One iteration of the grouping pass: open a zero row for a category not
   * seen before, then add one and the product's value to its row.
   */
  method AddToRow(ghost seen: seq<Product>, p: Product,
                  names: seq<string>, count: map<string, int>, total: map<string, int>)
    returns (names': seq<string>, count': map<string, int>, total': map<string, int>)
    requires Tallied(seen, names, count, total)
    ensures Tallied(seen + [p], names', count', total')
  {
    var c := p.category;
    names', count', total' := names, count, total;
    if c !in count' {
      OpenRow(seen, p, names, count, total);
      names' := names' + [c];
      count' := count'[c := 0];
      total' := total'[c := 0];
    } else {
      KnownRow(seen, p, names, count, total);
    }
    assert names' == Categories(seen + [p]);
    AddRow(seen, p, names', count', total');
    count' := count'[c := count'[c] + 1];
    total' := total'[c := total'[c] + Value(p)];
  }

  class Inventory {
    var products: seq<Product>
    var categories: seq<Category>

    ghost predicate Valid()
      reads this
    {
      SkusUnique(products) && IdsUnique(products) && NamesUnique(categories)
    }

    /**
     * The product listing over the stored products: the category query,
     * then the low-stock filter.
     */
    function GetProducts(category: Option<string>, lowStock: Option<bool>): (r: seq<Product>)
      reads this
      ensures forall p :: p in r <==> p in products && Matches(p, category, lowStock)
      ensures !CategoryFilterOn(category) && !LowStockFilterOn(lowStock) ==> r == products
    {
      ListProducts(products, category, lowStock)
    }

    /** The dashboard summary: the product list and the number of stored categories. */
    function GetDashboardStats(): (s: DashboardStats)
      reads this
      ensures s.totalProducts == |products| && s.totalCategories == |categories|
      ensures s.lowStockCount == |LowStock(products)|
      ensures s.totalQuantity == TotalQuantity(products) && s.totalStockValue == TotalStockValue(products)
    {
      Stats(products, |categories|)
    }

    /** An empty store. */
    constructor ()
      ensures Valid()
      ensures products == [] && categories == []
    {
      products := [];
      categories := [];
    }

    /** Adds a category unless one with the same name exists. */
    method CreateCategory(id: string, data: CategoryCreate) returns (r: Result<Category>)
      requires Valid()
      modifies this
      ensures Valid()
      ensures products == old(products)
      ensures NameTaken(old(categories), data.name) ==>
                r == Err(CategoryExists) && categories == old(categories)
      ensures !NameTaken(old(categories), data.name) ==>
                r == Ok(NewCategory(id, data)) && categories == old(categories) + [NewCategory(id, data)]
    {
      if NameTaken(categories, data.name) {
        return Err(CategoryExists);
      }
      var category := NewCategory(id, data);
      categories := categories + [category];
      r := Ok(category);
    }

    /**
     * Adds a product unless its SKU is taken. The id stands for the freshly
     * drawn uuid, so it is not yet in use.
     */
    method CreateProduct(id: string, data: ProductCreate) returns (r: Result<Product>)
      requires Valid()
      requires forall k :: 0 <= k < |products| ==> products[k].id != id
      modifies this
      ensures Valid()
      ensures categories == old(categories)
      ensures SkuTaken(old(products), data.sku) ==>
                r == Err(SkuExists) && products == old(products)
      ensures !SkuTaken(old(products), data.sku) ==>
                r == Ok(NewProduct(id, data)) && products == old(products) + [NewProduct(id, data)]
    {
      if SkuTaken(products, data.sku) {
        return Err(SkuExists);
      }
      var product := NewProduct(id, data);
      products := products + [product];
      r := Ok(product);
    }

    /**
     * Overwrites the supplied fields of the product with the given id.
     * Fails with not-found for an unknown id, and leaves the store as it
     * was when the new SKU belongs to another product.
     */
    method UpdateProduct(productId: string, u: ProductUpdate) returns (r: Result<Product>)
      requires Valid()
      modifies this
      ensures Valid()
      ensures categories == old(categories)
      ensures IndexOfId(old(products), productId).None? ==>
                r == Err(ProductNotFound) && products == old(products)
      ensures IndexOfId(old(products), productId).Some? ==>
                var i := IndexOfId(old(products), productId).value;
                if SkuClash(old(products), i, u) then
                  r == Err(SkuExists) && products == old(products)
                else
                  r == Ok(ApplyUpdate(old(products)[i], u)) && products == old(products)[i := r.value]
    {
      var found := IndexOfId(products, productId);
      if found.None? {
        return Err(ProductNotFound);
      }
      var i := found.value;
      var existing := products[i];
      if u.sku.Some? && u.sku.value != existing.sku && SkuTakenByOther(products, u.sku.value, productId) {
        return Err(SkuExists);
      }
      var updated := ApplyUpdate(existing, u);
      ghost var before := products;
      products := products[i := updated];
      r := Ok(updated);
      assert SkusUnique(products) by {
        forall j, k | 0 <= j < k < |products| ensures products[j].sku != products[k].sku {
          if j == i || k == i {
            var other := if j == i then k else j;
            assert before[other].id != productId;
          }
        }
      }
    }

    /** Removes the product with the given id; an unknown id is not-found. */
    method DeleteProduct(productId: string) returns (r: Result<()>)
      requires Valid()
      modifies this
      ensures Valid()
      ensures categories == old(categories)
      ensures IndexOfId(old(products), productId).None? ==>
                r == Err(ProductNotFound) && products == old(products)
      ensures IndexOfId(old(products), productId).Some? ==>
                r == Ok(()) && products == Without(old(products), IndexOfId(old(products), productId).value)
    {
      var found := IndexOfId(products, productId);
      if found.None? {
        return Err(ProductNotFound);
      }
      var i := found.value;
      ghost var before := products;
      products := Without(products, i);
      r := Ok(());
      assert SkusUnique(products) && IdsUnique(products) by {
        forall j, k | 0 <= j < k < |products|
          ensures products[j].sku != products[k].sku && products[j].id != products[k].id
        {
          var j' := if j < i then j else j + 1;
          var k' := if k < i then k else k + 1;
          assert products[j] == before[j'] && products[k] == before[k'];
        }
      }
    }

    /**
     * Groups the products by category name in one pass over an
     * insertion-ordered map: the list of names in order of insertion and
     * the running count and value of each.
     */
    method GetStockDistribution() returns (r: seq<StockDistribution>)
      ensures r == StockDistributionOf(products)
    {
      var ps := products;
      var names: seq<string> := [];
      var count: map<string, int> := map[];
      var total: map<string, int> := map[];
      TalliedEmpty();
      ghost var seen: seq<Product> := [];
      var i := 0;
      while i < |ps|
        invariant 0 <= i <= |ps|
        invariant seen == ps[..i]
        invariant Tallied(seen, names, count, total)
      {
        names, count, total := AddToRow(seen, ps[i], names, count, total);
        seen := seen + [ps[i]];
        i := i + 1;
      }
      assert seen == ps;
      r := seq(|names|, j requires 0 <= j < |names| => StockDistribution(names[j], count[names[j]], total[names[j]]));
      TalliedRows(seen, names, count, total, r);
    }
  }
}

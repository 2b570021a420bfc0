/**
 * Record shapes of the inventory service: categories, products, the
 * create/update payloads, the dashboard summary and one stock-distribution
 * row, together with the error outcomes the handlers raise.
 *
 * Prices are integer cents so that every value sum is exact; ids are
 * opaque strings supplied by the caller (the service draws them from uuid4).
 */
module Records {

  datatype Option<T> = None | Some(value: T) {
    function GetOr(default: T): T {
      match this
      case Some(v) => v
      case None => default
    }
  }

  /** The three HTTP errors raised by the modelled handlers. */
  datatype Error = CategoryExists | SkuExists | ProductNotFound

  datatype Result<T> = Ok(value: T) | Err(error: Error)

  /** HTTP status code of each error. */
  function StatusCode(e: Error): (code: int)
    ensures code == 400 || code == 404
    ensures code == 404 <==> e == ProductNotFound
  {
    match e
    case CategoryExists => 400
    case SkuExists => 400
    case ProductNotFound => 404
  }

  /** The `detail` text sent with each error. */
  function Detail(e: Error): (d: string)
    ensures d != []
  {
    match e
    case CategoryExists => "Category already exists"
    case SkuExists => "SKU already exists"
    case ProductNotFound => "Product not found"
  }

  /** The status code and detail text together tell the three errors apart. */
  lemma ErrorsDistinguishable(e1: Error, e2: Error)
    requires StatusCode(e1) == StatusCode(e2) && Detail(e1) == Detail(e2)
    ensures e1 == e2
  {
  }

  datatype Category = Category(id: string, name: string, description: Option<string>)

  datatype CategoryCreate = CategoryCreate(name: string, description: Option<string>)

  datatype Product = Product(
    id: string,
    name: string,
    sku: string,
    category: string,
    quantity: int,
    unitPrice: int,        // cents
    reorderLevel: int,
    description: Option<string>)

  /** Payload of a create request; `reorderLevel` may be omitted. */
  datatype ProductCreate = ProductCreate(
    name: string,
    sku: string,
    category: string,
    quantity: int,
    unitPrice: int,
    reorderLevel: Option<int>,
    description: Option<string>)

  /** Payload of a partial update: `None` means "not supplied". */
  datatype ProductUpdate = ProductUpdate(
    name: Option<string>,
    sku: Option<string>,
    category: Option<string>,
    quantity: Option<int>,
    unitPrice: Option<int>,
    reorderLevel: Option<int>,
    description: Option<string>)

  datatype DashboardStats = DashboardStats(
    totalProducts: int,
    totalCategories: int,
    lowStockCount: int,
    totalStockValue: int,
    totalQuantity: int)

  datatype StockDistribution = StockDistribution(category: string, count: int, totalValue: int)

  /** Reorder level of a product created without one. */
  const DefaultReorderLevel: int := 10

  /** The update that supplies no field. */
  const NoChange: ProductUpdate := ProductUpdate(None, None, None, None, None, None, None)

  /** Stock value of one product line, in cents. */
  function Value(p: Product): int {
    p.quantity * p.unitPrice
  }

  /** A product is low on stock when its quantity has reached its reorder level. */
  predicate IsLowStock(p: Product) {
    p.quantity <= p.reorderLevel
  }

  /** The category stored for a create request under the given id. */
  function NewCategory(id: string, data: CategoryCreate): (c: Category)
    ensures c.id == id && c.name == data.name && c.description == data.description
  {
    Category(id, data.name, data.description)
  }

  /** The product stored for a create request under the given id. */
  function NewProduct(id: string, data: ProductCreate): (p: Product)
    ensures p.id == id && p.sku == data.sku && p.category == data.category
    ensures p.name == data.name && p.quantity == data.quantity && p.unitPrice == data.unitPrice
    ensures p.description == data.description
    ensures data.reorderLevel.None? ==> p.reorderLevel == DefaultReorderLevel
    ensures data.reorderLevel.Some? ==> p.reorderLevel == data.reorderLevel.value
  {
    Product(id, data.name, data.sku, data.category, data.quantity, data.unitPrice,
            data.reorderLevel.GetOr(DefaultReorderLevel), data.description)
  }

  /** Overwrites exactly the fields the update supplies; the id never changes. */
  function ApplyUpdate(p: Product, u: ProductUpdate): (q: Product)
    ensures q.id == p.id
    ensures u.name.None? ==> q.name == p.name
    ensures u.sku.None? ==> q.sku == p.sku
    ensures u.category.None? ==> q.category == p.category
    ensures u.quantity.None? ==> q.quantity == p.quantity
    ensures u.unitPrice.None? ==> q.unitPrice == p.unitPrice
    ensures u.reorderLevel.None? ==> q.reorderLevel == p.reorderLevel
    ensures u.description.None? ==> q.description == p.description
    ensures u.name.Some? ==> q.name == u.name.value
    ensures u.sku.Some? ==> q.sku == u.sku.value
    ensures u.category.Some? ==> q.category == u.category.value
    ensures u.quantity.Some? ==> q.quantity == u.quantity.value
    ensures u.unitPrice.Some? ==> q.unitPrice == u.unitPrice.value
    ensures u.reorderLevel.Some? ==> q.reorderLevel == u.reorderLevel.value
    ensures u.description.Some? ==> q.description == u.description
  {
    Product(
      p.id,
      u.name.GetOr(p.name),
      u.sku.GetOr(p.sku),
      u.category.GetOr(p.category),
      u.quantity.GetOr(p.quantity),
      u.unitPrice.GetOr(p.unitPrice),
      u.reorderLevel.GetOr(p.reorderLevel),
      match u.description
      case Some(d) => Some(d)
      case None => p.description)
  }

  /** Field-wise merge: a field supplied by `second` wins over `first`. */
  function Then(first: ProductUpdate, second: ProductUpdate): ProductUpdate {
    ProductUpdate(
      if second.name.Some? then second.name else first.name,
      if second.sku.Some? then second.sku else first.sku,
      if second.category.Some? then second.category else first.category,
      if second.quantity.Some? then second.quantity else first.quantity,
      if second.unitPrice.Some? then second.unitPrice else first.unitPrice,
      if second.reorderLevel.Some? then second.reorderLevel else first.reorderLevel,
      if second.description.Some? then second.description else first.description)
  }

  /** An update that supplies nothing leaves the product as it was. */
  lemma NoChangeIsIdentity(p: Product)
    ensures ApplyUpdate(p, NoChange) == p
  {
  }

  /** Re-sending the same update changes nothing more. */
  lemma UpdateIdempotent(p: Product, u: ProductUpdate)
    ensures ApplyUpdate(ApplyUpdate(p, u), u) == ApplyUpdate(p, u)
  {
  }

  /** Two successive updates act as their merge. */
  lemma UpdatesCompose(p: Product, u1: ProductUpdate, u2: ProductUpdate)
    ensures ApplyUpdate(ApplyUpdate(p, u1), u2) == ApplyUpdate(p, Then(u1, u2))
  {
  }
}

# Inventory service model

This project models the business rules of the inventory service in
`backend/server.py`. The service is a FastAPI application that keeps two
MongoDB collections, products and categories. The handlers modelled here are:

- `create_category`: rejects a name already in use.
- `create_product`: rejects a SKU already in use and fills in a reorder level of 10.
- `update_product`: partial update by id. Only supplied fields overwrite the
  product. An unknown id is not-found, and a SKU held by another product is rejected.
- `delete_product`: an unknown id is not-found.
- `get_products`: optional category filter and optional low-stock filter.
- `get_dashboard_stats`: counts and sums over the product list.
- `get_stock_distribution`: groups products by category name in one pass
  over an insertion-ordered dictionary.

The collections become an `Inventory` class holding a `seq<Product>` and a
`seq<Category>`, in insertion order. The writing handlers are methods that
reassign those fields. The class invariant `Valid` states that SKUs, product
ids and category names are unique, and every writing method preserves it.
The list filter, the partial update and the dashboard sums are functions;
the two reading handlers are the functions `GetProducts` and
`GetDashboardStats` of `Inventory`, which apply them to the stored lists.
The stock distribution is a method with a loop over the products; its state
is the list of category names in insertion order and two maps from name to
count and to value. It is proved equal to the reference definition
`StockDistributionOf`, which lists the rows of the distinct category names.

Modules, in dependency order:

- `Records` (`records.dfy`): record shapes, errors and their HTTP status,
  creation defaults and the partial update.
- `Queries` (`queries.dfy`): the category and low-stock filters, the product
  listing, and the lookups made before each write.
- `Dashboard` (`dashboard.dfy`): the dashboard summary and its laws.
- `Distribution` (`distribution.dfy`): the reference stock distribution, its
  laws, and the loop invariant of the grouping pass.
- `Store` (`store.dfy`): the `Inventory` class and its handlers.

Unit prices are whole cents, so every value sum is exact. The service stores
them as floats. Ids come from `uuid4` in the service and are parameters here.

The stock distribution has one row per category name that occurs among the
products, ordered by first appearance, and no rows for categories without
products. Quantities and prices carry no
non-negativity constraint in the code, so the model does not assume one; the
lemma that needs it (`Dashboard.TotalsNonNegative`) takes it as a hypothesis.

## Model

| member | source | states |
|---|---|---|
| Records.StatusCode | backend/server.py:176-241 | A duplicate name or SKU is HTTP 400 and a missing product is HTTP 404; the code is 404 exactly for not-found |
| Records.Detail | backend/server.py:176-241 | The detail text of each error, as raised with it: "Category already exists", "SKU already exists", "Product not found"; never empty |
| Records.ErrorsDistinguishable | backend/server.py:176-241 | No two different errors share both status code and detail text, so a client can tell the three apart |
| Records.NewCategory | backend/server.py:182 | The stored category carries the request's name and description under the given id |
| Records.NewProduct | backend/server.py:78-85 | The stored product copies every supplied field; an omitted reorder level becomes 10 |
| Records.ApplyUpdate | backend/server.py:223-231 | Every supplied field overwrites the product and every omitted field keeps its value; the id never changes |
| Records.NoChangeIsIdentity | backend/server.py:223 | An update that supplies no field leaves the product unchanged |
| Records.UpdateIdempotent | backend/server.py:223-231 | Applying the same update twice gives the same product as applying it once |
| Records.UpdatesCompose | backend/server.py:223-231 | Two successive updates act as one update in which the later supplied fields win |
| Queries.InCategory | backend/server.py:192-196 | The category query keeps exactly the products whose category equals the name, and never adds any |
| Queries.LowStock | backend/server.py:198-199 | The low-stock filter keeps exactly the products with quantity at or below their reorder level |
| Queries.InCategoryAppend | backend/server.py:192-196 | The category query works element by element, so it keeps the list order |
| Queries.LowStockAppend | backend/server.py:198-199 | The low-stock filter works element by element, so it keeps the list order |
| Queries.FiltersCommute | backend/server.py:192-199 | Applying the category query and the low-stock filter in either order gives the same list |
| Queries.ListProducts | backend/server.py:186-201 | A product is listed iff it is stored and passes every filter that is switched on (a non-empty category, low_stock true); with no filter the whole list comes back, in order |
| Queries.IndexOfId | backend/server.py:219-221 | Finds the first product with the id, or reports that no product has it |
| Dashboard.LowStockCount | backend/server.py:249 | The low-stock count is at most the number of products, and equals it iff every product is low on stock |
| Dashboard.LowStockCountIsFilterLength | backend/server.py:249 | The dashboard's low-stock count is the length of the listing's low-stock filter |
| Dashboard.TotalsNonNegative | backend/server.py:250-251 | With no negative quantity or price, the quantity and value totals are not negative |
| Dashboard.Stats | backend/server.py:243-259 | total_products is the number of products, total_categories the number of categories, low_stock_count the size of the low-stock filter and at most total_products, total_quantity the sum of the quantities and total_stock_value the sum of quantity times unit price; an empty product list gives zero counts and sums |
| Dashboard.LowStockCountAppend | backend/server.py:249 | The low-stock count of a concatenation is the sum of the two counts |
| Dashboard.TotalQuantityAppend | backend/server.py:251 | The quantity total of a concatenation is the sum of the two totals |
| Dashboard.TotalStockValueAppend | backend/server.py:250 | The value total of a concatenation is the sum of the two totals |
| Dashboard.LowStockCountWithout | backend/server.py:249 | Removing one product removes exactly its share of the low-stock count |
| Dashboard.TotalQuantityWithout | backend/server.py:251 | Removing one product removes exactly its quantity from the total |
| Dashboard.TotalStockValueWithout | backend/server.py:250 | Removing one product removes exactly its value from the total |
| Dashboard.SumsPermutationInvariant | backend/server.py:248-251 | Product count, low-stock count, quantity total and value total do not depend on the order of the products |
| Dashboard.StatsPermutationInvariant | backend/server.py:243-259 | Any reordering of the products gives the same dashboard summary |
| Distribution.Categories | backend/server.py:265-269 | The distinct category names, each exactly once, and a name is listed iff some product has it |
| Distribution.EntriesFor | backend/server.py:273-276 | One row per given name, in the given order, holding that name's product count and value sum |
| Distribution.StockDistributionOf | backend/server.py:261-276 | One row per distinct category, in the order of the category names, and every row counts at least one product; no products give no rows |
| Distribution.FirstAppearanceOrder | backend/server.py:265-269 | When a category's row comes after another's, every product of the later category is preceded by a product of the earlier one |
| Distribution.InCategorySnoc | backend/server.py:266-270 | Appending a product extends its own category's selection by that product and leaves every other selection as it was |
| Distribution.RowSnoc | backend/server.py:270-271 | Appending a product adds one and its value to its own category's tally and nothing to the others |
| Distribution.CategoriesSnoc | backend/server.py:267-269 | Appending a product appends its category name iff the name was not yet listed |
| Distribution.NoOccurrenceNoRows | backend/server.py:267-269 | A name that no product has selects no products |
| Distribution.NewCategoryRow | backend/server.py:268-271 | The row of a category that only the appended product has counts one product, at that product's value |
| Distribution.EntriesForSnoc | backend/server.py:273-276 | Rows for a name list extended by one name are the old rows plus that name's row |
| Distribution.SumsAppend | backend/server.py:273-276 | The count and value sums of a concatenation of rows are the sums of the parts |
| Distribution.EntriesAddProduct | backend/server.py:270-271 | Appending a product raises the sums over distinct listed names by one and its value iff its category is listed |
| Distribution.SnocKnown | backend/server.py:270-271 | A product of an already listed category adds one to the count sum and its value to the value sum |
| Distribution.SnocNew | backend/server.py:268-271 | A product of a new category adds one to the count sum and its value to the value sum through a new row |
| Distribution.DistributionSums | backend/server.py:265-275 | The row counts sum to the number of products, and the row values sum to the dashboard's total_stock_value (line 250) |
| Distribution.DistributionMatchesDashboard | backend/server.py:243-276 | The distribution's row values add up to the dashboard's total_stock_value, and its row counts to total_products |
| Distribution.TalliedEmpty | backend/server.py:265 | Loop-proof helper for `GetStockDistribution` (initialisation): the empty dictionary is the correct tally of no products |
| Distribution.KeyedSet | backend/server.py:270-271 | Loop-proof helper for `GetStockDistribution`: overwriting the row of a listed name keeps one row per listed name |
| Distribution.KeyedOpen | backend/server.py:268-269 | Loop-proof helper for `GetStockDistribution`: opening a row for a new name at the end keeps one row per listed name |
| Distribution.RowsOpen | backend/server.py:268-269 | Loop-proof helper for `GetStockDistribution`: a zero row is the correct tally for a name that no product seen so far has |
| Distribution.RowsAdd | backend/server.py:270-271 | Loop-proof helper for `GetStockDistribution`: adding one and the product's value to its row makes every row correct for the list extended by that product |
| Distribution.KnownRow | backend/server.py:268 | Loop-proof helper for `GetStockDistribution`: a category already in the dictionary keeps the names as they are, and they are the names of the extended list |
| Distribution.OpenRow | backend/server.py:268-269 | Loop-proof helper for `GetStockDistribution`: a category not yet in the dictionary gets a zero row, and its name appended gives the names of the extended list |
| Distribution.AddRow | backend/server.py:270-271 | Loop-proof helper for `GetStockDistribution`: the two increments complete the step: every row is correct for the list extended by the product |
| Distribution.TalliedRows | backend/server.py:273-276 | Loop-proof helper for `GetStockDistribution` (after the loop): reading the rows off a finished tally in insertion order gives the reference stock distribution |
| Store.Without | backend/server.py:238 | Removing index i keeps every product before i and shifts every product after it down by one |
| Store.AddToRow | backend/server.py:266-271 | One loop iteration turns a correct tally of the products seen into a correct tally of those products plus the next one |
| Store.Inventory.GetProducts | backend/server.py:186-201 | A stored product is listed iff it passes every filter that is switched on; with no filter every stored product comes back, in order |
| Store.Inventory.GetDashboardStats | backend/server.py:243-259 | The summary of the store: the number of stored products and categories, the size of the low-stock filter, and the quantity and value totals of the stored products |
| Store.Inventory.CreateCategory | backend/server.py:176-184 | A taken name fails with CategoryExists and changes nothing; otherwise exactly the new category is appended; category names stay unique |
| Store.Inventory.CreateProduct | backend/server.py:203-211 | A taken SKU fails with SkuExists and changes nothing; otherwise exactly the new product, with its defaults, is appended; SKUs and ids stay unique |
| Store.Inventory.UpdateProduct | backend/server.py:213-234 | An unknown id fails with ProductNotFound; a new SKU held by another product fails with SkuExists; either failure changes nothing; otherwise only that product changes, to the partial update of it; SKUs stay unique |
| Store.Inventory.DeleteProduct | backend/server.py:236-241 | An unknown id fails with ProductNotFound and changes nothing; otherwise exactly that product is removed and the others keep their order |
| Store.Inventory.GetStockDistribution | backend/server.py:261-276 | The loop over the insertion-ordered dictionary returns exactly the reference stock distribution of the stored products |

## Left out

- Authentication: JWT creation and decoding, bcrypt hashing, `get_current_user`
  and the register, login and me endpoints wrap foreign libraries. No handler
  here takes a user.
- Database I/O: the asynchronous client is replaced by in-memory sequences.
  This drops the `to_list(1000)` cap on every read. `count_documents` becomes
  the length of the category list (`Store.Inventory.GetDashboardStats`).
- `get_categories` returns the stored list unchanged. It is the
  `categories` field itself and has no member of its own.
- Ids and timestamps: `uuid4` ids are parameters, and the `created_at` and
  `updated_at` fields are not modelled, because both are nondeterministic.
- Store.Inventory.CreateProduct: requires that the new id is not yet in use,
  which stands for the uniqueness of a fresh `uuid4`. Uniqueness of ids is
  what makes the update's SKU test sufficient to keep SKUs unique.
- Floating point: `unit_price`, `total_stock_value` and `total_value` are floats in
  the service. Here they are exact integers in cents, so
  `Distribution.DistributionSums` states an equality that the float sums
  satisfy only up to rounding.
- Request validation by pydantic (types, `EmailStr`, `extra="ignore"`) is
  library behaviour. The model's payload types already have the right shape.
- The `seed_data` fixture, CORS middleware, logging and the shutdown hook are
  configuration.
- Concurrency: the create and update handlers look for a duplicate and then
  write, in separate database calls, so two concurrent requests could both
  find no duplicate. Every handler here runs as one atomic step.

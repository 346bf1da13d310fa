# Inventory stock ledger — a Dafny model

This project models the core of a small inventory-management back end written in Go.
The core is the stock-ledger engine. It receives stock (stock in) and dispatches stock (stock out).
It sets stock to a counted figure (adjustment) and moves stock between two products (transfer).
Every accepted movement appends one entry to an append-only ledger and rewrites the product's row.
Around the engine sit:

- the Product, Category and Transaction entities;
- the SKU value object;
- the meaning of the product store's SQL queries (lookups, paged listings, the low-stock list, search);
- the product and inventory use cases, which shape store results into responses;
- a few utilities: pagination, membership, required-field validation.

How the model is organised:

- **Stores are values held by objects.** `ProductRepository.rows` is a sequence of product records, at most one per id. `TransactionRepository.entries` is the ledger in insertion order. Store methods change these fields and state the new contents exactly.
- **Failures of the database are parameters.** Each read takes a `fails` flag. The engine takes a `Faults` value saying which of its three store calls fails: the lookup, the ledger insert, or the product update. A failure yields `StorageFailure` with the operation's name, as the repository wraps it.
- **Ids and clocks are parameters.** The fresh UUID a constructor would draw and the current time are passed in.
- **Each engine operation is stated twice.**
  - A pure function over (products, ledger) returns an `Outcome`: `Inventory.StockIn`, `StockOut`, `Adjust` and `Transfer`.
  - A method of `InventoryService` performs the same steps in place: it loads the entity, calls `UpdateStock`, builds the ledger entry, inserts it and writes the product back. Its `ensures` says its error and the two stores equal that function applied to the old state.
  - The lemmas in `InventoryProperties` prove what the engine promises about those functions.
- **Paging follows PostgreSQL.** `LIMIT`/`OFFSET` skip and cut a sequence, and ORDER BY is a stable sort under a total preorder. PostgreSQL refuses a negative LIMIT or OFFSET, and the model returns `StorageFailure` for one. So `ListProducts` with a page below 1 and a positive limit fails, because its offset `(page - 1) * limit` is computed without correction.

Where the code may surprise a reader, the model follows the code:

- An adjustment does not refresh the product's `updated_at` (`Inventory.Adjust`).
- A product update does not refresh `updated_at` either.
- Product creation ignores an error from the SKU lookup, and then skips the duplicate check.
- The use cases never build an `SKU` value object. Stored SKUs are neither validated nor upper-cased.
- The two writes of a movement are not atomic: if the product update fails, the ledger entry stays (`WritesAreNotAtomic`).
- The transfer is two independent movements. A failure of the second leaves the first applied (`TransferKeepsOutWhenInFails`).
- Nothing orders a product's two thresholds, so a product can be low and over stock at once (`LowAndOverTogether`).

## Model

| member | source | states |
|---|---|---|
| Transactions.NewTransaction | internal/domain/entities/transaction.go:20-38 | the entry carries the given product, type, quantity, reference, notes and author with the given id and time; it is stock-in, stock-out or adjustment exactly when its type is "in", "out" or "adjustment" |
| Transactions.KindsAreExclusive | internal/domain/entities/transaction.go:40-53 | at most one of the three kind checks holds, and none for any other type string |
| Products.LowAndOverTogether | internal/domain/entities/product.go:45-53 | a product is low and over stock at once exactly when maxStock <= stock <= minStock, so never when minStock < maxStock |
| Products.Product.NewProduct | internal/domain/entities/product.go:26-43 | a new product has the given fields, stock 0, status "active" and both timestamps equal to now |
| Products.Product.Load | internal/infrastructure/database/postgres/product_repository.go:51-56 | an entity scanned from a row holds exactly that row's values |
| Products.Product.UpdateStock | internal/domain/entities/product.go:55-63 | refuses with InsufficientStock exactly when stock + quantity < 0 and then changes nothing; otherwise sets stock to stock + quantity and updatedAt to now, changes no other field, and leaves stock non-negative |
| Products.Product.Deactivate | internal/domain/entities/product.go:65-69 | the status becomes "inactive" and updatedAt becomes now; nothing else changes |
| Products.Product.Activate | internal/domain/entities/product.go:71-74 | the status becomes "active" and updatedAt becomes now; nothing else changes |
| Categories.Category.NewCategory | internal/domain/entities/category.go:20-36 | a new category has the given fields, status "active", both timestamps now, and is a sub-category exactly when a parent is given |
| Categories.Category.Deactivate | internal/domain/entities/category.go:38-42 | the status becomes "inactive" and updatedAt now; nothing else changes, the parent included |
| Categories.Category.Activate | internal/domain/entities/category.go:44-47 | the status becomes "active" and updatedAt now; nothing else changes, the parent included |
| Skus.AllSkuChars | internal/domain/valueobjects/sku.go:43-44 | true exactly when every character is a letter, digit, '-' or '_' |
| Skus.ValidateSku | internal/domain/valueobjects/sku.go:38-54 | no error exactly when the value has 3 to 20 characters from the allowed set; the empty value gets the emptiness error, any other rejected value the format error |
| Skus.ToUpper | internal/domain/valueobjects/sku.go:17-20 | upper-cases each ASCII letter and keeps the length and every other character |
| Skus.NewSKU | internal/domain/valueobjects/sku.go:15-30 | succeeds exactly when the value passes validation, and then holds (and prints as) the upper-cased value; fails with the validation's error otherwise |
| Skus.EqualsIgnoresCase | internal/domain/valueobjects/sku.go:33-35 | two valid SKUs compare equal exactly when their values have the same length and agree character by character ignoring ASCII letter case |
| Skus.EqualsExample | internal/domain/valueobjects/sku.go:15-35 | "abc-1" and "ABC-1" both build and compare equal |
| Skus.LowerCaseAccepted | internal/domain/valueobjects/sku.go:15-21 | a lower-case value is accepted and stored upper-cased ("sku-abc" becomes "SKU-ABC") |
| Skus.TrailingNewlineRejected | internal/domain/valueobjects/sku.go:44-51 | any value ending in a newline is rejected with the format error, since the pattern is anchored at the very end of the text |
| Skus.NormalisingTwiceChangesNothing | internal/domain/valueobjects/sku.go:17-20 | building an SKU from an SKU's value gives the same SKU |
| Seqs.Filter | internal/infrastructure/database/postgres/product_repository.go:123-151 | keeps exactly the elements satisfying the WHERE condition, and is no longer than its input |
| Seqs.SortIsSortedPermutation | internal/infrastructure/database/postgres/product_repository.go:93-98 | ORDER BY under a total preorder yields a sorted rearrangement of the same rows (same multiset) |
| Seqs.Page | internal/infrastructure/database/postgres/product_repository.go:93-99 | LIMIT/OFFSET keeps min(limit, n - offset) rows, or none past the end, and row i of the page is row offset + i of the input |
| Seqs.PageOfSorted | internal/infrastructure/database/postgres/product_repository.go:93-121 | a page of a sorted result is sorted and holds only rows of the result |
| Seqs.FilterAppend | internal/infrastructure/database/postgres/product_repository.go:123-151 | filtering an appended row adds that row at the end exactly when it matches |
| Seqs.StrLeTotal | internal/infrastructure/database/postgres/product_repository.go:222 | the name order is total, so ORDER BY name ranks every pair |
| Seqs.StrLeTransitive | internal/infrastructure/database/postgres/product_repository.go:222 | the name order is transitive |
| ProductRepo.FindById | internal/infrastructure/database/postgres/product_repository.go:45-67 | no row found exactly when no row has the id; a row found is in the table and has that id |
| ProductRepo.FindBySku | internal/infrastructure/database/postgres/product_repository.go:69-91 | no row found exactly when no row has the SKU; a row found is in the table and has that SKU |
| ProductRepo.OrdersArePreorders | internal/infrastructure/database/postgres/product_repository.go:93-247 | newest-first, least-stock-first and by-name are total preorders, so every listing is a sorted permutation |
| ProductRepo.ReplaceKeepsIds | internal/infrastructure/database/postgres/product_repository.go:153-173 | an UPDATE keeps the set of ids and their uniqueness |
| ProductRepo.ReplaceMissChangesNothing | internal/infrastructure/database/postgres/product_repository.go:153-173 | an UPDATE of an id no row has changes no row |
| ProductRepo.FindAfterReplace | internal/infrastructure/database/postgres/product_repository.go:153-173 | after an UPDATE, the row with that id holds the new values, with its id and created_at kept; every other lookup finds what it found before |
| ProductRepo.RemoveKeepsUniqueIds | internal/infrastructure/database/postgres/product_repository.go:175-185 | a DELETE keeps ids unique |
| ProductRepo.ProductRepository.Create | internal/infrastructure/database/postgres/product_repository.go:25-43 | an INSERT appends the product when the store does not fail, and changes nothing when it does |
| ProductRepo.ProductRepository.GetByID | internal/infrastructure/database/postgres/product_repository.go:45-67 | fails exactly on a store failure; otherwise returns the row with the id, or nothing exactly when no row has it |
| ProductRepo.ProductRepository.GetBySKU | internal/infrastructure/database/postgres/product_repository.go:69-91 | fails exactly on a store failure; otherwise returns the row with the SKU, or nothing exactly when no row has it |
| ProductRepo.ProductRepository.GetAll | internal/infrastructure/database/postgres/product_repository.go:93-121 | fails exactly on a store failure or a negative limit or offset; otherwise the page of all rows newest first, sorted, at most limit long, every row from the table |
| ProductRepo.ProductRepository.GetByCategory | internal/infrastructure/database/postgres/product_repository.go:123-151 | as GetAll, over the rows of the given category only |
| ProductRepo.ProductRepository.GetLowStockProducts | internal/infrastructure/database/postgres/product_repository.go:187-215 | fails exactly on a store failure; otherwise exactly the active rows with stock <= min_stock, least stock first, as a permutation of those rows |
| ProductRepo.ProductRepository.Search | internal/infrastructure/database/postgres/product_repository.go:217-247 | fails exactly on a store failure or a negative limit or offset; otherwise a page, sorted by name, of the active rows whose name, description or SKU contains the query ignoring ASCII case |
| ProductRepo.ProductRepository.Select | internal/infrastructure/database/postgres/product_repository.go:105-120 | the row-scanning loop returns exactly the rows satisfying the condition, in table order |
| ProductRepo.ProductRepository.Update | internal/infrastructure/database/postgres/product_repository.go:153-173 | the UPDATE rewrites the row with the product's id (keeping its created_at) unless the store fails; ids stay unique |
| ProductRepo.ProductRepository.Delete | internal/infrastructure/database/postgres/product_repository.go:175-185 | removes exactly the rows with the id unless the store fails; a missing id is no error |
| TransactionRepo.TransactionRepository.Create | internal/domain/repositories/transaction_repository.go:12 | the ledger grows by exactly the new entry, or is unchanged on failure |
| TransactionRepo.TransactionRepository.GetByProductID | internal/domain/repositories/transaction_repository.go:14 | fails exactly on a store failure or a negative limit or offset; otherwise a page of the product's entries in ledger order, each from the ledger and about that product |
| TransactionRepo.TransactionRepository.GetAll | internal/domain/repositories/transaction_repository.go:17 | as GetByProductID, over the whole ledger |
| Inventory.InventoryService.ProcessStockIn | internal/domain/services/inventory_service.go:33-63 | the error and both stores equal Inventory.StockIn applied to the old stores: lookup error, then ProductNotFound, then InvalidQuantity for quantity <= 0, then the entity's refusal, then ledger insert, then product update |
| Inventory.InventoryService.ProcessStockOut | internal/domain/services/inventory_service.go:66-101 | the error and both stores equal Inventory.StockOut applied to the old stores, which adds InsufficientStock when stock < quantity |
| Inventory.InventoryService.AdjustStock | internal/domain/services/inventory_service.go:104-134 | the error and both stores equal Inventory.Adjust applied to the old stores: InvalidQuantity for a negative count, else the stock is set and an adjustment entry of newQuantity - stock with an empty reference is recorded |
| Inventory.InventoryService.TransferStock | internal/domain/services/inventory_service.go:137-149 | the error and both stores equal Inventory.Transfer: a stock out with notes "Transfer out: " + notes, then, only if it succeeded, a stock in with notes "Transfer in: " + notes |
| Inventory.InventoryService.GetLowStockAlerts | internal/domain/services/inventory_service.go:152-154 | exactly the store's low-stock list: the active rows at or below their minimum, in table order then sorted least stock first, a sorted permutation of those rows |
| InventoryProperties.ReplaceRewritesRow | internal/domain/services/inventory_service.go:61-62 | writing back a row read from the store rewrites that row and leaves every other lookup unchanged |
| InventoryProperties.LookupPrecedesValidation | internal/domain/services/inventory_service.go:34-37 | a failed lookup is reported before any validation by every movement, and nothing is written |
| InventoryProperties.InvalidQuantityWritesNothing | internal/domain/services/inventory_service.go:43-45 | a non-positive quantity for an existing product gives InvalidQuantity for stock in and stock out, and a negative count gives it for an adjustment; nothing is written |
| InventoryProperties.StockInRaisesStock | internal/domain/services/inventory_service.go:33-63 | a successful stock in had an existing product and a positive quantity; the row now holds stock + quantity and updatedAt now, and the ledger grew by one "in" entry with the given fields |
| InventoryProperties.StockOutInsufficientWritesNothing | internal/domain/services/inventory_service.go:80-83 | a dispatch larger than the stock gives InsufficientStock and writes nothing |
| InventoryProperties.StockOutLowersStock | internal/domain/services/inventory_service.go:66-101 | a successful stock out had 0 < quantity <= stock; the row now holds stock - quantity and updatedAt now, and the ledger grew by one "out" entry |
| InventoryProperties.AdjustRecordsDelta | internal/domain/services/inventory_service.go:104-134 | a successful adjustment had a non-negative count; the row holds that count with updatedAt untouched, and the ledger grew by one adjustment entry of the signed difference |
| InventoryProperties.AdjustTenToSeven | internal/domain/services/inventory_service.go:118-125 | counting 7 where 10 were stored records an adjustment of -3 and sets the stock to 7 |
| InventoryProperties.StockNeverNegative | internal/domain/entities/product.go:55-63 | if every stock is non-negative before a stock in, stock out or adjustment, it still is after, whatever fails |
| InventoryProperties.TransferNeverNegative | internal/domain/services/inventory_service.go:137-149 | if every stock is non-negative before a transfer, it still is after, whatever either leg's stores do |
| InventoryProperties.WritesAreNotAtomic | internal/domain/services/inventory_service.go:56-62 | for stock in and stock out, a failed ledger insert writes nothing, but a failed product update leaves the new ledger entry in place with the old stock; any other error of a stock in writes nothing |
| InventoryProperties.AdjustWritesAreNotAtomic | internal/domain/services/inventory_service.go:127-133 | an adjustment whose ledger insert fails writes nothing; one whose product update fails leaves the products unchanged and the ledger grown by exactly the adjustment entry: the signed difference from the old stock, an empty reference, the notes, the author and the time |
| InventoryProperties.PersistRewrites | internal/domain/services/inventory_service.go:56-62 | when neither write fails, the movement rewrites the product's row and appends exactly its entry |
| InventoryProperties.OneEntryPerSuccess | internal/domain/services/inventory_service.go:53-62 | every movement appends at most one entry, exactly one on success, and none on any error except a failed product update |
| InventoryProperties.TransferStopsAfterFailedOut | internal/domain/services/inventory_service.go:141-145 | when the stock out fails, the transfer is exactly that stock out's outcome and the destination is untouched |
| InventoryProperties.TransferKeepsOutWhenInFails | internal/domain/services/inventory_service.go:147-148 | when the stock in fails after a successful stock out, the stock out's effects remain |
| InventoryProperties.TransferScenario | internal/domain/services/inventory_service.go:137-149 | moving 5 from a product holding 10 to one holding 0 leaves 5 and 5 and two entries, "out" then "in", with the prefixed notes |
| InventoryProperties.LowStockScenario | internal/domain/services/inventory_service.go:33-63 | a new active product with minimum 5 that receives 3 is on the low-stock list; after receiving 10 more it holds 13 and is off the list |
| ProductUseCases.EntityToResponse | internal/application/usecases/product_usecase.go:211-230 | the response carries every stored field, which can be read back unchanged, plus flags equal to the low- and over-stock checks |
| ProductUseCases.EditKeepsStockAndStatus | internal/application/usecases/product_usecase.go:128-136 | an update sets exactly the eight request fields and keeps stock, status, id and both timestamps |
| ProductUseCases.ToResponses | internal/application/usecases/product_usecase.go:160-169 | the response list has one response per product, in the same order |
| ProductUseCases.ApplyRequest | internal/application/usecases/product_usecase.go:128-136 | the loaded entity's record becomes the edited record |
| ProductUseCases.ProductUseCase.CreateProduct | internal/application/usecases/product_usecase.go:39-72 | a category lookup error comes first; a product already holding the SKU gives DuplicateSKU; DuplicateSKU (with no category error) only when a successful lookup found the SKU; a failed insert gives StorageFailure("create product"); success exactly when neither applies, or the SKU lookup failed, and the insert succeeds; the stored product and the response are the new, empty, active product |
| ProductUseCases.ProductUseCase.GetProduct | internal/application/usecases/product_usecase.go:74-86 | a store failure is passed on; a missing id gives ProductNotFound; otherwise the response of the row with that id |
| ProductUseCases.ProductUseCase.GetProductBySKU | internal/application/usecases/product_usecase.go:88-100 | a store failure is passed on; a missing SKU gives ProductNotFound; otherwise the response of the row with that SKU |
| ProductUseCases.ProductUseCase.UpdateProduct | internal/application/usecases/product_usecase.go:102-145 | lookup error, then ProductNotFound, then a category error, then DuplicateSKU exactly when the SKU changes to one another product holds (given no category error); a failed write gives StorageFailure("update product"); on success the row is rewritten with the eight request fields and the response describes it; on any error nothing is written |
| ProductUseCases.ProductUseCase.DeleteProduct | internal/application/usecases/product_usecase.go:147-150 | removes exactly the rows with the id unless the store fails |
| ProductUseCases.ProductUseCase.ListProducts | internal/application/usecases/product_usecase.go:152-172 | fails exactly on a store failure, a negative limit or a negative offset (page - 1) * limit; otherwise the responses of that page of all products newest first, with page and limit echoed and total equal to the page's length |
| ProductUseCases.ProductUseCase.SearchProducts | internal/application/usecases/product_usecase.go:174-194 | as ListProducts, over the active matching products by name; every product returned is active |
| ProductUseCases.ProductUseCase.GetLowStockProducts | internal/application/usecases/product_usecase.go:196-209 | response i describes alert i of the engine's list, which is the active rows at or below their minimum, least stock first; each is flagged low and describes a stored row |
| InventoryUseCases.EntityToResponse | internal/application/usecases/inventory_usecase.go:93-105 | the response carries every field of the entry, which can be read back unchanged |
| InventoryUseCases.ResponsesAreFaithful | internal/application/usecases/inventory_usecase.go:93-105 | two entries have the same response exactly when they are the same entry |
| InventoryUseCases.ToResponses | internal/application/usecases/inventory_usecase.go:57-66 | one response per entry, in the same order |
| InventoryUseCases.InventoryUseCase.StockIn | internal/application/usecases/inventory_usecase.go:34-37 | the error and both stores are those of the engine's stock in for the request's product, quantity, reference and notes |
| InventoryUseCases.InventoryUseCase.StockOut | internal/application/usecases/inventory_usecase.go:39-42 | the error and both stores are those of the engine's stock out for the request's fields |
| InventoryUseCases.InventoryUseCase.AdjustStock | internal/application/usecases/inventory_usecase.go:44-47 | the error and both stores are those of the engine's adjustment to the request's count |
| InventoryUseCases.InventoryUseCase.GetTransactionHistory | internal/application/usecases/inventory_usecase.go:49-69 | fails exactly on a store failure or a negative limit or offset; otherwise the responses of that page of the product's entries in ledger order, each about that product and from the ledger |
| InventoryUseCases.InventoryUseCase.GetAllTransactions | internal/application/usecases/inventory_usecase.go:71-91 | as GetTransactionHistory, over the whole ledger |
| Utils.Paginate | pkg/utils/utils.go:71-83 | a page below 1 counts as 1 and a limit below 1 as 10; the offset is (page - 1) * limit, never negative, and hasNext holds exactly when offset + limit < total |
| Utils.Contains | pkg/utils/utils.go:61-68 | true exactly when the item is in the slice |
| Utils.BlankIffAllSpace | pkg/utils/utils.go:22 | a value trims to "" exactly when all its characters are white space |
| Utils.TrimLeftIsEmptyIffAllSpace | pkg/utils/utils.go:22 | trimming leading white space leaves nothing exactly when all characters are white space |
| Utils.TrimRightIsEmptyIffAllSpace | pkg/utils/utils.go:22 | trimming trailing white space leaves nothing exactly when all characters are white space |
| Utils.ValidateRequired | pkg/utils/utils.go:19-32 | no error exactly when no field's value is blank; otherwise the error names exactly the blank fields, and there is at least one |

## Left out

- Concurrency and transactions: the engine runs its reads and writes with no transaction and no locking, and the model is sequential. Nothing makes a movement's two writes atomic (`WritesAreNotAtomic`).
- The category store is not part of this model. Its lookup is an input to the product use cases: an error, or none. A lookup that finds no row and returns no error lets a product through with an unknown category, as the code does.
- The PostgreSQL transaction store is not part of this model. Its queries are taken to return entries in insertion order, and its GetByID, GetByType and GetByDateRange are not used by the core.
- ProductRepo.FindBySku: no UNIQUE constraint on sku is assumed. A lookup by SKU over several rows holding it returns the first in table order, where the database may return any of them; duplicates can arise because product creation skips the duplicate check when the SKU lookup fails.
- SQL text, driver plumbing, row scanning errors and connection handling are reduced to a failure flag per call.
- ILIKE: the query is matched as a plain substring, ignoring ASCII letter case only. The wildcards `%` and `_` inside a query, and case folding beyond ASCII, are not modelled.
- ORDER BY ties: the database does not fix the order of equal keys. The model breaks ties by table order (a stable sort); each ordering property holds for any tie-break.
- Collation: names are ordered character by character, not by the database's collation.
- Skus.ToUpper: upper-cases ASCII letters only. This matches Go's ToUpper on every value validation accepts.
- Go `int` overflow: quantities, stocks and the offset `(page - 1) * limit` are unbounded integers.
- Price and cost are floating point in the source. They are `real` here and only copied, never computed with.
- Time values and UUIDs are integers passed in; `time.Now` and `uuid.New` are not modelled. NewProduct and NewCategory read the clock twice; the model gives both timestamps the same instant. Likewise the engine reads the clock separately for the product's updated_at and the ledger entry's created_at, and again for each leg of a transfer; `Inventory.StockIn`, `StockOut`, `Adjust` and `Transfer` use one instant `now` for all of them.
- GenerateID, FormatCurrency and ParseDateRange in pkg/utils/utils.go: they format or parse text for callers outside the core. They are not used by the modelled operations.
- Utils.ValidateRequired: the model returns the set of blank fields. The source joins their names in map iteration order, which is random in Go.
- Utils.Paginate: the offset is proved to be (page - 1) * limit. That it is a multiple of the limit is not stated.
- HTTP handlers, routing, middleware, configuration, logging and the program's wiring in cmd/api/main.go.

/** The product use cases: create, read, update, delete, list and search, shaped into responses. */
module ProductUseCases {
  import opened Common
  import opened Errors
  import opened Products
  import opened ProductRepo
  import opened Seqs
  import Inventory

  /** The fields a caller may set when creating or updating a product. */
  datatype ProductRequest = ProductRequest(
    sku: string,
    name: string,
    description: string,
    categoryId: Uuid,
    price: Money,
    cost: Money,
    minStock: int,
    maxStock: int)

  /** A product as returned to callers, with the two threshold checks precomputed. */
  datatype ProductResponse = ProductResponse(
    id: Uuid,
    sku: string,
    name: string,
    description: string,
    categoryId: Uuid,
    price: Money,
    cost: Money,
    stock: int,
    minStock: int,
    maxStock: int,
    status: string,
    isLowStock: bool,
    isOverStock: bool,
    createdAt: Time,
    updatedAt: Time)

  /** One page of products. Total is the number of products on this page. */
  datatype ProductListResponse = ProductListResponse(products: seq<ProductResponse>, total: int, page: int, limit: int)

  /** Copies every stored field and adds the two threshold checks. */
  function EntityToResponse(p: ProductRecord): (r: ProductResponse)
    ensures r.isLowStock == p.IsLowStock() && r.isOverStock == p.IsOverStock()
    ensures StoredFields(r) == p
  {
    ProductResponse(p.id, p.sku, p.name, p.description, p.categoryId, p.price, p.cost, p.stock,
                    p.minStock, p.maxStock, p.status, p.IsLowStock(), p.IsOverStock(), p.createdAt, p.updatedAt)
  }

  /** The stored fields of a response, without the two derived flags. */
  function StoredFields(r: ProductResponse): ProductRecord {
    ProductRecord(r.id, r.sku, r.name, r.description, r.categoryId, r.price, r.cost, r.stock,
                  r.minStock, r.maxStock, r.status, r.createdAt, r.updatedAt)
  }

  /** The product after an update request: the eight request fields replace the old ones. */
  function Edited(p: ProductRecord, req: ProductRequest): ProductRecord {
    p.(sku := req.sku, name := req.name, description := req.description, categoryId := req.categoryId,
       price := req.price, cost := req.cost, minStock := req.minStock, maxStock := req.maxStock)
  }

  /** An update leaves the stock, status, id and both timestamps alone. */
  lemma EditKeepsStockAndStatus(p: ProductRecord, req: ProductRequest)
    ensures var e := Edited(p, req);
            && e.stock == p.stock && e.status == p.status && e.id == p.id
            && e.createdAt == p.createdAt && e.updatedAt == p.updatedAt
    ensures var e := Edited(p, req);
            && e.sku == req.sku && e.name == req.name && e.description == req.description
            && e.categoryId == req.categoryId && e.price == req.price && e.cost == req.cost
            && e.minStock == req.minStock && e.maxStock == req.maxStock
  {
  }

  /**
   * Whether an update of `current` to `sku` clashes with another product: only
   * a changed SKU is looked up, a failed lookup counts as no clash, and the
   * product itself holding the SKU is no clash.
   */
  predicate SkuTakenByOther(rows: seq<ProductRecord>, current: ProductRecord, sku: string, lookupFails: bool) {
    && sku != current.sku
    && !lookupFails
    && FindBySku(rows, sku).Some?
    && FindBySku(rows, sku).value.id != current.id
  }

  /** The response for each product, in the same order. */
  method ToResponses(products: seq<ProductRecord>) returns (rs: seq<ProductResponse>)
    ensures |rs| == |products|
    ensures forall i :: 0 <= i < |products| ==> rs[i] == EntityToResponse(products[i])
  {
    var out := new ProductResponse[|products|];
    for i := 0 to |products|
      invariant forall k :: 0 <= k < i ==> out[k] == EntityToResponse(products[k])
    {
      out[i] := EntityToResponse(products[i]);
    }
    rs := out[..];
  }

  /** Writes the eight request fields onto a loaded entity, in place. */
  method ApplyRequest(product: Product, req: ProductRequest)
    modifies product
    ensures product.Record() == Edited(old(product.Record()), req)
  {
    product.SKU, product.Name, product.Description, product.CategoryID :=
      req.sku, req.name, req.description, req.categoryId;
    product.Price, product.Cost, product.MinStock, product.MaxStock :=
      req.price, req.cost, req.minStock, req.maxStock;
  }

  class ProductUseCase {
    const productRepo: ProductRepository
    const inventoryService: Inventory.InventoryService

    /** The use case and the engine share one product store, as the program wires them. */
    ghost predicate Valid()
      reads this, productRepo, inventoryService
    {
      productRepo.Valid() && inventoryService.productRepo == productRepo
    }

    constructor (productRepo: ProductRepository, inventoryService: Inventory.InventoryService)
      requires productRepo.Valid() && inventoryService.productRepo == productRepo
      ensures this.productRepo == productRepo && this.inventoryService == inventoryService
      ensures Valid()
    {
      this.productRepo := productRepo;
      this.inventoryService := inventoryService;
    }

    /**
     * Creates a product with a fresh id. An error from the category lookup is
     * returned first; a product already holding the SKU gives DuplicateSKU;
     * a failed SKU lookup is ignored, so the product is then created anyway.
     * The new product has no stock and is active.
     */
    method CreateProduct(req: ProductRequest, categoryLookupError: Option<Error>, id: Uuid, now: Time,
                         skuLookupFails: bool, createFails: bool) returns (r: Result<ProductResponse, Error>)
      requires Valid()
      requires FindById(productRepo.rows, id).None?
      modifies productRepo
      ensures Valid()
      ensures categoryLookupError.Some? ==> r == Failure(categoryLookupError.value)
      ensures (categoryLookupError.None? && !skuLookupFails && FindBySku(old(productRepo.rows), req.sku).Some?)
                ==> r == Failure(DuplicateSKU)
      ensures r.Success? <==>
                categoryLookupError.None? && (skuLookupFails || FindBySku(old(productRepo.rows), req.sku).None?)
                && !createFails
      ensures (categoryLookupError.None? && (skuLookupFails || FindBySku(old(productRepo.rows), req.sku).None?)
               && createFails) ==> r == Failure(StorageFailure("create product"))
      ensures categoryLookupError.None? && r == Failure(DuplicateSKU) ==>
                !skuLookupFails && FindBySku(old(productRepo.rows), req.sku).Some?
      ensures r.Failure? ==> productRepo.rows == old(productRepo.rows)
      ensures r.Success? ==>
                var created := ProductRecord(id, req.sku, req.name, req.description, req.categoryId, req.price,
                                             req.cost, 0, req.minStock, req.maxStock, StatusActive, now, now);
                productRepo.rows == old(productRepo.rows) + [created] && r.value == EntityToResponse(created)
    {
      if categoryLookupError.Some? {
        return Failure(categoryLookupError.value);
      }
      var existing := productRepo.GetBySKU(req.sku, skuLookupFails);
      if existing.Success? && existing.value.Some? {
        return Failure(DuplicateSKU);
      }
      var product := new Product.NewProduct(id, req.sku, req.name, req.description, req.categoryId,
                                            req.price, req.cost, req.minStock, req.maxStock, now);
      var err := productRepo.Create(product.Record(), createFails);
      if err.Some? {
        return Failure(err.value);
      }
      return Success(EntityToResponse(product.Record()));
    }

    /** The product with the id; a miss is ProductNotFound, a store failure is returned as is. */
    method GetProduct(id: Uuid, fails: bool) returns (r: Result<ProductResponse, Error>)
      ensures fails ==> r == Failure(StorageFailure("get product by ID"))
      ensures !fails && FindById(productRepo.rows, id).None? ==> r == Failure(ProductNotFound)
      ensures r.Success? ==> exists p :: p in productRepo.rows && p.id == id && r.value == EntityToResponse(p)
      ensures r.Success? <==> !fails && FindById(productRepo.rows, id).Some?
    {
      var found := productRepo.GetByID(id, fails);
      if found.Failure? {
        return Failure(found.error);
      }
      if found.value.None? {
        return Failure(ProductNotFound);
      }
      return Success(EntityToResponse(found.value.value));
    }

    /** The product with the SKU; a miss is ProductNotFound, a store failure is returned as is. */
    method GetProductBySKU(sku: string, fails: bool) returns (r: Result<ProductResponse, Error>)
      ensures fails ==> r == Failure(StorageFailure("get product by SKU"))
      ensures !fails && FindBySku(productRepo.rows, sku).None? ==> r == Failure(ProductNotFound)
      ensures r.Success? ==> exists p :: p in productRepo.rows && p.sku == sku && r.value == EntityToResponse(p)
      ensures r.Success? <==> !fails && FindBySku(productRepo.rows, sku).Some?
    {
      var found := productRepo.GetBySKU(sku, fails);
      if found.Failure? {
        return Failure(found.error);
      }
      if found.value.None? {
        return Failure(ProductNotFound);
      }
      return Success(EntityToResponse(found.value.value));
    }

    /**
     * Updates the eight request fields of an existing product. The SKU is checked
     * for duplicates only when it changes, and only another product holding it
     * is a duplicate; a failed SKU lookup is ignored. Stock, status, id and both
     * timestamps are written back unchanged.
     */
    method UpdateProduct(id: Uuid, req: ProductRequest, categoryLookupError: Option<Error>,
                         lookupFails: bool, skuLookupFails: bool, updateFails: bool)
      returns (r: Result<ProductResponse, Error>)
      requires Valid()
      modifies productRepo
      ensures Valid()
      ensures lookupFails ==> r == Failure(StorageFailure("get product by ID"))
      ensures !lookupFails && FindById(old(productRepo.rows), id).None? ==> r == Failure(ProductNotFound)
      ensures (!lookupFails && FindById(old(productRepo.rows), id).Some? && categoryLookupError.Some?)
                ==> r == Failure(categoryLookupError.value)
      ensures (!lookupFails && FindById(old(productRepo.rows), id).Some? && categoryLookupError.None? &&
               SkuTakenByOther(old(productRepo.rows), FindById(old(productRepo.rows), id).value, req.sku, skuLookupFails))
                ==> r == Failure(DuplicateSKU)
      ensures r.Success? <==>
                !lookupFails && FindById(old(productRepo.rows), id).Some? && categoryLookupError.None? &&
                !SkuTakenByOther(old(productRepo.rows), FindById(old(productRepo.rows), id).value, req.sku, skuLookupFails) &&
                !updateFails
      ensures (!lookupFails && FindById(old(productRepo.rows), id).Some? && categoryLookupError.None? &&
               !SkuTakenByOther(old(productRepo.rows), FindById(old(productRepo.rows), id).value, req.sku, skuLookupFails) &&
               updateFails) ==> r == Failure(StorageFailure("update product"))
      ensures categoryLookupError.None? && r == Failure(DuplicateSKU) ==>
                FindById(old(productRepo.rows), id).Some? &&
                SkuTakenByOther(old(productRepo.rows), FindById(old(productRepo.rows), id).value, req.sku, skuLookupFails)
      ensures r.Failure? ==> productRepo.rows == old(productRepo.rows)
      ensures r.Success? ==>
                FindById(old(productRepo.rows), id).Some? &&
                var edited := Edited(FindById(old(productRepo.rows), id).value, req);
                productRepo.rows == Replace(old(productRepo.rows), edited) && r.value == EntityToResponse(edited)
    {
      var found := productRepo.GetByID(id, lookupFails);
      if found.Failure? {
        return Failure(found.error);
      }
      if found.value.None? {
        return Failure(ProductNotFound);
      }
      if categoryLookupError.Some? {
        return Failure(categoryLookupError.value);
      }
      var current := found.value.value;
      var product := new Product.Load(current);
      if req.sku != product.SKU {
        var existing := productRepo.GetBySKU(req.sku, skuLookupFails);
        if existing.Success? && existing.value.Some? && existing.value.value.id != id {
          assert SkuTakenByOther(productRepo.rows, current, req.sku, skuLookupFails);
          return Failure(DuplicateSKU);
        }
      }
      assert !SkuTakenByOther(productRepo.rows, current, req.sku, skuLookupFails);
      ApplyRequest(product, req);
      var edited := product.Record();
      var err := productRepo.Update(edited, updateFails);
      if err.Some? {
        return Failure(err.value);
      }
      return Success(EntityToResponse(edited));
    }

    /** Deletes the product with the id; a missing id is not an error. */
    method DeleteProduct(id: Uuid, fails: bool) returns (err: Option<Error>)
      requires Valid()
      modifies productRepo
      ensures Valid()
      ensures err == (if fails then Some(StorageFailure("delete product")) else None)
      ensures !fails ==> forall p :: p in productRepo.rows <==> p in old(productRepo.rows) && p.id != id
      ensures fails ==> productRepo.rows == old(productRepo.rows)
    {
      err := productRepo.Delete(id, fails);
    }

    /**
     * One page of all products, newest first. The offset is (page - 1) * limit
     * with no correction, so a page below 1 gives a negative offset, which the
     * database refuses. Total counts the rows on this page; page and limit are echoed.
     */
    method ListProducts(page: int, limit: int, fails: bool) returns (r: Result<ProductListResponse, Error>)
      ensures r.Failure? <==> fails || limit < 0 || (page - 1) * limit < 0
      ensures r.Success? ==>
                var rows := Page(Sort(productRepo.rows, NewestFirst), limit, (page - 1) * limit);
                && r.value.page == page && r.value.limit == limit
                && r.value.total == |r.value.products| == |rows| <= limit
                && forall i :: 0 <= i < |rows| ==> r.value.products[i] == EntityToResponse(rows[i])
    {
      var offset := (page - 1) * limit;
      var found := productRepo.GetAll(limit, offset, fails);
      if found.Failure? {
        return Failure(found.error);
      }
      var responses := ToResponses(found.value);
      return Success(ProductListResponse(responses, |found.value|, page, limit));
    }

    /** One page of the active products matching the query, by name; paged like ListProducts. */
    method SearchProducts(query: string, page: int, limit: int, fails: bool)
      returns (r: Result<ProductListResponse, Error>)
      ensures r.Failure? <==> fails || limit < 0 || (page - 1) * limit < 0
      ensures r.Success? ==>
                var rows := Page(Sort(Filter(productRepo.rows, MatchesSearch(query)), ByName), limit, (page - 1) * limit);
                && r.value.page == page && r.value.limit == limit
                && r.value.total == |r.value.products| == |rows| <= limit
                && forall i :: 0 <= i < |rows| ==> r.value.products[i] == EntityToResponse(rows[i])
      ensures r.Success? ==> forall i :: 0 <= i < |r.value.products| ==> r.value.products[i].status == StatusActive
    {
      var offset := (page - 1) * limit;
      var found := productRepo.Search(query, limit, offset, fails);
      if found.Failure? {
        return Failure(found.error);
      }
      var responses := ToResponses(found.value);
      r := Success(ProductListResponse(responses, |found.value|, page, limit));
      forall i | 0 <= i < |responses| ensures responses[i].status == StatusActive {
        assert found.value[i] in found.value;
      }
    }

    /** The low-stock alerts as responses: every one is flagged low and is active. */
    method GetLowStockProducts(fails: bool) returns (r: Result<seq<ProductResponse>, Error>)
      ensures r.Failure? <==> fails
      ensures r.Success? ==> forall i :: 0 <= i < |r.value| ==>
                r.value[i].isLowStock && r.value[i].status == StatusActive &&
                StoredFields(r.value[i]) in inventoryService.productRepo.rows
      ensures r.Success? ==> |r.value| == |Filter(inventoryService.productRepo.rows, IsLowAndActive)|
      ensures r.Success? ==>
                var alerts := Sort(Filter(inventoryService.productRepo.rows, IsLowAndActive), LeastStockFirst);
                |r.value| == |alerts| && forall i :: 0 <= i < |alerts| ==> r.value[i] == EntityToResponse(alerts[i])
    {
      var alerts := inventoryService.GetLowStockAlerts(fails);
      if alerts.Failure? {
        return Failure(alerts.error);
      }
      var responses := ToResponses(alerts.value);
      r := Success(responses);
      forall i | 0 <= i < |responses|
        ensures responses[i].isLowStock && responses[i].status == StatusActive
        ensures StoredFields(responses[i]) in inventoryService.productRepo.rows
      {
        assert alerts.value[i] in alerts.value;
      }
      assert |multiset(alerts.value)| == |multiset(Filter(inventoryService.productRepo.rows, IsLowAndActive))|;
    }
  }
}

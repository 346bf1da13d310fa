/** The product entity: its stored values and the in-place operations on it. */
module Products {
  import opened Common
  import opened Errors

  const StatusActive: string := "active"
  const StatusInactive: string := "inactive"

  /** The values of one product, as stored in a table row and copied into an entity. */
  datatype ProductRecord = ProductRecord(
    id: Uuid,
    sku: string,
    name: string,
    description: string,
    categoryId: Uuid,
    price: Money,
    cost: Money,
    stock: int,
    minStock: int,
    maxStock: int,
    status: string,
    createdAt: Time,
    updatedAt: Time)
  {
    /** At or below the minimum threshold. */
    predicate IsLowStock() { stock <= minStock }

    /** At or above the maximum threshold. */
    predicate IsOverStock() { stock >= maxStock }
  }

  /**
   * Nothing orders the two thresholds, so a product can be low and over at once:
   * exactly when its stock lies between a maximum and a minimum set the wrong way round.
   */
  lemma LowAndOverTogether(p: ProductRecord)
    ensures p.IsLowStock() && p.IsOverStock() <==> p.maxStock <= p.stock <= p.minStock
    ensures p.minStock < p.maxStock ==> !(p.IsLowStock() && p.IsOverStock())
  {
  }

  /** A product entity whose fields are updated in place. */
  class Product {
    var ID: Uuid
    var SKU: string
    var Name: string
    var Description: string
    var CategoryID: Uuid
    var Price: Money
    var Cost: Money
    var Stock: int
    var MinStock: int
    var MaxStock: int
    var Status: string
    var CreatedAt: Time
    var UpdatedAt: Time

    /** The entity's current values. */
    function Record(): ProductRecord
      reads this
    {
      ProductRecord(ID, SKU, Name, Description, CategoryID, Price, Cost, Stock,
                    MinStock, MaxStock, Status, CreatedAt, UpdatedAt)
    }

    /** A new product: no stock, active, created and updated now; the other arguments kept. */
    constructor NewProduct(id: Uuid, sku: string, name: string, description: string, categoryId: Uuid,
                           price: Money, cost: Money, minStock: int, maxStock: int, now: Time)
      ensures Record() == ProductRecord(id, sku, name, description, categoryId, price, cost,
                                        0, minStock, maxStock, StatusActive, now, now)
    {
      ID, SKU, Name, Description, CategoryID := id, sku, name, description, categoryId;
      Price, Cost, Stock, MinStock, MaxStock := price, cost, 0, minStock, maxStock;
      Status, CreatedAt, UpdatedAt := StatusActive, now, now;
    }

    /** An entity filled from a stored row (the scan of a query result). */
    constructor Load(r: ProductRecord)
      ensures Record() == r
    {
      ID, SKU, Name, Description, CategoryID := r.id, r.sku, r.name, r.description, r.categoryId;
      Price, Cost, Stock, MinStock, MaxStock := r.price, r.cost, r.stock, r.minStock, r.maxStock;
      Status, CreatedAt, UpdatedAt := r.status, r.createdAt, r.updatedAt;
    }

    /**
     * Adds a signed quantity to the stock. A change that would make the stock
     * negative is refused and changes nothing; otherwise only Stock and
     * UpdatedAt change, so a successful update never leaves the stock negative.
     */
    method UpdateStock(quantity: int, now: Time) returns (err: Option<Error>)
      modifies this
      ensures err == (if old(Stock) + quantity < 0 then Some(InsufficientStock) else None)
      ensures err.Some? ==> Record() == old(Record())
      ensures err.None? ==> Record() == old(Record()).(stock := old(Stock) + quantity, updatedAt := now)
      ensures err.None? ==> Stock >= 0
    {
      if Stock + quantity < 0 {
        return Some(InsufficientStock);
      }
      Stock := Stock + quantity;
      UpdatedAt := now;
      return None;
    }

    /** Marks the product inactive; only Status and UpdatedAt change. */
    method Deactivate(now: Time)
      modifies this
      ensures Record() == old(Record()).(status := StatusInactive, updatedAt := now)
    {
      Status := StatusInactive;
      UpdatedAt := now;
    }

    /** Marks the product active; only Status and UpdatedAt change. */
    method Activate(now: Time)
      modifies this
      ensures Record() == old(Record()).(status := StatusActive, updatedAt := now)
    {
      Status := StatusActive;
      UpdatedAt := now;
    }
  }
}

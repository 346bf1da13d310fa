/**
 * The stock-ledger engine. Each operation reads the product, validates the
 * request, changes the stock in memory, inserts one ledger entry and then
 * writes the product back. The two writes are separate store calls with no
 * transaction around them, so either can fail after the other has happened.
 *
 * The pure functions below give the outcome of each operation on the two
 * stores' contents; the methods of InventoryService are proved to produce
 * exactly that outcome, and the lemmas state what the outcomes guarantee.
 */
module Inventory {
  import opened Common
  import opened Errors
  import opened Products
  import opened Transactions
  import opened ProductRepo
  import opened TransactionRepo

  /** Which store calls fail during one operation. */
  datatype Faults = Faults(lookupFails: bool, ledgerInsertFails: bool, productUpdateFails: bool)

  const NoFaults: Faults := Faults(false, false, false)

  const LookupFailed: Error := StorageFailure("get product by ID")
  const LedgerInsertFailed: Error := StorageFailure("create transaction")
  const ProductUpdateFailed: Error := StorageFailure("update product")

  /** The error an operation returned, if any, and the stores' contents afterwards. */
  datatype Outcome = Outcome(err: Option<Error>, products: seq<ProductRecord>, ledger: seq<Transaction>)

  /** Every product has a non-negative stock. */
  ghost predicate AllStocksNonNegative(products: seq<ProductRecord>) {
    forall k :: 0 <= k < |products| ==> products[k].stock >= 0
  }

  /** The two ordered writes: the ledger entry first, then the product row. */
  function Persist(products: seq<ProductRecord>, ledger: seq<Transaction>, updated: ProductRecord,
                   t: Transaction, faults: Faults): Outcome
  {
    if faults.ledgerInsertFails then Outcome(Some(LedgerInsertFailed), products, ledger)
    else if faults.productUpdateFails then Outcome(Some(ProductUpdateFailed), products, ledger + [t])
    else Outcome(None, Replace(products, updated), ledger + [t])
  }

  function StockIn(products: seq<ProductRecord>, ledger: seq<Transaction>, productId: Uuid, quantity: int,
                   reference: string, notes: string, userId: Uuid, txId: Uuid, now: Time, faults: Faults): Outcome
  {
    if faults.lookupFails then Outcome(Some(LookupFailed), products, ledger)
    else match FindById(products, productId)
      case None => Outcome(Some(ProductNotFound), products, ledger)
      case Some(p) =>
        if quantity <= 0 then Outcome(Some(InvalidQuantity), products, ledger)
        else if p.stock + quantity < 0 then Outcome(Some(InsufficientStock), products, ledger)
        else Persist(products, ledger, p.(stock := p.stock + quantity, updatedAt := now),
                     NewTransaction(txId, productId, TypeIn, quantity, reference, notes, userId, now), faults)
  }

  function StockOut(products: seq<ProductRecord>, ledger: seq<Transaction>, productId: Uuid, quantity: int,
                    reference: string, notes: string, userId: Uuid, txId: Uuid, now: Time, faults: Faults): Outcome
  {
    if faults.lookupFails then Outcome(Some(LookupFailed), products, ledger)
    else match FindById(products, productId)
      case None => Outcome(Some(ProductNotFound), products, ledger)
      case Some(p) =>
        if quantity <= 0 then Outcome(Some(InvalidQuantity), products, ledger)
        else if p.stock < quantity then Outcome(Some(InsufficientStock), products, ledger)
        // The entity's own guard, which the check above already implies.
        else if p.stock - quantity < 0 then Outcome(Some(InsufficientStock), products, ledger)
        else Persist(products, ledger, p.(stock := p.stock - quantity, updatedAt := now),
                     NewTransaction(txId, productId, TypeOut, quantity, reference, notes, userId, now), faults)
  }

  /** Sets the stock directly; the entity's update time is not refreshed on this path. */
  function Adjust(products: seq<ProductRecord>, ledger: seq<Transaction>, productId: Uuid, newQuantity: int,
                  notes: string, userId: Uuid, txId: Uuid, now: Time, faults: Faults): Outcome
  {
    if faults.lookupFails then Outcome(Some(LookupFailed), products, ledger)
    else match FindById(products, productId)
      case None => Outcome(Some(ProductNotFound), products, ledger)
      case Some(p) =>
        if newQuantity < 0 then Outcome(Some(InvalidQuantity), products, ledger)
        else Persist(products, ledger, p.(stock := newQuantity),
                     NewTransaction(txId, productId, TypeAdjustment, newQuantity - p.stock, "", notes, userId, now),
                     faults)
  }

  /** Stock-out on the source, and only if that succeeded, stock-in on the destination. */
  function Transfer(products: seq<ProductRecord>, ledger: seq<Transaction>, fromId: Uuid, toId: Uuid,
                    quantity: int, reference: string, notes: string, userId: Uuid,
                    outTxId: Uuid, inTxId: Uuid, now: Time, outFaults: Faults, inFaults: Faults): Outcome
  {
    var first := StockOut(products, ledger, fromId, quantity, reference, "Transfer out: " + notes,
                          userId, outTxId, now, outFaults);
    if first.err.Some? then first
    else StockIn(first.products, first.ledger, toId, quantity, reference, "Transfer in: " + notes,
                 userId, inTxId, now, inFaults)
  }

  /** The engine over a product store and a ledger store. */
  class InventoryService {
    const productRepo: ProductRepository
    const transactionRepo: TransactionRepository

    ghost predicate Valid()
      reads this, productRepo
    {
      productRepo.Valid()
    }

    constructor (productRepo: ProductRepository, transactionRepo: TransactionRepository)
      ensures this.productRepo == productRepo && this.transactionRepo == transactionRepo
    {
      this.productRepo := productRepo;
      this.transactionRepo := transactionRepo;
    }

    method ProcessStockIn(productId: Uuid, quantity: int, reference: string, notes: string, userId: Uuid,
                          txId: Uuid, now: Time, faults: Faults) returns (err: Option<Error>)
      requires Valid()
      modifies productRepo, transactionRepo
      ensures Valid()
      ensures var o := StockIn(old(productRepo.rows), old(transactionRepo.entries), productId, quantity,
                               reference, notes, userId, txId, now, faults);
              err == o.err && productRepo.rows == o.products && transactionRepo.entries == o.ledger
    {
      var found := productRepo.GetByID(productId, faults.lookupFails);
      if found.Failure? {
        return Some(found.error);
      }
      if found.value.None? {
        return Some(ProductNotFound);
      }
      if quantity <= 0 {
        return Some(InvalidQuantity);
      }
      var row := found.value.value;
      var product := new Product.Load(row);
      err := product.UpdateStock(quantity, now);
      if err.Some? {
        return;
      }
      var updated := product.Record();
      assert updated == row.(stock := row.stock + quantity, updatedAt := now);
      var t := NewTransaction(txId, productId, TypeIn, quantity, reference, notes, userId, now);
      ghost var rows, entries := productRepo.rows, transactionRepo.entries;
      assert StockIn(rows, entries, productId, quantity, reference, notes, userId, txId, now, faults)
             == Persist(rows, entries, updated, t, faults);
      err := transactionRepo.Create(t, faults.ledgerInsertFails);
      if err.Some? {
        return;
      }
      err := productRepo.Update(updated, faults.productUpdateFails);
    }

    method ProcessStockOut(productId: Uuid, quantity: int, reference: string, notes: string, userId: Uuid,
                           txId: Uuid, now: Time, faults: Faults) returns (err: Option<Error>)
      requires Valid()
      modifies productRepo, transactionRepo
      ensures Valid()
      ensures var o := StockOut(old(productRepo.rows), old(transactionRepo.entries), productId, quantity,
                                reference, notes, userId, txId, now, faults);
              err == o.err && productRepo.rows == o.products && transactionRepo.entries == o.ledger
    {
      var found := productRepo.GetByID(productId, faults.lookupFails);
      if found.Failure? {
        return Some(found.error);
      }
      if found.value.None? {
        return Some(ProductNotFound);
      }
      if quantity <= 0 {
        return Some(InvalidQuantity);
      }
      var row := found.value.value;
      var product := new Product.Load(row);
      if product.Stock < quantity {
        return Some(InsufficientStock);
      }
      err := product.UpdateStock(-quantity, now);
      if err.Some? {
        return;
      }
      var updated := product.Record();
      assert updated == row.(stock := row.stock - quantity, updatedAt := now);
      var t := NewTransaction(txId, productId, TypeOut, quantity, reference, notes, userId, now);
      ghost var rows, entries := productRepo.rows, transactionRepo.entries;
      assert StockOut(rows, entries, productId, quantity, reference, notes, userId, txId, now, faults)
             == Persist(rows, entries, updated, t, faults);
      err := transactionRepo.Create(t, faults.ledgerInsertFails);
      if err.Some? {
        return;
      }
      err := productRepo.Update(updated, faults.productUpdateFails);
    }

    method AdjustStock(productId: Uuid, newQuantity: int, notes: string, userId: Uuid,
                       txId: Uuid, now: Time, faults: Faults) returns (err: Option<Error>)
      requires Valid()
      modifies productRepo, transactionRepo
      ensures Valid()
      ensures var o := Adjust(old(productRepo.rows), old(transactionRepo.entries), productId, newQuantity,
                              notes, userId, txId, now, faults);
              err == o.err && productRepo.rows == o.products && transactionRepo.entries == o.ledger
    {
      var found := productRepo.GetByID(productId, faults.lookupFails);
      if found.Failure? {
        return Some(found.error);
      }
      if found.value.None? {
        return Some(ProductNotFound);
      }
      if newQuantity < 0 {
        return Some(InvalidQuantity);
      }
      var row := found.value.value;
      var product := new Product.Load(row);
      var adjustment := newQuantity - product.Stock;
      product.Stock := newQuantity;
      var updated := product.Record();
      assert updated == row.(stock := newQuantity);
      var t := NewTransaction(txId, productId, TypeAdjustment, adjustment, "", notes, userId, now);
      ghost var rows, entries := productRepo.rows, transactionRepo.entries;
      assert Adjust(rows, entries, productId, newQuantity, notes, userId, txId, now, faults)
             == Persist(rows, entries, updated, t, faults);
      err := transactionRepo.Create(t, faults.ledgerInsertFails);
      if err.Some? {
        return;
      }
      err := productRepo.Update(updated, faults.productUpdateFails);
    }

    method TransferStock(fromId: Uuid, toId: Uuid, quantity: int, reference: string, notes: string,
                         userId: Uuid, outTxId: Uuid, inTxId: Uuid, now: Time,
                         outFaults: Faults, inFaults: Faults) returns (err: Option<Error>)
      requires Valid()
      modifies productRepo, transactionRepo
      ensures Valid()
      ensures var o := Transfer(old(productRepo.rows), old(transactionRepo.entries), fromId, toId, quantity,
                                reference, notes, userId, outTxId, inTxId, now, outFaults, inFaults);
              err == o.err && productRepo.rows == o.products && transactionRepo.entries == o.ledger
    {
      err := ProcessStockOut(fromId, quantity, reference, "Transfer out: " + notes, userId, outTxId, now, outFaults);
      if err.Some? {
        return;
      }
      err := ProcessStockIn(toId, quantity, reference, "Transfer in: " + notes, userId, inTxId, now, inFaults);
    }

    /** The store's low-stock query, passed through. */
    method GetLowStockAlerts(fails: bool) returns (r: Result<seq<ProductRecord>, Error>)
      ensures r.Failure? <==> fails
      ensures r.Success? ==> r.value == Seqs.Sort(Seqs.Filter(productRepo.rows, IsLowAndActive), LeastStockFirst)
      ensures r.Success? ==> forall p :: p in r.value <==>
                p in productRepo.rows && p.IsLowStock() && p.status == StatusActive
      ensures r.Success? ==> Seqs.SortedBy(r.value, LeastStockFirst)
      ensures r.Success? ==> multiset(r.value) == multiset(Seqs.Filter(productRepo.rows, IsLowAndActive))
    {
      r := productRepo.GetLowStockProducts(fails);
    }
  }
}

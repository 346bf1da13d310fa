/** The inventory use cases: stock movements forwarded to the engine, and ledger history as responses. */
module InventoryUseCases {
  import opened Common
  import opened Errors
  import opened Transactions
  import opened TransactionRepo
  import opened Seqs
  import Inventory

  /** A receipt or a dispatch of a quantity of one product. */
  datatype StockMovementRequest = StockMovementRequest(productId: Uuid, quantity: int, reference: string, notes: string)

  /** A stock count that sets one product's stock to a new quantity. */
  datatype StockAdjustmentRequest = StockAdjustmentRequest(productId: Uuid, newQuantity: int, notes: string)

  /** A ledger entry as returned to callers. */
  datatype TransactionResponse = TransactionResponse(
    id: Uuid,
    productId: Uuid,
    txType: string,
    quantity: int,
    reference: string,
    notes: string,
    createdBy: Uuid,
    createdAt: Time)

  /** One page of ledger entries. Total is the number of entries on this page. */
  datatype TransactionListResponse = TransactionListResponse(
    transactions: seq<TransactionResponse>, total: int, page: int, limit: int)

  /** Copies every field of the entry; the entry can be read back from the response. */
  function EntityToResponse(t: Transaction): (r: TransactionResponse)
    ensures ResponseEntry(r) == t
    ensures r.productId == t.productId && r.txType == t.txType && r.quantity == t.quantity
  {
    TransactionResponse(t.id, t.productId, t.txType, t.quantity, t.reference, t.notes, t.createdBy, t.createdAt)
  }

  /** The ledger entry a response describes. */
  function ResponseEntry(r: TransactionResponse): Transaction {
    Transaction(r.id, r.productId, r.txType, r.quantity, r.reference, r.notes, r.createdBy, r.createdAt)
  }

  /** Distinct entries give distinct responses. */
  lemma ResponsesAreFaithful(a: Transaction, b: Transaction)
    ensures EntityToResponse(a) == EntityToResponse(b) <==> a == b
  {
    if EntityToResponse(a) == EntityToResponse(b) {
      assert ResponseEntry(EntityToResponse(a)) == ResponseEntry(EntityToResponse(b));
    }
  }

  /** The response for each entry, in the same order. */
  method ToResponses(entries: seq<Transaction>) returns (rs: seq<TransactionResponse>)
    ensures |rs| == |entries|
    ensures forall i :: 0 <= i < |entries| ==> rs[i] == EntityToResponse(entries[i])
  {
    var out := new TransactionResponse[|entries|];
    for i := 0 to |entries|
      invariant forall k :: 0 <= k < i ==> out[k] == EntityToResponse(entries[k])
    {
      out[i] := EntityToResponse(entries[i]);
    }
    rs := out[..];
  }

  class InventoryUseCase {
    const inventoryService: Inventory.InventoryService
    const transactionRepo: TransactionRepository

    ghost predicate Valid()
      reads this, inventoryService, inventoryService.productRepo
    {
      inventoryService.Valid()
    }

    constructor (inventoryService: Inventory.InventoryService, transactionRepo: TransactionRepository)
      ensures this.inventoryService == inventoryService && this.transactionRepo == transactionRepo
    {
      this.inventoryService := inventoryService;
      this.transactionRepo := transactionRepo;
    }

    /** Forwards a receipt to the engine, with the caller as the entry's author. */
    method StockIn(req: StockMovementRequest, userId: Uuid, txId: Uuid, now: Time, faults: Inventory.Faults)
      returns (err: Option<Error>)
      requires Valid()
      modifies inventoryService.productRepo, inventoryService.transactionRepo
      ensures Valid()
      ensures var o := Inventory.StockIn(old(inventoryService.productRepo.rows), old(inventoryService.transactionRepo.entries),
                                         req.productId, req.quantity, req.reference, req.notes, userId, txId, now, faults);
              err == o.err && inventoryService.productRepo.rows == o.products && inventoryService.transactionRepo.entries == o.ledger
    {
      err := inventoryService.ProcessStockIn(req.productId, req.quantity, req.reference, req.notes, userId, txId, now, faults);
    }

    /** Forwards a dispatch to the engine, with the caller as the entry's author. */
    method StockOut(req: StockMovementRequest, userId: Uuid, txId: Uuid, now: Time, faults: Inventory.Faults)
      returns (err: Option<Error>)
      requires Valid()
      modifies inventoryService.productRepo, inventoryService.transactionRepo
      ensures Valid()
      ensures var o := Inventory.StockOut(old(inventoryService.productRepo.rows), old(inventoryService.transactionRepo.entries),
                                          req.productId, req.quantity, req.reference, req.notes, userId, txId, now, faults);
              err == o.err && inventoryService.productRepo.rows == o.products && inventoryService.transactionRepo.entries == o.ledger
    {
      err := inventoryService.ProcessStockOut(req.productId, req.quantity, req.reference, req.notes, userId, txId, now, faults);
    }

    /** Forwards a stock count to the engine, with the caller as the entry's author. */
    method AdjustStock(req: StockAdjustmentRequest, userId: Uuid, txId: Uuid, now: Time, faults: Inventory.Faults)
      returns (err: Option<Error>)
      requires Valid()
      modifies inventoryService.productRepo, inventoryService.transactionRepo
      ensures Valid()
      ensures var o := Inventory.Adjust(old(inventoryService.productRepo.rows), old(inventoryService.transactionRepo.entries),
                                        req.productId, req.newQuantity, req.notes, userId, txId, now, faults);
              err == o.err && inventoryService.productRepo.rows == o.products && inventoryService.transactionRepo.entries == o.ledger
    {
      err := inventoryService.AdjustStock(req.productId, req.newQuantity, req.notes, userId, txId, now, faults);
    }

    /**
     * One page of a product's ledger entries in ledger order. The offset is
     * (page - 1) * limit, so a page below 1 with a positive limit is refused by
     * the store. Total counts the entries on this page; page and limit are echoed.
     */
    method GetTransactionHistory(productId: Uuid, page: int, limit: int, fails: bool)
      returns (r: Result<TransactionListResponse, Error>)
      ensures r.Failure? <==> fails || limit < 0 || (page - 1) * limit < 0
      ensures r.Success? ==>
                var entries := Page(Filter(transactionRepo.entries, ForProduct(productId)), limit, (page - 1) * limit);
                && r.value.page == page && r.value.limit == limit
                && r.value.total == |r.value.transactions| == |entries| <= limit
                && forall i :: 0 <= i < |entries| ==> r.value.transactions[i] == EntityToResponse(entries[i])
      ensures r.Success? ==> forall i :: 0 <= i < |r.value.transactions| ==>
                r.value.transactions[i].productId == productId && ResponseEntry(r.value.transactions[i]) in transactionRepo.entries
    {
      var offset := (page - 1) * limit;
      var found := transactionRepo.GetByProductID(productId, limit, offset, fails);
      if found.Failure? {
        return Failure(found.error);
      }
      var responses := ToResponses(found.value);
      r := Success(TransactionListResponse(responses, |found.value|, page, limit));
      forall i | 0 <= i < |responses|
        ensures responses[i].productId == productId && ResponseEntry(responses[i]) in transactionRepo.entries
      {
        assert found.value[i] in found.value;
      }
    }

    /** One page of the whole ledger in ledger order; paged like GetTransactionHistory. */
    method GetAllTransactions(page: int, limit: int, fails: bool) returns (r: Result<TransactionListResponse, Error>)
      ensures r.Failure? <==> fails || limit < 0 || (page - 1) * limit < 0
      ensures r.Success? ==>
                var entries := Page(transactionRepo.entries, limit, (page - 1) * limit);
                && r.value.page == page && r.value.limit == limit
                && r.value.total == |r.value.transactions| == |entries| <= limit
                && forall i :: 0 <= i < |entries| ==> r.value.transactions[i] == EntityToResponse(entries[i])
    {
      var offset := (page - 1) * limit;
      var found := transactionRepo.GetAll(limit, offset, fails);
      if found.Failure? {
        return Failure(found.error);
      }
      var responses := ToResponses(found.value);
      return Success(TransactionListResponse(responses, |found.value|, page, limit));
    }
  }
}

/**
 * The ledger store: an append-only sequence of transactions. Queries return
 * entries in the order they were appended.
 */
module TransactionRepo {
  import opened Common
  import opened Errors
  import opened Transactions
  import opened Seqs

  /** WHERE product_id = id. */
  function ForProduct(id: Uuid): Transaction -> bool {
    (t: Transaction) => t.productId == id
  }

  class TransactionRepository {
    var entries: seq<Transaction>

    constructor ()
      ensures entries == []
    {
      entries := [];
    }

    /** INSERT of one entry; there is no update and no delete. */
    method Create(t: Transaction, fails: bool) returns (err: Option<Error>)
      modifies this
      ensures err == (if fails then Some(StorageFailure("create transaction")) else None)
      ensures entries == if fails then old(entries) else old(entries) + [t]
    {
      if fails {
        return Some(StorageFailure("create transaction"));
      }
      entries := entries + [t];
      return None;
    }

    /** The entries of one product, then LIMIT/OFFSET; a negative limit or offset is an error. */
    method GetByProductID(productId: Uuid, limit: int, offset: int, fails: bool)
      returns (r: Result<seq<Transaction>, Error>)
      ensures r.Failure? <==> fails || limit < 0 || offset < 0
      ensures r.Success? ==> r.value == Page(Filter(entries, ForProduct(productId)), limit, offset)
      ensures r.Success? ==> |r.value| <= limit
      ensures r.Success? ==> forall t :: t in r.value ==> t in entries && t.productId == productId
    {
      if fails || limit < 0 || offset < 0 {
        return Failure(StorageFailure("get transactions by product"));
      }
      var matched := Filter(entries, ForProduct(productId));
      PageElements(matched, limit, offset);
      r := Success(Page(matched, limit, offset));
    }

    /** All entries, then LIMIT/OFFSET; a negative limit or offset is an error. */
    method GetAll(limit: int, offset: int, fails: bool) returns (r: Result<seq<Transaction>, Error>)
      ensures r.Failure? <==> fails || limit < 0 || offset < 0
      ensures r.Success? ==> r.value == Page(entries, limit, offset)
      ensures r.Success? ==> |r.value| <= limit && forall t :: t in r.value ==> t in entries
    {
      if fails || limit < 0 || offset < 0 {
        return Failure(StorageFailure("get all transactions"));
      }
      PageElements(entries, limit, offset);
      r := Success(Page(entries, limit, offset));
    }
  }
}

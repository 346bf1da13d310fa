/** What the engine's outcomes guarantee, stated over the stores' contents. */
module InventoryProperties {
  import opened Common
  import opened Errors
  import opened Products
  import opened Transactions
  import opened ProductRepo
  import opened Inventory
  import opened Seqs

  /**
   * after is before with the row of updated.id replaced by updated: a lookup of
   * that id finds updated, and a lookup of any other id finds what it found before.
   */
  ghost predicate RowRewritten(before: seq<ProductRecord>, after: seq<ProductRecord>, updated: ProductRecord) {
    && FindById(after, updated.id) == Some(updated)
    && forall id :: id != updated.id ==> FindById(after, id) == FindById(before, id)
  }

  /** ledger grew by exactly the entry t. */
  ghost predicate AppendedOne(before: seq<Transaction>, after: seq<Transaction>, t: Transaction) {
    after == before + [t]
  }

  /** Writing back a row read from the table rewrites exactly that row. */
  lemma ReplaceRewritesRow(products: seq<ProductRecord>, updated: ProductRecord)
    requires FindById(products, updated.id).Some?
    requires FindById(products, updated.id).value.createdAt == updated.createdAt
    ensures RowRewritten(products, Replace(products, updated), updated)
  {
    FindAfterReplace(products, updated, updated.id);
    forall id | id != updated.id
      ensures FindById(Replace(products, updated), id) == FindById(products, id)
    {
      FindAfterReplace(products, updated, id);
    }
  }

  /** The product after receiving quantity units at time now. */
  function Received(p: ProductRecord, quantity: int, now: Time): ProductRecord {
    p.(stock := p.stock + quantity, updatedAt := now)
  }

  /** A write-back with no store failure rewrites the row and appends the entry. */
  lemma PersistRewrites(products: seq<ProductRecord>, ledger: seq<Transaction>, updated: ProductRecord,
                        t: Transaction, faults: Faults)
    requires FindById(products, updated.id).Some?
    requires FindById(products, updated.id).value.createdAt == updated.createdAt
    requires !faults.ledgerInsertFails && !faults.productUpdateFails
    ensures var o := Persist(products, ledger, updated, t, faults);
            o.err.None? && RowRewritten(products, o.products, updated) && AppendedOne(ledger, o.ledger, t)
  {
    ReplaceRewritesRow(products, updated);
  }

  /**
   * The product is looked up before the quantity is checked: a failed lookup is
   * returned as it is, and a missing product gives ProductNotFound whatever the
   * quantity; neither writes anything.
   */
  lemma LookupPrecedesValidation(products: seq<ProductRecord>, ledger: seq<Transaction>, productId: Uuid,
                                 quantity: int, reference: string, notes: string, userId: Uuid, txId: Uuid,
                                 now: Time, faults: Faults)
    ensures faults.lookupFails ==>
      && StockIn(products, ledger, productId, quantity, reference, notes, userId, txId, now, faults)
         == Outcome(Some(LookupFailed), products, ledger)
      && StockOut(products, ledger, productId, quantity, reference, notes, userId, txId, now, faults)
         == Outcome(Some(LookupFailed), products, ledger)
      && Adjust(products, ledger, productId, quantity, notes, userId, txId, now, faults)
         == Outcome(Some(LookupFailed), products, ledger)
    ensures !faults.lookupFails && (forall k :: 0 <= k < |products| ==> products[k].id != productId) ==>
      && StockIn(products, ledger, productId, quantity, reference, notes, userId, txId, now, faults)
         == Outcome(Some(ProductNotFound), products, ledger)
      && StockOut(products, ledger, productId, quantity, reference, notes, userId, txId, now, faults)
         == Outcome(Some(ProductNotFound), products, ledger)
      && Adjust(products, ledger, productId, quantity, notes, userId, txId, now, faults)
         == Outcome(Some(ProductNotFound), products, ledger)
  {
  }

  /**
   * A quantity of zero or less for stock-in or stock-out, or a negative target
   * for an adjustment, is refused with InvalidQuantity and nothing is written.
   */
  lemma InvalidQuantityWritesNothing(products: seq<ProductRecord>, ledger: seq<Transaction>, productId: Uuid,
                                     quantity: int, reference: string, notes: string, userId: Uuid, txId: Uuid,
                                     now: Time, faults: Faults)
    requires !faults.lookupFails && FindById(products, productId).Some?
    ensures quantity <= 0 ==>
      && StockIn(products, ledger, productId, quantity, reference, notes, userId, txId, now, faults)
         == Outcome(Some(InvalidQuantity), products, ledger)
      && StockOut(products, ledger, productId, quantity, reference, notes, userId, txId, now, faults)
         == Outcome(Some(InvalidQuantity), products, ledger)
    ensures quantity < 0 ==>
      Adjust(products, ledger, productId, quantity, notes, userId, txId, now, faults)
      == Outcome(Some(InvalidQuantity), products, ledger)
  {
  }

  /**
   * A successful stock-in raises the product's stock by exactly the quantity,
   * refreshes its update time, leaves every other product alone, and appends
   * exactly one "in" entry carrying the quantity, reference, notes and user.
   */
  lemma StockInRaisesStock(products: seq<ProductRecord>, ledger: seq<Transaction>, productId: Uuid,
                           quantity: int, reference: string, notes: string, userId: Uuid, txId: Uuid,
                           now: Time, faults: Faults)
    requires StockIn(products, ledger, productId, quantity, reference, notes, userId, txId, now, faults).err.None?
    ensures FindById(products, productId).Some? && quantity > 0
    ensures RowRewritten(products,
                         StockIn(products, ledger, productId, quantity, reference, notes, userId, txId, now, faults).products,
                         Received(FindById(products, productId).value, quantity, now))
    ensures AppendedOne(ledger,
                        StockIn(products, ledger, productId, quantity, reference, notes, userId, txId, now, faults).ledger,
                        Transaction(txId, productId, TypeIn, quantity, reference, notes, userId, now))
  {
    var o := StockIn(products, ledger, productId, quantity, reference, notes, userId, txId, now, faults);
    assert !faults.lookupFails;
    var found := FindById(products, productId);
    assert found.Some?;
    var p := found.value;
    assert quantity > 0 && p.stock + quantity >= 0;
    var t := NewTransaction(txId, productId, TypeIn, quantity, reference, notes, userId, now);
    var u := Received(p, quantity, now);
    assert o == Persist(products, ledger, u, t, faults);
    PersistRewrites(products, ledger, u, t, faults);
    assert RowRewritten(products, o.products, u);
  }

  /** Stock-out beyond the stock on hand is refused with InsufficientStock and nothing is written. */
  lemma StockOutInsufficientWritesNothing(products: seq<ProductRecord>, ledger: seq<Transaction>, productId: Uuid,
                                          quantity: int, reference: string, notes: string, userId: Uuid,
                                          txId: Uuid, now: Time, faults: Faults)
    requires !faults.lookupFails && FindById(products, productId).Some? && quantity > 0
    requires FindById(products, productId).value.stock < quantity
    ensures StockOut(products, ledger, productId, quantity, reference, notes, userId, txId, now, faults)
            == Outcome(Some(InsufficientStock), products, ledger)
  {
  }

  /**
   * A successful stock-out lowers the product's stock by exactly the quantity
   * (never below zero) and appends one "out" entry recording the positive quantity.
   */
  lemma StockOutLowersStock(products: seq<ProductRecord>, ledger: seq<Transaction>, productId: Uuid,
                            quantity: int, reference: string, notes: string, userId: Uuid, txId: Uuid,
                            now: Time, faults: Faults)
    requires StockOut(products, ledger, productId, quantity, reference, notes, userId, txId, now, faults).err.None?
    ensures FindById(products, productId).Some?
    ensures 0 < quantity <= FindById(products, productId).value.stock
    ensures RowRewritten(products,
                         StockOut(products, ledger, productId, quantity, reference, notes, userId, txId, now, faults).products,
                         Received(FindById(products, productId).value, -quantity, now))
    ensures AppendedOne(ledger,
                        StockOut(products, ledger, productId, quantity, reference, notes, userId, txId, now, faults).ledger,
                        Transaction(txId, productId, TypeOut, quantity, reference, notes, userId, now))
  {
    var o := StockOut(products, ledger, productId, quantity, reference, notes, userId, txId, now, faults);
    assert !faults.lookupFails;
    var found := FindById(products, productId);
    assert found.Some?;
    var p := found.value;
    assert 0 < quantity <= p.stock;
    var t := NewTransaction(txId, productId, TypeOut, quantity, reference, notes, userId, now);
    var u := Received(p, -quantity, now);
    assert u == p.(stock := p.stock - quantity, updatedAt := now);
    assert o == Persist(products, ledger, u, t, faults);
    PersistRewrites(products, ledger, u, t, faults);
    assert RowRewritten(products, o.products, u);
  }

  /**
   * A successful adjustment sets the stock to exactly the target, keeps the
   * product's update time, and appends one "adjustment" entry whose quantity is
   * the signed difference from the old stock and whose reference is empty.
   */
  lemma AdjustRecordsDelta(products: seq<ProductRecord>, ledger: seq<Transaction>, productId: Uuid,
                           newQuantity: int, notes: string, userId: Uuid, txId: Uuid, now: Time, faults: Faults)
    requires Adjust(products, ledger, productId, newQuantity, notes, userId, txId, now, faults).err.None?
    ensures FindById(products, productId).Some? && newQuantity >= 0
    ensures RowRewritten(products,
                         Adjust(products, ledger, productId, newQuantity, notes, userId, txId, now, faults).products,
                         FindById(products, productId).value.(stock := newQuantity))
    ensures AppendedOne(ledger,
                        Adjust(products, ledger, productId, newQuantity, notes, userId, txId, now, faults).ledger,
                        Transaction(txId, productId, TypeAdjustment, newQuantity - FindById(products, productId).value.stock,
                                    "", notes, userId, now))
  {
    var o := Adjust(products, ledger, productId, newQuantity, notes, userId, txId, now, faults);
    assert !faults.lookupFails;
    var found := FindById(products, productId);
    assert found.Some?;
    var p := found.value;
    assert newQuantity >= 0;
    var t := NewTransaction(txId, productId, TypeAdjustment, newQuantity - p.stock, "", notes, userId, now);
    assert o == Persist(products, ledger, p.(stock := newQuantity), t, faults);
    PersistRewrites(products, ledger, p.(stock := newQuantity), t, faults);
  }

  /** Adjusting a stock of 10 to 7 leaves 7 and records -3. */
  lemma AdjustTenToSeven(p: ProductRecord, notes: string, userId: Uuid, txId: Uuid, now: Time)
    requires p.stock == 10
    ensures var o := Adjust([p], [], p.id, 7, notes, userId, txId, now, NoFaults);
            && o.err == None
            && FindById(o.products, p.id).Some? && FindById(o.products, p.id).value.stock == 7
            && o.ledger == [Transaction(txId, p.id, TypeAdjustment, -3, "", notes, userId, now)]
  {
    AdjustRecordsDelta([p], [], p.id, 7, notes, userId, txId, now, NoFaults);
  }

  /** No operation, successful or not, drives any stock below zero. */
  lemma {:induction false} StockNeverNegative(products: seq<ProductRecord>, ledger: seq<Transaction>, productId: Uuid,
                                              quantity: int, reference: string, notes: string, userId: Uuid,
                                              txId: Uuid, now: Time, faults: Faults)
    requires AllStocksNonNegative(products)
    ensures AllStocksNonNegative(StockIn(products, ledger, productId, quantity, reference, notes, userId, txId, now, faults).products)
    ensures AllStocksNonNegative(StockOut(products, ledger, productId, quantity, reference, notes, userId, txId, now, faults).products)
    ensures AllStocksNonNegative(Adjust(products, ledger, productId, quantity, notes, userId, txId, now, faults).products)
  {
    var found := FindById(products, productId);
    if !faults.lookupFails && found.Some? {
      var p := found.value;
      ReplaceKeepsStocks(products, p.(stock := p.stock + quantity, updatedAt := now));
      ReplaceKeepsStocks(products, p.(stock := p.stock - quantity, updatedAt := now));
      ReplaceKeepsStocks(products, p.(stock := quantity));
    }
  }

  /** A transfer is two movements, so it too keeps every stock non-negative. */
  lemma TransferNeverNegative(products: seq<ProductRecord>, ledger: seq<Transaction>, fromId: Uuid, toId: Uuid,
                              quantity: int, reference: string, notes: string, userId: Uuid,
                              outTxId: Uuid, inTxId: Uuid, now: Time, outFaults: Faults, inFaults: Faults)
    requires AllStocksNonNegative(products)
    ensures AllStocksNonNegative(Transfer(products, ledger, fromId, toId, quantity, reference, notes, userId,
                                          outTxId, inTxId, now, outFaults, inFaults).products)
  {
    StockNeverNegative(products, ledger, fromId, quantity, reference, "Transfer out: " + notes,
                       userId, outTxId, now, outFaults);
    var first := StockOut(products, ledger, fromId, quantity, reference, "Transfer out: " + notes,
                          userId, outTxId, now, outFaults);
    StockNeverNegative(first.products, first.ledger, toId, quantity, reference, "Transfer in: " + notes,
                       userId, inTxId, now, inFaults);
  }

  /** Writing back a row with a non-negative stock keeps every stock non-negative. */
  lemma ReplaceKeepsStocks(products: seq<ProductRecord>, updated: ProductRecord)
    ensures AllStocksNonNegative(products) && updated.stock >= 0 ==> AllStocksNonNegative(Replace(products, updated))
  {
  }

  /**
   * The ledger insert comes before the product update and nothing joins them:
   * if the insert fails neither store changes, and if the update fails the new
   * ledger entry stays while the product keeps its old stock.
   */
  lemma WritesAreNotAtomic(products: seq<ProductRecord>, ledger: seq<Transaction>, productId: Uuid,
                           quantity: int, reference: string, notes: string, userId: Uuid, txId: Uuid,
                           now: Time, faults: Faults)
    ensures var o := StockIn(products, ledger, productId, quantity, reference, notes, userId, txId, now, faults);
            && (o.err == Some(LedgerInsertFailed) ==> o.products == products && o.ledger == ledger)
            && (o.err == Some(ProductUpdateFailed) ==>
                  o.products == products && AppendedOne(ledger, o.ledger,
                    Transaction(txId, productId, TypeIn, quantity, reference, notes, userId, now)))
    ensures var o := StockOut(products, ledger, productId, quantity, reference, notes, userId, txId, now, faults);
            && (o.err == Some(LedgerInsertFailed) ==> o.products == products && o.ledger == ledger)
            && (o.err == Some(ProductUpdateFailed) ==>
                  o.products == products && AppendedOne(ledger, o.ledger,
                    Transaction(txId, productId, TypeOut, quantity, reference, notes, userId, now)))
    ensures var o := StockIn(products, ledger, productId, quantity, reference, notes, userId, txId, now, faults);
            o.err.Some? && o.err != Some(ProductUpdateFailed) ==> o.products == products && o.ledger == ledger
  {
  }

  /** An adjustment writes in the same two unjoined steps as the other movements. */
  lemma AdjustWritesAreNotAtomic(products: seq<ProductRecord>, ledger: seq<Transaction>, productId: Uuid,
                                 newQuantity: int, notes: string, userId: Uuid, txId: Uuid, now: Time, faults: Faults)
    ensures var o := Adjust(products, ledger, productId, newQuantity, notes, userId, txId, now, faults);
            && (o.err == Some(LedgerInsertFailed) ==> o.products == products && o.ledger == ledger)
            && (o.err == Some(ProductUpdateFailed) ==>
                  && FindById(products, productId).Some?
                  && o.products == products
                  && o.ledger == ledger + [Transaction(txId, productId, TypeAdjustment,
                                                       newQuantity - FindById(products, productId).value.stock,
                                                       "", notes, userId, now)])
  {
  }

  /**
   * The ledger only grows, by at most one entry per call, and by exactly one
   * on success; a call that is refused before the writes changes nothing.
   */
  lemma OneEntryPerSuccess(products: seq<ProductRecord>, ledger: seq<Transaction>, productId: Uuid,
                           quantity: int, reference: string, notes: string, userId: Uuid, txId: Uuid,
                           now: Time, faults: Faults)
    ensures var o := StockIn(products, ledger, productId, quantity, reference, notes, userId, txId, now, faults);
            && (o.ledger == ledger || (|o.ledger| == |ledger| + 1 && o.ledger[..|ledger|] == ledger))
            && (o.err.None? ==> |o.ledger| == |ledger| + 1)
            && (o.err.Some? && o.err != Some(ProductUpdateFailed) ==> o.ledger == ledger)
    ensures var o := StockOut(products, ledger, productId, quantity, reference, notes, userId, txId, now, faults);
            && (o.ledger == ledger || (|o.ledger| == |ledger| + 1 && o.ledger[..|ledger|] == ledger))
            && (o.err.None? ==> |o.ledger| == |ledger| + 1)
            && (o.err.Some? && o.err != Some(ProductUpdateFailed) ==> o.ledger == ledger)
    ensures var o := Adjust(products, ledger, productId, quantity, notes, userId, txId, now, faults);
            && (o.ledger == ledger || (|o.ledger| == |ledger| + 1 && o.ledger[..|ledger|] == ledger))
            && (o.err.None? ==> |o.ledger| == |ledger| + 1)
            && (o.err.Some? && o.err != Some(ProductUpdateFailed) ==> o.ledger == ledger)
  {
  }

  /** A transfer whose stock-out fails ends there: the stock-in is never attempted. */
  lemma TransferStopsAfterFailedOut(products: seq<ProductRecord>, ledger: seq<Transaction>, fromId: Uuid,
                                    toId: Uuid, quantity: int, reference: string, notes: string, userId: Uuid,
                                    outTxId: Uuid, inTxId: Uuid, now: Time, outFaults: Faults, inFaults: Faults)
    requires StockOut(products, ledger, fromId, quantity, reference, "Transfer out: " + notes,
                      userId, outTxId, now, outFaults).err.Some?
    ensures Transfer(products, ledger, fromId, toId, quantity, reference, notes, userId,
                     outTxId, inTxId, now, outFaults, inFaults)
            == StockOut(products, ledger, fromId, quantity, reference, "Transfer out: " + notes,
                        userId, outTxId, now, outFaults)
  {
  }

  /**
   * A transfer whose stock-in fails keeps the completed stock-out: the source's
   * lowered stock and its "out" entry remain, and the destination is not written.
   */
  lemma TransferKeepsOutWhenInFails(products: seq<ProductRecord>, ledger: seq<Transaction>, fromId: Uuid,
                                    toId: Uuid, quantity: int, reference: string, notes: string, userId: Uuid,
                                    outTxId: Uuid, inTxId: Uuid, now: Time, outFaults: Faults, inFaults: Faults)
    requires StockOut(products, ledger, fromId, quantity, reference, "Transfer out: " + notes,
                      userId, outTxId, now, outFaults).err.None?
    requires Transfer(products, ledger, fromId, toId, quantity, reference, notes, userId,
                      outTxId, inTxId, now, outFaults, inFaults).err.Some?
    ensures Transfer(products, ledger, fromId, toId, quantity, reference, notes, userId,
                     outTxId, inTxId, now, outFaults, inFaults).products
            == StockOut(products, ledger, fromId, quantity, reference, "Transfer out: " + notes,
                        userId, outTxId, now, outFaults).products
    ensures RowRewritten(products,
                         Transfer(products, ledger, fromId, toId, quantity, reference, notes, userId,
                                  outTxId, inTxId, now, outFaults, inFaults).products,
                         Received(FindById(products, fromId).value, -quantity, now))
    ensures Transfer(products, ledger, fromId, toId, quantity, reference, notes, userId,
                     outTxId, inTxId, now, outFaults, inFaults).ledger[..|ledger| + 1]
            == ledger + [Transaction(outTxId, fromId, TypeOut, quantity, reference, "Transfer out: " + notes, userId, now)]
  {
    StockOutLowersStock(products, ledger, fromId, quantity, reference, "Transfer out: " + notes,
                        userId, outTxId, now, outFaults);
    var first := StockOut(products, ledger, fromId, quantity, reference, "Transfer out: " + notes,
                          userId, outTxId, now, outFaults);
    WritesAreNotAtomic(first.products, first.ledger, toId, quantity, reference, "Transfer in: " + notes,
                       userId, inTxId, now, inFaults);
    OneEntryPerSuccess(first.products, first.ledger, toId, quantity, reference, "Transfer in: " + notes,
                       userId, inTxId, now, inFaults);
  }

  /** Moving 5 from a product holding 10 to another holding 0 leaves 5 and 5 and two entries. */
  lemma TransferScenario(a: ProductRecord, b: ProductRecord, notes: string, reference: string, userId: Uuid,
                         outTxId: Uuid, inTxId: Uuid, now: Time)
    requires a.id != b.id && a.stock == 10 && b.stock == 0
    ensures var o := Transfer([a, b], [], a.id, b.id, 5, reference, notes, userId, outTxId, inTxId, now,
                              NoFaults, NoFaults);
            && o.err == None
            && FindById(o.products, a.id) == Some(a.(stock := 5, updatedAt := now))
            && FindById(o.products, b.id) == Some(b.(stock := 5, updatedAt := now))
            && o.ledger == [Transaction(outTxId, a.id, TypeOut, 5, reference, "Transfer out: " + notes, userId, now),
                            Transaction(inTxId, b.id, TypeIn, 5, reference, "Transfer in: " + notes, userId, now)]
  {
    var first := StockOut([a, b], [], a.id, 5, reference, "Transfer out: " + notes, userId, outTxId, now, NoFaults);
    assert [a, b][1..] == [b];
    assert FindById([a, b], a.id) == Some(a);
    assert FindById([a, b], b.id) == Some(b);
    StockOutLowersStock([a, b], [], a.id, 5, reference, "Transfer out: " + notes, userId, outTxId, now, NoFaults);
    assert FindById(first.products, b.id) == Some(b);
    StockInRaisesStock(first.products, first.ledger, b.id, 5, reference, "Transfer in: " + notes,
                       userId, inTxId, now, NoFaults);
  }

  /**
   * A new active product with minimum 5 receives 3 and is then on the low-stock
   * list; receiving 10 more brings it to 13 and takes it off the list.
   */
  lemma LowStockScenario(p: ProductRecord, userId: Uuid, tx1: Uuid, tx2: Uuid, t1: Time, t2: Time)
    requires p.stock == 0 && p.minStock == 5 && p.maxStock == 100 && p.status == StatusActive
    ensures var first := StockIn([p], [], p.id, 3, "", "", userId, tx1, t1, NoFaults);
            var second := StockIn(first.products, first.ledger, p.id, 10, "", "", userId, tx2, t2, NoFaults);
            && first.err == None && second.err == None
            && first.products == [p.(stock := 3, updatedAt := t1)]
            && Filter(first.products, IsLowAndActive) == first.products
            && second.products == [p.(stock := 13, updatedAt := t2)]
            && Filter(second.products, IsLowAndActive) == []
            && |second.ledger| == 2
  {
    var first := StockIn([p], [], p.id, 3, "", "", userId, tx1, t1, NoFaults);
    assert FindById([p], p.id) == Some(p);
    var q := p.(stock := 3, updatedAt := t1);
    assert first.products == Replace([p], q) == [q];
    assert FindById([q], p.id) == Some(q);
    var r := q.(stock := 13, updatedAt := t2);
    assert Replace([q], r) == [r];
    assert Filter([q], IsLowAndActive) == [q] by {
      assert IsLowAndActive(q);
      FilterAppend([], q, IsLowAndActive);
    }
    assert Filter([r], IsLowAndActive) == [] by {
      assert !IsLowAndActive(r);
      FilterAppend([], r, IsLowAndActive);
    }
  }
}

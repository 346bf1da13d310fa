/** The ledger entry: an immutable record of one stock movement. */
module Transactions {
  import opened Common

  const TypeIn: string := "in"
  const TypeOut: string := "out"
  const TypeAdjustment: string := "adjustment"

  /** A ledger entry. The type is a free string: nothing restricts it to the three constants. */
  datatype Transaction = Transaction(
    id: Uuid,
    productId: Uuid,
    txType: string,
    quantity: int,
    reference: string,
    notes: string,
    createdBy: Uuid,
    createdAt: Time)
  {
    predicate IsStockIn() { txType == TypeIn }
    predicate IsStockOut() { txType == TypeOut }
    predicate IsAdjustment() { txType == TypeAdjustment }
  }

  /**
   * Builds a ledger entry. The fresh id and the creation time are supplied by
   * the caller; every other argument is stored as given, with no check of the
   * type string or of the sign of the quantity.
   */
  function NewTransaction(id: Uuid, productId: Uuid, txType: string, quantity: int,
                          reference: string, notes: string, createdBy: Uuid, now: Time): (t: Transaction)
    ensures t.id == id && t.createdAt == now
    ensures t.productId == productId && t.txType == txType && t.quantity == quantity
    ensures t.reference == reference && t.notes == notes && t.createdBy == createdBy
    ensures t.IsStockIn() <==> txType == "in"
    ensures t.IsStockOut() <==> txType == "out"
    ensures t.IsAdjustment() <==> txType == "adjustment"
  {
    Transaction(id, productId, txType, quantity, reference, notes, createdBy, now)
  }

  /** The three kinds are mutually exclusive, and a type outside them satisfies none. */
  lemma KindsAreExclusive(t: Transaction)
    ensures !(t.IsStockIn() && t.IsStockOut())
    ensures !(t.IsStockIn() && t.IsAdjustment())
    ensures !(t.IsStockOut() && t.IsAdjustment())
    ensures t.txType !in {"in", "out", "adjustment"} ==>
              !t.IsStockIn() && !t.IsStockOut() && !t.IsAdjustment()
  {
  }
}

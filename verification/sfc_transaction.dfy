/**
 `SFCTransaction`: `before_save` defaults the transaction time and
 `validate` rejects a negative quantity.
 */
module SfcTransaction {
  import opened Frappe

  datatype Transaction = Transaction(transactionTime: string, quantity: Option<real>)

  datatype TransactionError = NegativeQuantity

  function BeforeSave(t: Transaction, now: string): (r: Transaction)
    ensures r.quantity == t.quantity
    ensures Filled(t.transactionTime) ==> r.transactionTime == t.transactionTime
    ensures !Filled(t.transactionTime) ==> r.transactionTime == now
  {
    t.(transactionTime := DefaultIfEmpty(t.transactionTime, now))
  }

  /**
   The `quantity and quantity < 0` guard: truthiness excludes only 0 and None,
   neither of which is negative, so the check is exactly "negative".
   */
  function Validate(t: Transaction): (r: Outcome<Transaction, TransactionError>)
    ensures r.Thrown? <==> t.quantity.Some? && t.quantity.value < 0.0
    ensures r.Saved? ==> r.doc == t && !r.advised
  {
    if Truthy(t.quantity) && t.quantity.value < 0.0 then Thrown(NegativeQuantity) else Saved(t, false)
  }
}

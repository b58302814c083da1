/** The PurchaseReturns table: goods sent back to a supplier, with a caller-given refund
    and a reason of 3 to 255 characters. */
module PurchaseReturnsModel {
  import opened Http

  datatype PurchaseReturn = PurchaseReturn(purchaseId: int, productId: int, quantity: int,
                                           reason: string, refundAmount: int)

  /** The column validators: `quantity` has `min: 1`; `reason` has `len: [3, 255]`. */
  predicate Valid(r: PurchaseReturn) {
    r.quantity >= 1 && 3 <= |r.reason| <= 255
  }

  /** `PurchaseReturns.create(fields)`: None when validation throws; `refundAmount`
      defaults to 0. */
  function Create(purchaseId: Option<int>, productId: Option<int>, quantity: Option<int>,
                  reason: Option<string>, refundAmount: Option<int>): (r: Option<PurchaseReturn>)
    ensures r.Some? <==> purchaseId.Some? && productId.Some? && quantity.Some? && reason.Some?
                         && quantity.value >= 1 && 3 <= |reason.value| <= 255
    ensures r.Some? ==> Valid(r.value) && r.value.purchaseId == purchaseId.value
                        && r.value.productId == productId.value && r.value.quantity == quantity.value
                        && r.value.reason == reason.value
    ensures r.Some? ==> r.value.refundAmount == refundAmount.GetOr(0)
  {
    if purchaseId.None? || productId.None? || quantity.None? || reason.None? then None
    else
      var r := PurchaseReturn(purchaseId.value, productId.value, quantity.value, reason.value,
                              refundAmount.GetOr(0));
      if Valid(r) then Some(r) else None
  }

  /** Assigning `quantity`, `refundAmount` and `reason` and then `save()`: no default
      applies on save, so any absent field is a NOT NULL violation, and the validators
      run again on the new values. */
  function Assign(r: PurchaseReturn, quantity: Option<int>, refundAmount: Option<int>,
                  reason: Option<string>): (r': Option<PurchaseReturn>)
    ensures r'.Some? <==> quantity.Some? && refundAmount.Some? && reason.Some?
                          && quantity.value >= 1 && 3 <= |reason.value| <= 255
    ensures r'.Some? ==> Valid(r'.value) && r'.value.purchaseId == r.purchaseId
                         && r'.value.productId == r.productId && r'.value.quantity == quantity.value
                         && r'.value.reason == reason.value && r'.value.refundAmount == refundAmount.value
  {
    if quantity.None? || refundAmount.None? || reason.None? then None
    else
      var r' := r.(quantity := quantity.value, refundAmount := refundAmount.value, reason := reason.value);
      if Valid(r') then Some(r') else None
  }

  /** Every valid row can be created from its own fields, and only valid rows can. */
  lemma CreateRoundTrip(r: PurchaseReturn)
    ensures Create(Some(r.purchaseId), Some(r.productId), Some(r.quantity), Some(r.reason),
                   Some(r.refundAmount))
            == (if Valid(r) then Some(r) else None)
  {
  }
}

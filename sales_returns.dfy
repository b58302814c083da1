/** The SalesReturns table: goods a customer brought back. The table has no `reason`
    column, so a reason passed to `create` is dropped. */
module SalesReturnsModel {
  import opened Http

  datatype SalesReturn = SalesReturn(saleId: int, productId: int, quantity: int, refundAmount: int)

  /** The column validator: `quantity` is an integer with `min: 1`. */
  predicate Valid(r: SalesReturn) {
    r.quantity >= 1
  }

  /** `SalesReturns.create(fields)`: None when validation throws; `refundAmount`
      defaults to 0. There is no parameter for a reason: the table cannot hold one. */
  function Create(saleId: Option<int>, productId: Option<int>, quantity: Option<int>,
                  refundAmount: Option<int>): (r: Option<SalesReturn>)
    ensures r.Some? <==> saleId.Some? && productId.Some? && quantity.Some? && quantity.value >= 1
    ensures r.Some? ==> Valid(r.value) && r.value.saleId == saleId.value
                        && r.value.productId == productId.value && r.value.quantity == quantity.value
    ensures r.Some? ==> r.value.refundAmount == refundAmount.GetOr(0)
  {
    if saleId.None? || productId.None? || quantity.None? then None
    else
      var r := SalesReturn(saleId.value, productId.value, quantity.value, refundAmount.GetOr(0));
      if Valid(r) then Some(r) else None
  }

  /** `record.quantity = q; record.refundAmount = a; record.save()`: on save no default
      applies, so an absent refund is a NOT NULL violation. `saleId` and `productId` stay. */
  function Assign(r: SalesReturn, quantity: int, refundAmount: Option<int>): (r': Option<SalesReturn>)
    ensures r'.Some? <==> quantity >= 1 && refundAmount.Some?
    ensures r'.Some? ==> Valid(r'.value) && r'.value.saleId == r.saleId && r'.value.productId == r.productId
                         && r'.value.quantity == quantity && r'.value.refundAmount == refundAmount.value
  {
    if refundAmount.None? then None
    else
      var r' := r.(quantity := quantity, refundAmount := refundAmount.value);
      if Valid(r') then Some(r') else None
  }

  /** Every valid row can be created from its own fields, and only valid rows can. */
  lemma CreateRoundTrip(r: SalesReturn)
    ensures Create(Some(r.saleId), Some(r.productId), Some(r.quantity), Some(r.refundAmount))
            == (if Valid(r) then Some(r) else None)
  {
  }
}

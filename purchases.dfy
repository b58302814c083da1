/** The Purchases table: one row per stock purchase from a supplier. */
module PurchasesModel {
  import opened Http

  datatype Purchase = Purchase(productId: int, supplierId: int, quantity: int,
                               pricePerUnit: int, totalAmount: int)

  /** The column validator: `quantity` is an integer with `min: 1`. */
  predicate Valid(p: Purchase) {
    p.quantity >= 1
  }

  /** `Purchase.create(fields)`: None when validation throws. `productId`, `supplierId`
      and `quantity` are NOT NULL without default; the money columns default to 0. */
  function Create(productId: Option<int>, supplierId: Option<int>, quantity: Option<int>,
                  pricePerUnit: Option<int>, totalAmount: Option<int>): (r: Option<Purchase>)
    ensures r.Some? <==> productId.Some? && supplierId.Some? && quantity.Some? && quantity.value >= 1
    ensures r.Some? ==> Valid(r.value) && r.value.productId == productId.value
                        && r.value.supplierId == supplierId.value && r.value.quantity == quantity.value
  {
    if productId.None? || supplierId.None? || quantity.None? then None
    else
      var p := Purchase(productId.value, supplierId.value, quantity.value,
                        pricePerUnit.GetOr(0), totalAmount.GetOr(0));
      if Valid(p) then Some(p) else None
  }

  /** The money columns default to 0. */
  lemma CreateDefaults(productId: int, supplierId: int, quantity: int)
    requires quantity >= 1
    ensures Create(Some(productId), Some(supplierId), Some(quantity), None, None)
            == Some(Purchase(productId, supplierId, quantity, 0, 0))
  {
  }

  /** Every valid row can be created from its own fields, and only valid rows can. */
  lemma CreateRoundTrip(p: Purchase)
    ensures Create(Some(p.productId), Some(p.supplierId), Some(p.quantity),
                   Some(p.pricePerUnit), Some(p.totalAmount))
            == (if Valid(p) then Some(p) else None)
  {
  }
}

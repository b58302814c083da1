/** The Sales table: one row per sold line item. `productName` and
    `sellingPricePerUnit` are snapshots of the product taken when the sale is made. */
module SalesModel {
  import opened Http

  datatype Sale = Sale(productId: int, productName: string, quantity: int,
                       sellingPricePerUnit: int, totalAmount: int)

  /** The column validator: `quantity` is an integer with `min: 1`. */
  predicate Valid(s: Sale) {
    s.quantity >= 1
  }

  /** `Sales.create(fields)`: None when Sequelize's validation throws. `productId`,
      `productName` and `quantity` are NOT NULL without default; the money columns
      default to 0. */
  function Create(productId: Option<int>, productName: Option<string>, quantity: Option<int>,
                  sellingPricePerUnit: Option<int>, totalAmount: Option<int>): (r: Option<Sale>)
    ensures r.Some? <==> productId.Some? && productName.Some? && quantity.Some? && quantity.value >= 1
    ensures r.Some? ==> Valid(r.value) && r.value.productId == productId.value
                        && r.value.productName == productName.value && r.value.quantity == quantity.value
  {
    if productId.None? || productName.None? || quantity.None? then None
    else
      var s := Sale(productId.value, productName.value, quantity.value,
                    sellingPricePerUnit.GetOr(0), totalAmount.GetOr(0));
      if Valid(s) then Some(s) else None
  }

  /** The money columns default to 0. */
  lemma CreateDefaults(productId: int, productName: string, quantity: int)
    requires quantity >= 1
    ensures Create(Some(productId), Some(productName), Some(quantity), None, None)
            == Some(Sale(productId, productName, quantity, 0, 0))
  {
  }

  /** Every valid row can be created from its own fields, and only valid rows can. */
  lemma CreateRoundTrip(s: Sale)
    ensures Create(Some(s.productId), Some(s.productName), Some(s.quantity),
                   Some(s.sellingPricePerUnit), Some(s.totalAmount))
            == (if Valid(s) then Some(s) else None)
  {
  }
}

/** Properties that relate several handlers: which deletes undo their create, which
    product a purchase return hits, the setup-once guard, and a worked day of trading. */
module Properties {
  import opened Http
  import opened ProductModel
  import opened SalesModel
  import opened SalesReturnsModel
  import opened PurchasesModel
  import opened PurchaseReturnsModel
  import opened Handlers
  import opened Checkout

  /** Cancelling a sales return right after creating it restores every table; only the
      return table's counter has moved on. */
  lemma SalesReturnDeleteUndoesCreate(db: Db, saleId: Option<int>, returnQuantity: Option<int>, reason: Option<string>)
    requires Consistent(db)
    requires PostSalesReturn(db, saleId, returnQuantity, reason).status == Ok
    ensures var created := PostSalesReturn(db, saleId, returnQuantity, reason);
      var cancelled := DeleteSalesReturn(created.db, db.nextSalesReturnId);
      && cancelled.status == Ok
      && cancelled.db == db.(nextSalesReturnId := db.nextSalesReturnId + 1)
  {
    var created := PostSalesReturn(db, saleId, returnQuantity, reason);
    var sale := db.sales[saleId.value];
    var q := returnQuantity.value;
    var row := created.db.salesReturns[db.nextSalesReturnId];
    assert row.productId == sale.productId && row.quantity == q;
    AdjustStockTwice(db.products, sale.productId, q, -q);
    AdjustStockZero(db.products, sale.productId);
    assert db.nextSalesReturnId !in db.salesReturns;
    assert created.db.salesReturns - {db.nextSalesReturnId} == db.salesReturns;
  }

  /** Deleting a purchase right after recording it does not take its quantity back out:
      the product keeps the added stock. */
  lemma PurchaseDeleteKeepsStock(db: Db, productId: Option<int>, supplierId: Option<int>, quantity: Option<int>)
    requires PostPurchase(db, productId, supplierId, quantity).status == Ok
    ensures var created := PostPurchase(db, productId, supplierId, quantity);
      var deleted := DeletePurchase(created.db, db.nextPurchaseId);
      && deleted.status == Ok
      && deleted.db.products[productId.value].stock == db.products[productId.value].stock + quantity.value
      && deleted.db.products != db.products
  {
    var deleted := DeletePurchase(PostPurchase(db, productId, supplierId, quantity).db, db.nextPurchaseId);
    assert deleted.db.products[productId.value] != db.products[productId.value];
  }

  /** Deleting a purchase return right after creating it leaves the stock it took out
      taken out. */
  lemma PurchaseReturnDeleteKeepsStock(db: Db, purchaseId: Option<int>, productId: Option<int>, quantity: Option<int>,
                                       refundAmount: Option<int>, reason: Option<string>)
    requires PostPurchaseReturn(db, purchaseId, productId, quantity, refundAmount, reason).status == Ok
    ensures var created := PostPurchaseReturn(db, purchaseId, productId, quantity, refundAmount, reason);
      var deleted := DeletePurchaseReturn(created.db, db.nextPurchaseReturnId);
      && deleted.status == Ok
      && deleted.db.products[productId.value].stock == db.products[productId.value].stock - quantity.value
      && deleted.db.products != db.products
  {
    var deleted := DeletePurchaseReturn(PostPurchaseReturn(db, purchaseId, productId, quantity, refundAmount, reason).db,
                                        db.nextPurchaseReturnId);
    assert deleted.db.products[productId.value] != db.products[productId.value];
  }

  /** Deleting the sale a one-item checkout just wrote leaves the sold quantity out of stock. */
  lemma SaleDeleteKeepsStock(db: Db, item: SaleItem)
    requires Consistent(db)
    requires PostSales(db, Some([item])).status == Ok
    ensures var sold := PostSales(db, Some([item]));
      var deleted := DeleteSale(sold.db, db.nextSaleId);
      && deleted.status == Ok
      && Found(db, item) && item.quantity.Given?
      && deleted.db.products[item.productId.value].stock
         == db.products[item.productId.value].stock - item.quantity.value
  {
    assert [item][0] == item && [item][1..] == [];
    var step := SellItem(db, item);
    assert step.Sold?;
    assert ProcessItems(step.db, [item][1..]) == Outcome(Ok, step.db, []);
    assert PostSales(db, Some([item])).db == step.db;
  }

  /** A purchase return lowers the stock of the product named in the request; the product
      the purchase was for keeps its stock when the two differ. */
  lemma PurchaseReturnHitsSuppliedProduct(db: Db, purchaseId: Option<int>, productId: Option<int>,
                                          quantity: Option<int>, refundAmount: Option<int>, reason: Option<string>)
    requires Consistent(db)
    requires PostPurchaseReturn(db, purchaseId, productId, quantity, refundAmount, reason).status == Ok
    requires db.purchases[purchaseId.value].productId != productId.value
    ensures var r := PostPurchaseReturn(db, purchaseId, productId, quantity, refundAmount, reason);
      var purchased := db.purchases[purchaseId.value].productId;
      && purchased in db.products
      && r.db.products[purchased] == db.products[purchased]
      && r.db.products[productId.value].stock == db.products[productId.value].stock - quantity.value
  {
    assert purchaseId.value in db.purchases;
  }

  /** POST /sales-returns never stores its `reason`: two requests that differ only in a
      (given) reason have the same effect. */
  lemma SalesReturnReasonIgnored(db: Db, saleId: Option<int>, returnQuantity: Option<int>, reason1: string, reason2: string)
    requires reason1 != "" && reason2 != ""
    ensures PostSalesReturn(db, saleId, returnQuantity, Some(reason1)) == PostSalesReturn(db, saleId, returnQuantity, Some(reason2))
  {
  }

  /** The setup-once guard: after a first setup, a second one is refused, and the stored
      key opens the login while any other key is refused. */
  lemma SetupOnce(db: Db, companyName: Option<string>, secretKey: Option<string>,
                  otherName: Option<string>, otherKey: Option<string>, tried: Option<string>)
    requires Setup(db, companyName, secretKey).status == Ok
    ensures var first := Setup(db, companyName, secretKey);
      && Setup(first.db, otherName, otherKey) == Reply(BadRequest, first.db)
      && Login(first.db, secretKey) == Ok
      && (Login(first.db, tried) == Ok <==> tried == secretKey)
  {
  }

  /** POST /setup as written refuses the very first setup of an empty database with 500;
      the corrected handler accepts it and the key then logs in. */
  lemma SetupAsWrittenRefusesFirstSetup()
    ensures SetupAsWritten(Empty(), Some("Corner Shop"), Some("s3cret")).status == ServerError
    ensures Setup(Empty(), Some("Corner Shop"), Some("s3cret")).status == Ok
    ensures Login(Setup(Empty(), Some("Corner Shop"), Some("s3cret")).db, Some("s3cret")) == Ok
  {
    assert TruthyText(Some("Corner Shop")) && TruthyText(Some("s3cret"));
  }

  /** A negative stock is representable: PUT /stock-prices stores whatever stock it is given. */
  lemma StockPricesAcceptNegativeStock(db: Db, id: int)
    requires Consistent(db) && id in db.products
    ensures var r := PutStockPrices(db, id, Some(-5), Some(50), Some(80));
      r.status == Ok && Consistent(r.db) && r.db.products[id].stock == -5
  {
  }

  /** PUT /sales with a quantity the Sales validator refuses answers 500, yet the stock of
      the requested product has already been moved and saved. */
  lemma PutSaleRefusedStillMovesStock(db: Db, id: int, productId: int, storedTotal: int)
    requires Consistent(db)
    requires id in db.sales && productId in db.products
    ensures var r := PutSale(db, id, Some(productId), Some(-1), storedTotal);
      && r.status == ServerError
      && r.db.sales == db.sales
      && r.db.products[productId].stock == db.products[productId].stock + 1 + db.sales[id].quantity
  {
    assert Truthy(Some(productId)) && Truthy(Some(-1));
  }

  // ---------------------------------------------------------------------------
  // A day of trading: stock of a product priced 50 to buy and 80 to sell is bought from a
  // supplier, part of it is sold and part of the sale comes back.

  /** Buying 10 at 50 adds 10 to stock for 500. */
  lemma BuyTen(db: Db, productId: int, supplierId: int)
    requires Consistent(db) && productId in db.products && supplierId in db.suppliers
    requires db.products[productId].purchasePrice == 50 && db.products[productId].stock == 0
    ensures var bought := PostPurchase(db, Some(productId), Some(supplierId), Some(10));
      && bought.status == Ok
      && Consistent(bought.db)
      && bought.db.products[productId] == db.products[productId].(stock := 10)
      && bought.db.purchases[db.nextPurchaseId] == Purchase(productId, supplierId, 10, 50, 500)
      && bought.db.nextSaleId == db.nextSaleId
  {
    assert productId >= 1 && supplierId >= 1;
  }

  /** Selling 4 at 80 out of 10 leaves 6 and a receipt of 320. */
  lemma SellFour(db: Db, productId: int)
    requires Consistent(db) && productId in db.products
    requires db.products[productId].sellingPrice == 80 && db.products[productId].stock == 10
    ensures var item := SaleItem(Some(productId), Given(4));
      var sold := Checkout.PostSales(db, Some([item]));
      && sold.status == Ok
      && Consistent(sold.db)
      && sold.db.products[productId] == db.products[productId].(stock := 6)
      && db.nextSaleId in sold.db.sales
      && sold.db.sales[db.nextSaleId] == Sale(productId, db.products[productId].name, 4, 80, 320)
      && sold.lines == [ReceiptLine(db.products[productId].name, 4, 80, 320)]
      && TotalOf(sold.lines) == 320
  {
    var item := SaleItem(Some(productId), Given(4));
    assert [item][0] == item && [item][1..] == [];
    var step := SellItem(db, item);
    assert step.Sold?;
    assert ProcessItems(db, [item]) == Outcome(Ok, step.db, [step.line]);
    assert [step.line][..0] == [];
  }

  /** Returning 2 of that sale brings the stock to 8 and refunds 160. */
  lemma ReturnTwo(db: Db, saleId: int)
    requires Consistent(db) && saleId in db.sales
    requires db.sales[saleId].quantity == 4 && db.sales[saleId].sellingPricePerUnit == 80
    requires db.products[db.sales[saleId].productId].stock == 6
    ensures var returned := PostSalesReturn(db, Some(saleId), Some(2), Some("damaged"));
      var productId := db.sales[saleId].productId;
      && returned.status == Ok
      && returned.db.products[productId].stock == 8
      && returned.db.salesReturns[db.nextSalesReturnId].refundAmount == 160
  {
    assert saleId >= 1 && TruthyText(Some("damaged"));
  }

  /** The three steps in a row, on any consistent store holding such a product. */
  lemma DayOfTrading(db: Db, productId: int, supplierId: int)
    requires Consistent(db) && productId in db.products && supplierId in db.suppliers
    requires db.products[productId].purchasePrice == 50 && db.products[productId].sellingPrice == 80
    requires db.products[productId].stock == 0
    ensures var bought := PostPurchase(db, Some(productId), Some(supplierId), Some(10));
      var sold := Checkout.PostSales(bought.db, Some([SaleItem(Some(productId), Given(4))]));
      var returned := PostSalesReturn(sold.db, Some(db.nextSaleId), Some(2), Some("damaged"));
      && bought.status == Ok && bought.db.products[productId].stock == 10
      && sold.status == Ok && sold.db.products[productId].stock == 6 && TotalOf(sold.lines) == 320
      && returned.status == Ok && returned.db.products[productId].stock == 8
      && returned.db.salesReturns[sold.db.nextSalesReturnId].refundAmount == 160
  {
    BuyTen(db, productId, supplierId);
    var bought := PostPurchase(db, Some(productId), Some(supplierId), Some(10));
    SellFour(bought.db, productId);
    var sold := Checkout.PostSales(bought.db, Some([SaleItem(Some(productId), Given(4))]));
    ReturnTwo(sold.db, db.nextSaleId);
  }
}

/** The server's tables as mutable state. Each handler is a method that reads rows,
    checks the request and writes rows back in the order the route does; its contract
    ties the status and the new tables to the handler's function in `Handlers` (or
    `Checkout` for POST /sales) and keeps `Valid()`. */
module Server {
  import opened Http
  import opened ProductModel
  import opened SalesModel
  import opened PurchasesModel
  import opened SalesReturnsModel
  import opened PurchaseReturnsModel
  import opened SupplierModel
  import opened Handlers
  import opened Checkout

  class Store {
    var products: map<int, Product>
    var nextProductId: int
    var suppliers: map<int, Supplier>
    var nextSupplierId: int
    var sales: map<int, Sale>
    var nextSaleId: int
    var purchases: map<int, Purchase>
    var nextPurchaseId: int
    var salesReturns: map<int, SalesReturn>
    var nextSalesReturnId: int
    var purchaseReturns: map<int, PurchaseReturn>
    var nextPurchaseReturnId: int
    var company: Option<Company>

    /** The content of every table now. */
    function Snapshot(): Db
      reads this
    {
      Db(products, nextProductId, suppliers, nextSupplierId, sales, nextSaleId, purchases, nextPurchaseId,
         salesReturns, nextSalesReturnId, purchaseReturns, nextPurchaseReturnId, company)
    }

    ghost predicate Valid()
      reads this
    {
      Consistent(Snapshot())
    }

    /** A fresh database: every table empty, every auto-increment counter at 1, no company. */
    constructor ()
      ensures Valid()
      ensures Snapshot() == Empty()
    {
      products, nextProductId := map[], 1;
      suppliers, nextSupplierId := map[], 1;
      sales, nextSaleId := map[], 1;
      purchases, nextPurchaseId := map[], 1;
      salesReturns, nextSalesReturnId := map[], 1;
      purchaseReturns, nextPurchaseReturnId := map[], 1;
      company := None;
    }

    /** POST /setup with the company name stored in its `companyName` column, as
        `Handlers.Setup` corrects it; the route as written is `Handlers.SetupAsWritten`. */
    method Setup(companyName: Option<string>, secretKey: Option<string>) returns (status: Status)
      modifies this
      ensures Reply(status, Snapshot()) == Handlers.Setup(old(Snapshot()), companyName, secretKey)
      ensures old(Valid()) ==> Valid()
    {
      if company.Some? {
        return BadRequest;
      }
      if !TruthyText(companyName) || !TruthyText(secretKey) {
        return BadRequest;
      }
      company := CreateCompany(companyName, secretKey);
      return Ok;
    }

    /** POST /login reads the Companies row and changes nothing. */
    method Login(secretKey: Option<string>) returns (status: Status)
      ensures status == Handlers.Login(Snapshot(), secretKey)
      ensures status == Ok <==> company.Some? && secretKey == Some(company.value.secretKey)
    {
      if company.None? {
        return NotFound;
      }
      if secretKey != Some(company.value.secretKey) {
        return Unauthorized;
      }
      return Ok;
    }

    method PostProduct(name: Option<string>, stock: Option<int>) returns (status: Status)
      modifies this
      ensures Reply(status, Snapshot()) == Handlers.PostProduct(old(Snapshot()), name, stock)
      ensures old(Valid()) ==> Valid()
    {
      if !TruthyText(name) {
        return BadRequest;
      }
      var product := ProductModel.Create(name, Some(0), Some(0), Some(OrZero(stock))).value;
      if ProductModel.NameTaken(products, product.name) {
        return ServerError;
      }
      products := products[nextProductId := product];
      nextProductId := nextProductId + 1;
      return Ok;
    }

    /** DELETE /products/:id; on 400 it also answers with the rows that name the product. */
    method DeleteProduct(id: int) returns (status: Status, related: Related)
      modifies this
      ensures Reply(status, Snapshot()) == Handlers.DeleteProduct(old(Snapshot()), id)
      ensures status == BadRequest ==> related == RelatedTo(old(Snapshot()), id) && !related.IsEmpty()
      ensures old(Valid()) ==> Valid()
    {
      related := Related(map[], map[], map[], map[]);
      if id !in products {
        return NotFound, related;
      }
      related := RelatedTo(Snapshot(), id);
      RelatedEmptyIffUnused(Snapshot(), id);
      if !related.IsEmpty() {
        return BadRequest, related;
      }
      products := products - {id};
      return Ok, related;
    }

    method PutStockPrices(id: int, stock: Option<int>, purchasePrice: Option<int>, sellingPrice: Option<int>)
      returns (status: Status)
      modifies this
      ensures Reply(status, Snapshot()) == Handlers.PutStockPrices(old(Snapshot()), id, stock, purchasePrice, sellingPrice)
      ensures old(Valid()) ==> Valid()
    {
      if id !in products {
        return NotFound;
      }
      if stock.None? || purchasePrice.None? || sellingPrice.None? {
        return ServerError;
      }
      var product := products[id];
      products := products[id := product.(stock := stock.value, purchasePrice := purchasePrice.value,
                                          sellingPrice := sellingPrice.value)];
      return Ok;
    }

    method PostSupplier(name: Option<string>, contact: Option<string>, address: Option<string>)
      returns (status: Status)
      modifies this
      ensures Reply(status, Snapshot()) == Handlers.PostSupplier(old(Snapshot()), name, contact, address)
      ensures old(Valid()) ==> Valid()
    {
      var created := SupplierModel.Create(name, contact, address);
      if created.None? || SupplierModel.NameTaken(suppliers, created.value.name) {
        return ServerError;
      }
      suppliers := suppliers[nextSupplierId := created.value];
      nextSupplierId := nextSupplierId + 1;
      return Ok;
    }

    /** One pass of the POST /sales loop: reads the item's product, checks it, writes the
        Sale row and saves the lowered stock. A refused item changes nothing. */
    method SellOne(item: SaleItem) returns (refusal: Option<Status>, line: ReceiptLine)
      modifies this
      ensures match SellItem(old(Snapshot()), item)
        case Refused(status) => refusal == Some(status) && Snapshot() == old(Snapshot())
        case Sold(db, sold) => refusal == None && Snapshot() == db && line == sold
    {
      line := ReceiptLine("", 0, 0, 0);
      if item.productId.None? || item.productId.value !in products {
        return Some(NotFound), line;
      }
      var productId := item.productId.value;
      var product := products[productId];
      if product.sellingPrice <= 0 {
        return Some(BadRequest), line;
      }
      // `product.stock < quantity`, where a missing quantity compares false and a null one as 0
      var short := match item.quantity
        case Missing => false
        case Null => product.stock < 0
        case Given(q) => product.stock < q;
      if short {
        return Some(BadRequest), line;
      }
      if !item.quantity.Given? {
        return Some(ServerError), line;
      }
      var quantity := item.quantity.value;
      var itemTotal := quantity * product.sellingPrice;
      var created := SalesModel.Create(Some(productId), Some(product.name), Some(quantity),
                                       Some(product.sellingPrice), Some(itemTotal));
      if created.None? {
        return Some(ServerError), line;
      }
      sales := sales[nextSaleId := created.value];
      nextSaleId := nextSaleId + 1;
      products := products[productId := product.(stock := product.stock - quantity)];
      line := ReceiptLine(product.name, quantity, product.sellingPrice, itemTotal);
      return None, line;
    }

    /** POST /sales: the loop over `items`, adding up the receipt total. A refused item
        returns at once and what earlier passes wrote stays. */
    method PostSales(items: Option<seq<SaleItem>>) returns (status: Status, receipt: Option<Receipt>)
      modifies this
      ensures var r := Checkout.PostSales(old(Snapshot()), items);
        && status == r.status
        && Snapshot() == r.db
        && (status == Ok <==> receipt.Some?)
        && (receipt.Some? ==> receipt.value == Receipt(r.lines, TotalOf(r.lines)))
      ensures old(Valid()) ==> Valid()
    {
      if items.None? || items.value == [] {
        return BadRequest, None;
      }
      var xs := items.value;
      var totalAmount := 0;
      var receiptItems: seq<ReceiptLine> := [];
      for i := 0 to |xs|
        invariant totalAmount == TotalOf(receiptItems)
        invariant ProcessItems(old(Snapshot()), xs[..i]) == Outcome(Ok, Snapshot(), receiptItems)
      {
        ghost var before := Snapshot();
        var refusal, line := SellOne(xs[i]);
        if refusal.Some? {
          NoRollback(old(Snapshot()), xs, i);
          return refusal.value, None;
        }
        totalAmount := totalAmount + line.total;
        TotalOfAppend(receiptItems, line);
        ProcessItemsExtend(old(Snapshot()), xs, i, before, receiptItems);
        receiptItems := receiptItems + [line];
      }
      assert xs[..|xs|] == xs;
      return Ok, Some(Receipt(receiptItems, totalAmount));
    }

    method DeleteSale(id: int) returns (status: Status)
      modifies this
      ensures Reply(status, Snapshot()) == Handlers.DeleteSale(old(Snapshot()), id)
      ensures old(Valid()) ==> Valid()
    {
      if id !in sales {
        return NotFound;
      }
      salesReturns := map rid | rid in salesReturns && salesReturns[rid].saleId != id :: salesReturns[rid];
      sales := sales - {id};
      return Ok;
    }

    /** PUT /sales/:id: the stock of the requested product is saved before the sale row is
        validated, so a refused row leaves the stock moved. */
    method PutSale(id: int, productId: Option<int>, quantity: Option<int>, storedTotal: int) returns (status: Status)
      modifies this
      ensures Reply(status, Snapshot()) == Handlers.PutSale(old(Snapshot()), id, productId, quantity, storedTotal)
      ensures old(Valid()) ==> Valid()
    {
      if !Truthy(productId) || !Truthy(quantity) {
        return BadRequest;
      }
      if id !in sales {
        return NotFound;
      }
      var sale := sales[id];
      if productId.value !in products {
        return NotFound;
      }
      var product := products[productId.value];
      var quantityDifference := quantity.value - sale.quantity;
      products := products[productId.value := product.(stock := product.stock - quantityDifference)];
      var updated := sale.(productId := productId.value, productName := product.name, quantity := quantity.value,
                           totalAmount := storedTotal);
      if !SalesModel.Valid(updated) {
        return ServerError;
      }
      sales := sales[id := updated];
      return Ok;
    }

    method PostPurchase(productId: Option<int>, supplierId: Option<int>, quantity: Option<int>) returns (status: Status)
      modifies this
      ensures Reply(status, Snapshot()) == Handlers.PostPurchase(old(Snapshot()), productId, supplierId, quantity)
      ensures old(Valid()) ==> Valid()
    {
      ghost var spec := Handlers.PostPurchase(Snapshot(), productId, supplierId, quantity);
      if !Truthy(productId) || !Truthy(supplierId) || !Truthy(quantity) {
        return BadRequest;
      }
      if productId.value !in products {
        return NotFound;
      }
      var product := products[productId.value];
      if supplierId.value !in suppliers {
        return NotFound;
      }
      var newQuantity := quantity.value;
      if newQuantity <= 0 {
        return BadRequest;
      }
      var totalAmount := newQuantity * product.purchasePrice;
      var purchase := PurchasesModel.Create(productId, supplierId, Some(newQuantity), Some(product.purchasePrice),
                                            Some(totalAmount)).value;
      purchases := purchases[nextPurchaseId := purchase];
      nextPurchaseId := nextPurchaseId + 1;
      products := products[productId.value := product.(stock := product.stock + newQuantity)];
      assert Snapshot() == spec.db;
      return Ok;
    }

    method DeletePurchase(id: int) returns (status: Status)
      modifies this
      ensures Reply(status, Snapshot()) == Handlers.DeletePurchase(old(Snapshot()), id)
      ensures old(Valid()) ==> Valid()
    {
      if id !in purchases {
        return NotFound;
      }
      purchases := purchases - {id};
      return Ok;
    }

    /** POST /sales-returns: the return row is written first, then the sold product's stock
        grows by the returned quantity. */
    method PostSalesReturn(saleId: Option<int>, returnQuantity: Option<int>, reason: Option<string>)
      returns (status: Status)
      modifies this
      ensures Reply(status, Snapshot()) == Handlers.PostSalesReturn(old(Snapshot()), saleId, returnQuantity, reason)
      ensures old(Valid()) ==> Valid()
    {
      if !Truthy(saleId) || !Truthy(returnQuantity) || !TruthyText(reason) {
        return BadRequest;
      }
      if saleId.value !in sales {
        return NotFound;
      }
      var sale := sales[saleId.value];
      var returnQty := returnQuantity.value;
      if returnQty <= 0 || returnQty > sale.quantity {
        return BadRequest;
      }
      var refundAmount := returnQty * sale.sellingPricePerUnit;
      var salesReturn := SalesReturnsModel.Create(saleId, Some(sale.productId), Some(returnQty), Some(refundAmount)).value;
      salesReturns := salesReturns[nextSalesReturnId := salesReturn];
      nextSalesReturnId := nextSalesReturnId + 1;
      if sale.productId !in products {
        // `sale.Product` is null: the stock update throws after the row was created
        return ServerError;
      }
      var product := products[sale.productId];
      products := products[sale.productId := product.(stock := product.stock + returnQty)];
      return Ok;
    }

    method DeleteSalesReturn(id: int) returns (status: Status)
      modifies this
      ensures Reply(status, Snapshot()) == Handlers.DeleteSalesReturn(old(Snapshot()), id)
      ensures old(Valid()) ==> Valid()
    {
      if id !in salesReturns {
        return NotFound;
      }
      var salesReturn := salesReturns[id];
      if salesReturn.productId in products {
        var product := products[salesReturn.productId];
        products := products[salesReturn.productId := product.(stock := product.stock - salesReturn.quantity)];
      }
      salesReturns := salesReturns - {id};
      return Ok;
    }

    /** PUT /sales-returns/:id: the stock moves by the change in quantity and is saved before
        the row's new values are validated. */
    method PutSalesReturn(id: int, quantity: int, refundAmount: Option<int>) returns (status: Status)
      modifies this
      ensures Reply(status, Snapshot()) == Handlers.PutSalesReturn(old(Snapshot()), id, quantity, refundAmount)
      ensures old(Valid()) ==> Valid()
    {
      if id !in salesReturns {
        return NotFound;
      }
      var salesReturn := salesReturns[id];
      if salesReturn.productId in products {
        var product := products[salesReturn.productId];
        products := products[salesReturn.productId := product.(stock := product.stock - salesReturn.quantity + quantity)];
      }
      var updated := SalesReturnsModel.Assign(salesReturn, quantity, refundAmount);
      if updated.None? {
        return ServerError;
      }
      salesReturns := salesReturns[id := updated.value];
      return Ok;
    }

    method PostPurchaseReturn(purchaseId: Option<int>, productId: Option<int>, quantity: Option<int>,
                              refundAmount: Option<int>, reason: Option<string>) returns (status: Status)
      modifies this
      ensures Reply(status, Snapshot()) ==
              Handlers.PostPurchaseReturn(old(Snapshot()), purchaseId, productId, quantity, refundAmount, reason)
      ensures old(Valid()) ==> Valid()
    {
      ghost var spec := Handlers.PostPurchaseReturn(Snapshot(), purchaseId, productId, quantity, refundAmount, reason);
      if !Truthy(purchaseId) || !Truthy(productId) || !Truthy(quantity) || !Truthy(refundAmount) || !TruthyText(reason) {
        return BadRequest;
      }
      if refundAmount.value <= 0 {
        return BadRequest;
      }
      if purchaseId.value !in purchases {
        return NotFound;
      }
      var purchase := purchases[purchaseId.value];
      if productId.value !in products {
        return NotFound;
      }
      var product := products[productId.value];
      if quantity.value > purchase.quantity {
        return BadRequest;
      }
      var created := PurchaseReturnsModel.Create(purchaseId, productId, quantity, reason, refundAmount);
      if created.None? {
        return ServerError;
      }
      purchaseReturns := purchaseReturns[nextPurchaseReturnId := created.value];
      nextPurchaseReturnId := nextPurchaseReturnId + 1;
      products := products[productId.value := product.(stock := product.stock - quantity.value)];
      assert Snapshot() == spec.db;
      return Ok;
    }

    method PutPurchaseReturn(id: int, quantity: Option<int>, refundAmount: Option<int>, reason: Option<string>)
      returns (status: Status)
      modifies this
      ensures Reply(status, Snapshot()) == Handlers.PutPurchaseReturn(old(Snapshot()), id, quantity, refundAmount, reason)
      ensures old(Valid()) ==> Valid()
    {
      if id !in purchaseReturns {
        return NotFound;
      }
      var updated := PurchaseReturnsModel.Assign(purchaseReturns[id], quantity, refundAmount, reason);
      if updated.None? {
        return ServerError;
      }
      purchaseReturns := purchaseReturns[id := updated.value];
      return Ok;
    }

    method DeletePurchaseReturn(id: int) returns (status: Status)
      modifies this
      ensures Reply(status, Snapshot()) == Handlers.DeletePurchaseReturn(old(Snapshot()), id)
      ensures old(Valid()) ==> Valid()
    {
      if id !in purchaseReturns {
        return NotFound;
      }
      purchaseReturns := purchaseReturns - {id};
      return Ok;
    }
  }
}

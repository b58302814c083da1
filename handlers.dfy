/** The transaction engine of the POS backend as pure functions. `Db` is the content
    of all tables at one moment; each handler maps a `Db` and the parsed request fields
    to a `Reply`: the HTTP status and the `Db` after the handler's writes. A handler
    that fails after a write has been saved (there is no transaction) returns the
    failing status together with the partly written `Db`. */
module Handlers {
  import opened Http
  import opened ProductModel
  import opened SalesModel
  import opened PurchasesModel
  import opened SalesReturnsModel
  import opened PurchaseReturnsModel
  import opened SupplierModel

  /** The single Companies row: shop name and the shared secret key. */
  datatype Company = Company(companyName: string, secretKey: string)

  /** Every table, keyed by primary key, and each table's AUTO_INCREMENT counter. */
  datatype Db = Db(
    products: map<int, Product>, nextProductId: int,
    suppliers: map<int, Supplier>, nextSupplierId: int,
    sales: map<int, Sale>, nextSaleId: int,
    purchases: map<int, Purchase>, nextPurchaseId: int,
    salesReturns: map<int, SalesReturn>, nextSalesReturnId: int,
    purchaseReturns: map<int, PurchaseReturn>, nextPurchaseReturnId: int,
    company: Option<Company>)

  datatype Reply = Reply(status: Status, db: Db)

  /** Freshly synced, empty tables. */
  function Empty(): (db: Db)
    ensures Consistent(db)
  {
    Db(map[], 1, map[], 1, map[], 1, map[], 1, map[], 1, map[], 1, None)
  }

  // ---------------------------------------------------------------------------
  // The invariant every handler keeps

  /** AUTO_INCREMENT keys start at 1 and stay below the table's counter. */
  predicate KeysBelow<T>(m: map<int, T>, next: int) {
    next >= 1 && forall id | id in m :: 1 <= id < next
  }

  /** An INSERT takes the counter's value, which no row holds yet, and advances the counter. */
  lemma InsertBelow<T>(m: map<int, T>, next: int, row: T)
    requires KeysBelow(m, next)
    ensures next !in m && KeysBelow(m[next := row], next + 1)
  {
  }

  predicate KeysFresh(db: Db) {
    && KeysBelow(db.products, db.nextProductId)
    && KeysBelow(db.suppliers, db.nextSupplierId)
    && KeysBelow(db.sales, db.nextSaleId)
    && KeysBelow(db.purchases, db.nextPurchaseId)
    && KeysBelow(db.salesReturns, db.nextSalesReturnId)
    && KeysBelow(db.purchaseReturns, db.nextPurchaseReturnId)
  }

  /** Every stored row passed its model's validators. */
  predicate RowsValid(db: Db) {
    && (forall id | id in db.suppliers :: SupplierModel.Valid(db.suppliers[id]))
    && (forall id | id in db.sales :: SalesModel.Valid(db.sales[id]))
    && (forall id | id in db.purchases :: PurchasesModel.Valid(db.purchases[id]))
    && (forall id | id in db.salesReturns :: SalesReturnsModel.Valid(db.salesReturns[id]))
    && (forall id | id in db.purchaseReturns :: PurchaseReturnsModel.Valid(db.purchaseReturns[id]))
  }

  /** Every transaction row names a product that exists. */
  predicate ProductsReferenced(db: Db) {
    && (forall id | id in db.sales :: db.sales[id].productId in db.products)
    && (forall id | id in db.purchases :: db.purchases[id].productId in db.products)
    && (forall id | id in db.salesReturns :: db.salesReturns[id].productId in db.products)
    && (forall id | id in db.purchaseReturns :: db.purchaseReturns[id].productId in db.products)
  }

  /** Every purchase names a supplier that exists (the `supplierId` foreign key). */
  predicate SuppliersReferenced(db: Db) {
    forall id | id in db.purchases :: db.purchases[id].supplierId in db.suppliers
  }

  /** The invariant of the tables: fresh keys, unique names, valid rows, and no
      transaction row pointing at a missing product or supplier. */
  predicate Consistent(db: Db) {
    && KeysFresh(db)
    && ProductModel.NamesUnique(db.products)
    && SupplierModel.NamesUnique(db.suppliers)
    && RowsValid(db)
    && ProductsReferenced(db)
    && SuppliersReferenced(db)
  }

  // ---------------------------------------------------------------------------
  // Stock movements

  /** `product.stock += delta; product.save()` on the product `productId`, when it exists. */
  function AdjustStock(products: map<int, Product>, productId: int, delta: int): (r: map<int, Product>)
    ensures r.Keys == products.Keys
    ensures forall id | id in products && id != productId :: r[id] == products[id]
    ensures productId in products ==> r[productId] == products[productId].(stock := products[productId].stock + delta)
  {
    if productId in products then
      products[productId := products[productId].(stock := products[productId].stock + delta)]
    else products
  }

  /** Two movements of one product's stock add up. */
  lemma AdjustStockTwice(products: map<int, Product>, productId: int, a: int, b: int)
    ensures AdjustStock(AdjustStock(products, productId, a), productId, b) == AdjustStock(products, productId, a + b)
  {
    var lhs := AdjustStock(AdjustStock(products, productId, a), productId, b);
    var rhs := AdjustStock(products, productId, a + b);
    assert lhs.Keys == rhs.Keys;
    forall id | id in lhs ensures lhs[id] == rhs[id] {
    }
  }

  /** A movement by zero changes nothing. */
  lemma AdjustStockZero(products: map<int, Product>, productId: int)
    ensures AdjustStock(products, productId, 0) == products
  {
    if productId in products {
      assert products[productId].(stock := products[productId].stock + 0) == products[productId];
    }
  }

  /** Stock movements never touch names, so they keep names unique and keep the set of products. */
  lemma AdjustStockKeepsNames(products: map<int, Product>, productId: int, delta: int)
    requires ProductModel.NamesUnique(products)
    ensures ProductModel.NamesUnique(AdjustStock(products, productId, delta))
  {
    if productId in products {
      RenameFreeUpdateKeepsNamesUnique(products, productId, products[productId].(stock := products[productId].stock + delta));
    }
  }

  // ---------------------------------------------------------------------------
  // Products: POST /products, DELETE /products/:id, PUT /stock-prices/:id

  /** POST /products: a name is required; the new row has the given stock (0 when it is
      absent or 0) and both prices at 0; a taken name makes the INSERT fail. */
  function PostProduct(db: Db, name: Option<string>, stock: Option<int>): (r: Reply)
    ensures !TruthyText(name) ==> r == Reply(BadRequest, db)
    ensures r.status == Ok <==> TruthyText(name) && !ProductModel.NameTaken(db.products, name.value)
    ensures TruthyText(name) && ProductModel.NameTaken(db.products, name.value) ==> r == Reply(ServerError, db)
    ensures r.status != Ok ==> r.db == db
    ensures r.status == Ok ==>
      r.db == db.(products := db.products[db.nextProductId := Product(name.value, 0, 0, OrZero(stock))],
                  nextProductId := db.nextProductId + 1)
    ensures Consistent(db) ==> Consistent(r.db)
  {
    if !TruthyText(name) then Reply(BadRequest, db)
    else match ProductModel.Create(name, Some(0), Some(0), Some(OrZero(stock)))
      case None => Reply(ServerError, db)
      case Some(p) =>
        if ProductModel.NameTaken(db.products, p.name) then Reply(ServerError, db)
        else
          var db' := db.(products := db.products[db.nextProductId := p], nextProductId := db.nextProductId + 1);
          assert Consistent(db) ==> Consistent(db') by {
            if Consistent(db) {
              InsertBelow(db.products, db.nextProductId, p);
              ProductModel.InsertKeepsNamesUnique(db.products, db.nextProductId, p);
            }
          }
          Reply(Ok, db')
  }

  /** The rows that refer to one product; DELETE /products/:id sends them back with its 400. */
  datatype Related = Related(sales: map<int, Sale>, salesReturns: map<int, SalesReturn>,
                             purchases: map<int, Purchase>, purchaseReturns: map<int, PurchaseReturn>)
  {
    predicate IsEmpty() {
      sales == map[] && salesReturns == map[] && purchases == map[] && purchaseReturns == map[]
    }
  }

  /** The four `findAll({ where: { productId } })` queries of the delete guard. */
  function RelatedTo(db: Db, productId: int): (r: Related)
    ensures forall id :: id in r.sales <==> id in db.sales && db.sales[id].productId == productId
    ensures forall id :: id in r.salesReturns <==> id in db.salesReturns && db.salesReturns[id].productId == productId
    ensures forall id :: id in r.purchases <==> id in db.purchases && db.purchases[id].productId == productId
    ensures forall id :: id in r.purchaseReturns <==>
      id in db.purchaseReturns && db.purchaseReturns[id].productId == productId
    ensures forall id | id in r.sales :: r.sales[id] == db.sales[id]
    ensures forall id | id in r.salesReturns :: r.salesReturns[id] == db.salesReturns[id]
    ensures forall id | id in r.purchases :: r.purchases[id] == db.purchases[id]
    ensures forall id | id in r.purchaseReturns :: r.purchaseReturns[id] == db.purchaseReturns[id]
  {
    Related(
      map id | id in db.sales && db.sales[id].productId == productId :: db.sales[id],
      map id | id in db.salesReturns && db.salesReturns[id].productId == productId :: db.salesReturns[id],
      map id | id in db.purchases && db.purchases[id].productId == productId :: db.purchases[id],
      map id | id in db.purchaseReturns && db.purchaseReturns[id].productId == productId :: db.purchaseReturns[id])
  }

  /** Some Sale, SalesReturn, Purchase or PurchaseReturn row names the product. */
  predicate InUse(db: Db, productId: int) {
    || (exists id | id in db.sales :: db.sales[id].productId == productId)
    || (exists id | id in db.salesReturns :: db.salesReturns[id].productId == productId)
    || (exists id | id in db.purchases :: db.purchases[id].productId == productId)
    || (exists id | id in db.purchaseReturns :: db.purchaseReturns[id].productId == productId)
  }

  /** The related-record payload is empty exactly when no row names the product. */
  lemma RelatedEmptyIffUnused(db: Db, productId: int)
    ensures RelatedTo(db, productId).IsEmpty() <==> !InUse(db, productId)
  {
    var rel := RelatedTo(db, productId);
    if id :| id in db.sales && db.sales[id].productId == productId {
      assert id in rel.sales;
    } else if id :| id in db.salesReturns && db.salesReturns[id].productId == productId {
      assert id in rel.salesReturns;
    } else if id :| id in db.purchases && db.purchases[id].productId == productId {
      assert id in rel.purchases;
    } else if id :| id in db.purchaseReturns && db.purchaseReturns[id].productId == productId {
      assert id in rel.purchaseReturns;
    } else {
      assert forall k :: k !in rel.sales;
      assert forall k :: k !in rel.salesReturns;
      assert forall k :: k !in rel.purchases;
      assert forall k :: k !in rel.purchaseReturns;
      assert rel.sales == map[];
      assert rel.salesReturns == map[];
      assert rel.purchases == map[];
      assert rel.purchaseReturns == map[];
    }
  }

  /** DELETE /products/:id: 404 for a missing product; 400 with nothing removed while any
      transaction row names it; otherwise exactly that product is removed. */
  function DeleteProduct(db: Db, id: int): (r: Reply)
    ensures r.status == NotFound <==> id !in db.products
    ensures r.status == BadRequest <==> id in db.products && InUse(db, id)
    ensures r.status == Ok <==> id in db.products && !InUse(db, id)
    ensures r.status == Ok ==> r.db == db.(products := db.products - {id})
    ensures r.status != Ok ==> r.db == db
    ensures Consistent(db) ==> Consistent(r.db)
  {
    if id !in db.products then Reply(NotFound, db)
    else
      RelatedEmptyIffUnused(db, id);
      if !RelatedTo(db, id).IsEmpty() then Reply(BadRequest, db)
      else Reply(Ok, db.(products := db.products - {id}))
  }

  /** PUT /stock-prices/:id: overwrites stock and both prices of an existing product with
      no check against its history; an absent field is a NOT NULL violation on save. */
  function PutStockPrices(db: Db, id: int, stock: Option<int>, purchasePrice: Option<int>,
                          sellingPrice: Option<int>): (r: Reply)
    ensures id !in db.products ==> r == Reply(NotFound, db)
    ensures r.status == Ok <==> id in db.products && stock.Some? && purchasePrice.Some? && sellingPrice.Some?
    ensures id in db.products && (stock.None? || purchasePrice.None? || sellingPrice.None?)
            ==> r == Reply(ServerError, db)
    ensures r.status == Ok ==>
      r.db == db.(products := db.products[id := Product(db.products[id].name, purchasePrice.value,
                                                        sellingPrice.value, stock.value)])
    ensures r.status != Ok ==> r.db == db
    ensures Consistent(db) ==> Consistent(r.db)
  {
    if id !in db.products then Reply(NotFound, db)
    else if stock.None? || purchasePrice.None? || sellingPrice.None? then Reply(ServerError, db)
    else
      var p := db.products[id].(stock := stock.value, purchasePrice := purchasePrice.value,
                                sellingPrice := sellingPrice.value);
      var db' := db.(products := db.products[id := p]);
      assert Consistent(db) ==> Consistent(db') by {
        if Consistent(db) { RenameFreeUpdateKeepsNamesUnique(db.products, id, p); }
      }
      Reply(Ok, db')
  }

  // ---------------------------------------------------------------------------
  // Suppliers: POST /suppliers

  /** POST /suppliers: no checks of its own; the model's validators and the UNIQUE name
      decide whether the INSERT succeeds. */
  function PostSupplier(db: Db, name: Option<string>, contact: Option<string>,
                        address: Option<string>): (r: Reply)
    ensures r.status == Ok <==>
      name.Some? && contact.Some? && address.Some?
      && SupplierModel.Valid(Supplier(name.value, contact.value, address.value))
      && !SupplierModel.NameTaken(db.suppliers, name.value)
    ensures r.status != Ok ==> r == Reply(ServerError, db)
    ensures r.status == Ok ==>
      r.db == db.(suppliers := db.suppliers[db.nextSupplierId := Supplier(name.value, contact.value, address.value)],
                  nextSupplierId := db.nextSupplierId + 1)
    ensures Consistent(db) ==> Consistent(r.db)
  {
    match SupplierModel.Create(name, contact, address)
    case None => Reply(ServerError, db)
    case Some(s) =>
      if SupplierModel.NameTaken(db.suppliers, s.name) then Reply(ServerError, db)
      else
        var db' := db.(suppliers := db.suppliers[db.nextSupplierId := s], nextSupplierId := db.nextSupplierId + 1);
        assert Consistent(db) ==> Consistent(db') by {
          if Consistent(db) {
            InsertBelow(db.suppliers, db.nextSupplierId, s);
            SupplierModel.InsertKeepsNamesUnique(db.suppliers, db.nextSupplierId, s);
          }
        }
        Reply(Ok, db')
  }

  // ---------------------------------------------------------------------------
  // Sales: DELETE /sales/:id, PUT /sales/:id (POST /sales is in module Checkout)

  /** `SalesReturns.destroy({ where: { saleId } })`: the rows of other sales, unchanged. */
  function ReturnsNotOf(rows: map<int, SalesReturn>, saleId: int): (kept: map<int, SalesReturn>)
    ensures forall rid :: rid in kept <==> rid in rows && rows[rid].saleId != saleId
    ensures forall rid | rid in kept :: kept[rid] == rows[rid]
  {
    map rid | rid in rows && rows[rid].saleId != saleId :: rows[rid]
  }

  /** DELETE /sales/:id: removes every SalesReturn of the sale, then the sale; no stock moves. */
  function DeleteSale(db: Db, id: int): (r: Reply)
    ensures r.status == Ok <==> id in db.sales
    ensures r.status != Ok ==> r == Reply(NotFound, db)
    ensures r.db.products == db.products
    ensures r.status == Ok ==> r.db.sales == db.sales - {id}
    ensures r.status == Ok ==> forall rid ::
      rid in r.db.salesReturns <==> rid in db.salesReturns && db.salesReturns[rid].saleId != id
    ensures r.status == Ok ==> forall rid | rid in r.db.salesReturns :: r.db.salesReturns[rid] == db.salesReturns[rid]
    ensures r.db == db.(sales := r.db.sales, salesReturns := r.db.salesReturns)
    ensures Consistent(db) ==> Consistent(r.db)
  {
    if id !in db.sales then Reply(NotFound, db)
    else
      Reply(Ok, db.(salesReturns := ReturnsNotOf(db.salesReturns, id), sales := db.sales - {id}))
  }

  /** PUT /sales/:id: moves the stock of the REQUESTED product by `-(quantity - sale.quantity)`
      and saves it before the sale row is validated, so a quantity below 1 leaves the stock
      moved and the sale unchanged (500). `storedTotal` is whatever the database keeps for
      the total, which the source computes from a price field Product does not have. */
  function PutSale(db: Db, id: int, productId: Option<int>, quantity: Option<int>, storedTotal: int): (r: Reply)
    ensures !Truthy(productId) || !Truthy(quantity) ==> r == Reply(BadRequest, db)
    ensures Truthy(productId) && Truthy(quantity) && (id !in db.sales || productId.value !in db.products)
            ==> r == Reply(NotFound, db)
    ensures Truthy(productId) && Truthy(quantity) && id in db.sales && productId.value in db.products ==>
      var sale := db.sales[id];
      var p := db.products[productId.value];
      && r.db.products == AdjustStock(db.products, productId.value, -(quantity.value - sale.quantity))
      && (r.status == Ok <==> quantity.value >= 1)
      && (r.status == Ok ==> r.db.sales == db.sales[id := Sale(productId.value, p.name, quantity.value,
                                                                sale.sellingPricePerUnit, storedTotal)])
      && (r.status != Ok ==> r.status == ServerError && r.db.sales == db.sales)
    ensures r.db == db.(products := r.db.products, sales := r.db.sales)
    ensures Consistent(db) ==> Consistent(r.db)
  {
    if !Truthy(productId) || !Truthy(quantity) then Reply(BadRequest, db)
    else if id !in db.sales then Reply(NotFound, db)
    else if productId.value !in db.products then Reply(NotFound, db)
    else
      var sale := db.sales[id];
      var pid := productId.value;
      var p := db.products[pid];
      var products' := AdjustStock(db.products, pid, -(quantity.value - sale.quantity));
      var sale' := sale.(productId := pid, productName := p.name, quantity := quantity.value,
                         totalAmount := storedTotal);
      assert Consistent(db) ==> ProductModel.NamesUnique(products') by {
        if Consistent(db) { AdjustStockKeepsNames(db.products, pid, -(quantity.value - sale.quantity)); }
      }
      if SalesModel.Valid(sale') then Reply(Ok, db.(products := products', sales := db.sales[id := sale']))
      else Reply(ServerError, db.(products := products'))
  }

  // ---------------------------------------------------------------------------
  // Purchases: POST /purchases, DELETE /purchases/:id

  /** POST /purchases: all three fields required (400); product, then supplier must exist
      (404); the quantity must be positive (400). The row snapshots the product's current
      purchase price and the stock grows by the quantity. */
  function PostPurchase(db: Db, productId: Option<int>, supplierId: Option<int>, quantity: Option<int>): (r: Reply)
    ensures !Truthy(productId) || !Truthy(supplierId) || !Truthy(quantity) ==> r == Reply(BadRequest, db)
    ensures r.status == NotFound <==>
      Truthy(productId) && Truthy(supplierId) && Truthy(quantity)
      && (productId.value !in db.products || supplierId.value !in db.suppliers)
    ensures r.status == BadRequest <==>
      || !Truthy(productId) || !Truthy(supplierId) || !Truthy(quantity)
      || (productId.value in db.products && supplierId.value in db.suppliers && quantity.value <= 0)
    ensures r.status != ServerError
    ensures r.status == Ok <==>
      Truthy(productId) && Truthy(supplierId) && Truthy(quantity) && quantity.value > 0
      && productId.value in db.products && supplierId.value in db.suppliers
    ensures r.status != Ok ==> r.db == db
    ensures r.status == Ok ==>
      var p := db.products[productId.value];
      var q := quantity.value;
      r.db == db.(purchases := db.purchases[db.nextPurchaseId := Purchase(productId.value, supplierId.value, q,
                                                                          p.purchasePrice, q * p.purchasePrice)],
                  nextPurchaseId := db.nextPurchaseId + 1,
                  products := AdjustStock(db.products, productId.value, q))
    ensures Consistent(db) ==> Consistent(r.db)
  {
    if !Truthy(productId) || !Truthy(supplierId) || !Truthy(quantity) then Reply(BadRequest, db)
    else if productId.value !in db.products then Reply(NotFound, db)
    else if supplierId.value !in db.suppliers then Reply(NotFound, db)
    else if quantity.value <= 0 then Reply(BadRequest, db)
    else
      var p := db.products[productId.value];
      var q := quantity.value;
      match PurchasesModel.Create(productId, supplierId, Some(q), Some(p.purchasePrice), Some(q * p.purchasePrice))
      case None => Reply(ServerError, db)
      case Some(row) =>
        assert Consistent(db) ==> ProductModel.NamesUnique(AdjustStock(db.products, productId.value, q)) by {
          if Consistent(db) {
            AdjustStockKeepsNames(db.products, productId.value, q);
            InsertBelow(db.purchases, db.nextPurchaseId, row);
          }
        }
        Reply(Ok, db.(purchases := db.purchases[db.nextPurchaseId := row],
                      nextPurchaseId := db.nextPurchaseId + 1,
                      products := AdjustStock(db.products, productId.value, q)))
  }

  /** DELETE /purchases/:id: removes the row and leaves the stock it added in place. */
  function DeletePurchase(db: Db, id: int): (r: Reply)
    ensures r.status == Ok <==> id in db.purchases
    ensures r.status != Ok ==> r == Reply(NotFound, db)
    ensures r.status == Ok ==> r.db == db.(purchases := db.purchases - {id})
    ensures r.db.products == db.products
    ensures Consistent(db) ==> Consistent(r.db)
  {
    if id !in db.purchases then Reply(NotFound, db)
    else Reply(Ok, db.(purchases := db.purchases - {id}))
  }

  // ---------------------------------------------------------------------------
  // Sales returns: POST /sales-returns, DELETE /sales-returns/:id, PUT /sales-returns/:id

  /** POST /sales-returns: sale id, quantity and reason required (400); the sale must exist
      (404); `0 < quantity <= sale.quantity` (400). The refund is computed from the sale's
      unit price, the reason is not stored, and the sold product's stock grows by the
      quantity. Were the sale's product missing, the return row would already be written
      when the stock update fails (500); `Consistent` rules that out. */
  function PostSalesReturn(db: Db, saleId: Option<int>, returnQuantity: Option<int>, reason: Option<string>): (r: Reply)
    ensures !Truthy(saleId) || !Truthy(returnQuantity) || !TruthyText(reason) ==> r == Reply(BadRequest, db)
    ensures Truthy(saleId) && Truthy(returnQuantity) && TruthyText(reason) && saleId.value !in db.sales
            ==> r == Reply(NotFound, db)
    ensures Truthy(saleId) && Truthy(returnQuantity) && TruthyText(reason) && saleId.value in db.sales
            && (returnQuantity.value <= 0 || returnQuantity.value > db.sales[saleId.value].quantity)
            ==> r == Reply(BadRequest, db)
    ensures r.status == Ok <==>
      Truthy(saleId) && Truthy(returnQuantity) && TruthyText(reason) && saleId.value in db.sales
      && 0 < returnQuantity.value <= db.sales[saleId.value].quantity
      && db.sales[saleId.value].productId in db.products
    ensures r.status == Ok ==>
      var sale := db.sales[saleId.value];
      var q := returnQuantity.value;
      r.db == db.(salesReturns := db.salesReturns[db.nextSalesReturnId :=
                                                  SalesReturn(saleId.value, sale.productId, q, q * sale.sellingPricePerUnit)],
                  nextSalesReturnId := db.nextSalesReturnId + 1,
                  products := AdjustStock(db.products, sale.productId, q))
    ensures Consistent(db) && r.status != Ok ==> r.db == db
    ensures Consistent(db) ==> Consistent(r.db)
  {
    if !Truthy(saleId) || !Truthy(returnQuantity) || !TruthyText(reason) then Reply(BadRequest, db)
    else if saleId.value !in db.sales then Reply(NotFound, db)
    else
      var sale := db.sales[saleId.value];
      var q := returnQuantity.value;
      if q <= 0 || q > sale.quantity then Reply(BadRequest, db)
      else match SalesReturnsModel.Create(saleId, Some(sale.productId), Some(q), Some(q * sale.sellingPricePerUnit))
        case None => Reply(ServerError, db)
        case Some(row) =>
          var written := db.(salesReturns := db.salesReturns[db.nextSalesReturnId := row],
                             nextSalesReturnId := db.nextSalesReturnId + 1);
          if sale.productId in db.products then
            assert Consistent(db) ==> ProductModel.NamesUnique(AdjustStock(db.products, sale.productId, q)) by {
              if Consistent(db) {
                AdjustStockKeepsNames(db.products, sale.productId, q);
                InsertBelow(db.salesReturns, db.nextSalesReturnId, row);
              }
            }
            Reply(Ok, written.(products := AdjustStock(db.products, sale.productId, q)))
          else Reply(ServerError, written)
  }

  /** DELETE /sales-returns/:id: takes the returned quantity back out of the product's
      stock (when the product exists) and removes the row. */
  function DeleteSalesReturn(db: Db, id: int): (r: Reply)
    ensures r.status == Ok <==> id in db.salesReturns
    ensures r.status != Ok ==> r == Reply(NotFound, db)
    ensures r.status == Ok ==>
      var row := db.salesReturns[id];
      r.db == db.(salesReturns := db.salesReturns - {id},
                  products := AdjustStock(db.products, row.productId, -row.quantity))
    ensures Consistent(db) ==> Consistent(r.db)
  {
    if id !in db.salesReturns then Reply(NotFound, db)
    else
      var row := db.salesReturns[id];
      assert Consistent(db) ==> ProductModel.NamesUnique(AdjustStock(db.products, row.productId, -row.quantity)) by {
        if Consistent(db) { AdjustStockKeepsNames(db.products, row.productId, -row.quantity); }
      }
      Reply(Ok, db.(salesReturns := db.salesReturns - {id},
                    products := AdjustStock(db.products, row.productId, -row.quantity)))
  }

  /** PUT /sales-returns/:id: stock := stock - old quantity + new quantity, saved before the
      row is validated; an invalid quantity or an absent refund then fails the save (500)
      with the stock already moved. */
  function PutSalesReturn(db: Db, id: int, quantity: int, refundAmount: Option<int>): (r: Reply)
    ensures id !in db.salesReturns ==> r == Reply(NotFound, db)
    ensures id in db.salesReturns ==>
      var row := db.salesReturns[id];
      && r.db.products == AdjustStock(db.products, row.productId, quantity - row.quantity)
      && (r.status == Ok <==> quantity >= 1 && refundAmount.Some?)
      && (r.status == Ok ==> r.db.salesReturns == db.salesReturns[id := row.(quantity := quantity,
                                                                             refundAmount := refundAmount.value)])
      && (r.status != Ok ==> r.status == ServerError && r.db.salesReturns == db.salesReturns)
    ensures r.db == db.(products := r.db.products, salesReturns := r.db.salesReturns)
    ensures Consistent(db) ==> Consistent(r.db)
  {
    if id !in db.salesReturns then Reply(NotFound, db)
    else
      var row := db.salesReturns[id];
      var products' := AdjustStock(db.products, row.productId, quantity - row.quantity);
      assert Consistent(db) ==> ProductModel.NamesUnique(products') by {
        if Consistent(db) { AdjustStockKeepsNames(db.products, row.productId, quantity - row.quantity); }
      }
      match SalesReturnsModel.Assign(row, quantity, refundAmount)
      case None => Reply(ServerError, db.(products := products'))
      case Some(row') => Reply(Ok, db.(products := products', salesReturns := db.salesReturns[id := row']))
  }

  // ---------------------------------------------------------------------------
  // Purchase returns: POST /purchase-returns, PUT and DELETE /purchase-returns/:id

  /** The presence checks of POST /purchase-returns. */
  predicate PurchaseReturnFieldsGiven(purchaseId: Option<int>, productId: Option<int>, quantity: Option<int>,
                                      refundAmount: Option<int>, reason: Option<string>) {
    Truthy(purchaseId) && Truthy(productId) && Truthy(quantity) && Truthy(refundAmount) && TruthyText(reason)
  }

  /** POST /purchase-returns: all five fields (400), a positive refund (400), the purchase
      and then the product must exist (404), and the quantity may not exceed the purchased
      quantity (400); the model's validators then decide (500). On success the stock of the
      product named in the REQUEST goes down, whichever product the purchase was for. */
  function PostPurchaseReturn(db: Db, purchaseId: Option<int>, productId: Option<int>, quantity: Option<int>,
                              refundAmount: Option<int>, reason: Option<string>): (r: Reply)
    ensures !PurchaseReturnFieldsGiven(purchaseId, productId, quantity, refundAmount, reason)
            ==> r == Reply(BadRequest, db)
    ensures r.status == NotFound <==>
      PurchaseReturnFieldsGiven(purchaseId, productId, quantity, refundAmount, reason) && refundAmount.value > 0
      && (purchaseId.value !in db.purchases || productId.value !in db.products)
    ensures r.status == Ok <==>
      PurchaseReturnFieldsGiven(purchaseId, productId, quantity, refundAmount, reason) && refundAmount.value > 0
      && purchaseId.value in db.purchases && productId.value in db.products
      && 1 <= quantity.value <= db.purchases[purchaseId.value].quantity
      && 3 <= |reason.value| <= 255
    ensures r.status == BadRequest <==>
      || !PurchaseReturnFieldsGiven(purchaseId, productId, quantity, refundAmount, reason)
      || refundAmount.value <= 0
      || (purchaseId.value in db.purchases && productId.value in db.products
          && quantity.value > db.purchases[purchaseId.value].quantity)
    ensures r.status == ServerError <==>
      PurchaseReturnFieldsGiven(purchaseId, productId, quantity, refundAmount, reason) && refundAmount.value > 0
      && purchaseId.value in db.purchases && productId.value in db.products
      && quantity.value <= db.purchases[purchaseId.value].quantity
      && !PurchaseReturnsModel.Valid(PurchaseReturn(purchaseId.value, productId.value, quantity.value,
                                                    reason.value, refundAmount.value))
    ensures r.status != Ok ==> r.db == db
    ensures r.status == Ok ==>
      r.db == db.(purchaseReturns := db.purchaseReturns[db.nextPurchaseReturnId :=
                    PurchaseReturn(purchaseId.value, productId.value, quantity.value, reason.value, refundAmount.value)],
                  nextPurchaseReturnId := db.nextPurchaseReturnId + 1,
                  products := AdjustStock(db.products, productId.value, -quantity.value))
    ensures Consistent(db) ==> Consistent(r.db)
  {
    if !PurchaseReturnFieldsGiven(purchaseId, productId, quantity, refundAmount, reason) then Reply(BadRequest, db)
    else if refundAmount.value <= 0 then Reply(BadRequest, db)
    else if purchaseId.value !in db.purchases then Reply(NotFound, db)
    else if productId.value !in db.products then Reply(NotFound, db)
    else if quantity.value > db.purchases[purchaseId.value].quantity then Reply(BadRequest, db)
    else match PurchaseReturnsModel.Create(purchaseId, productId, quantity, reason, refundAmount)
      case None => Reply(ServerError, db)
      case Some(row) =>
        assert Consistent(db) ==> ProductModel.NamesUnique(AdjustStock(db.products, productId.value, -quantity.value)) by {
          if Consistent(db) {
            AdjustStockKeepsNames(db.products, productId.value, -quantity.value);
            InsertBelow(db.purchaseReturns, db.nextPurchaseReturnId, row);
          }
        }
        Reply(Ok, db.(purchaseReturns := db.purchaseReturns[db.nextPurchaseReturnId := row],
                      nextPurchaseReturnId := db.nextPurchaseReturnId + 1,
                      products := AdjustStock(db.products, productId.value, -quantity.value)))
  }

  /** PUT /purchase-returns/:id: rewrites quantity, refund and reason, re-validated on save;
      the stock is never touched. */
  function PutPurchaseReturn(db: Db, id: int, quantity: Option<int>, refundAmount: Option<int>,
                             reason: Option<string>): (r: Reply)
    ensures id !in db.purchaseReturns ==> r == Reply(NotFound, db)
    ensures r.status == Ok <==>
      id in db.purchaseReturns && quantity.Some? && refundAmount.Some? && reason.Some?
      && quantity.value >= 1 && 3 <= |reason.value| <= 255
    ensures id in db.purchaseReturns && r.status != Ok ==> r == Reply(ServerError, db)
    ensures r.status == Ok ==>
      r.db == db.(purchaseReturns := db.purchaseReturns[id := db.purchaseReturns[id].(
                    quantity := quantity.value, refundAmount := refundAmount.value, reason := reason.value)])
    ensures r.status != Ok ==> r.db == db
    ensures r.db.products == db.products
    ensures Consistent(db) ==> Consistent(r.db)
  {
    if id !in db.purchaseReturns then Reply(NotFound, db)
    else match PurchaseReturnsModel.Assign(db.purchaseReturns[id], quantity, refundAmount, reason)
      case None => Reply(ServerError, db)
      case Some(row) => Reply(Ok, db.(purchaseReturns := db.purchaseReturns[id := row]))
  }

  /** DELETE /purchase-returns/:id: removes the row; the stock it took out stays out. */
  function DeletePurchaseReturn(db: Db, id: int): (r: Reply)
    ensures r.status == Ok <==> id in db.purchaseReturns
    ensures r.status != Ok ==> r == Reply(NotFound, db)
    ensures r.status == Ok ==> r.db == db.(purchaseReturns := db.purchaseReturns - {id})
    ensures r.db.products == db.products
    ensures Consistent(db) ==> Consistent(r.db)
  {
    if id !in db.purchaseReturns then Reply(NotFound, db)
    else Reply(Ok, db.(purchaseReturns := db.purchaseReturns - {id}))
  }

  // ---------------------------------------------------------------------------
  // Company: POST /setup, POST /login

  /** `Company.create(fields)`: both columns are NOT NULL. */
  function CreateCompany(companyName: Option<string>, secretKey: Option<string>): (r: Option<Company>)
    ensures r.Some? <==> companyName.Some? && secretKey.Some?
    ensures r.Some? ==> r.value == Company(companyName.value, secretKey.value)
  {
    if companyName.None? || secretKey.None? then None
    else Some(Company(companyName.value, secretKey.value))
  }

  /** POST /setup as written: after the setup-once and presence checks it calls
      `Company.create({ name: companyName, secretKey })`. `name` is not a column of
      Companies, so `companyName` reaches the INSERT absent and the NOT NULL check throws. */
  function SetupAsWritten(db: Db, companyName: Option<string>, secretKey: Option<string>): (r: Reply)
    ensures r.status != Ok
    ensures r.db == db
  {
    if db.company.Some? then Reply(BadRequest, db)
    else if !TruthyText(companyName) || !TruthyText(secretKey) then Reply(BadRequest, db)
    else match CreateCompany(None, secretKey)
      case None => Reply(ServerError, db)
      case Some(c) => Reply(Ok, db.(company := Some(c)))
  }

  /** POST /setup with the company name stored in its `companyName` column: a second setup
      is refused, both fields are required, and the first setup stores them. */
  function Setup(db: Db, companyName: Option<string>, secretKey: Option<string>): (r: Reply)
    ensures db.company.Some? ==> r == Reply(BadRequest, db)
    ensures r.status == Ok <==> db.company.None? && TruthyText(companyName) && TruthyText(secretKey)
    ensures r.status != Ok ==> r == Reply(BadRequest, db)
    ensures r.status == Ok ==> r.db == db.(company := Some(Company(companyName.value, secretKey.value)))
    ensures Consistent(db) ==> Consistent(r.db)
  {
    if db.company.Some? then Reply(BadRequest, db)
    else if !TruthyText(companyName) || !TruthyText(secretKey) then Reply(BadRequest, db)
    else match CreateCompany(companyName, secretKey)
      case None => Reply(ServerError, db)
      case Some(c) => Reply(Ok, db.(company := Some(c)))
  }

  /** POST /login: 404 before setup; otherwise the key must equal the stored one (401). */
  function Login(db: Db, secretKey: Option<string>): (s: Status)
    ensures db.company.None? ==> s == NotFound
    ensures s == Ok <==> db.company.Some? && secretKey == Some(db.company.value.secretKey)
    ensures s == Unauthorized <==> db.company.Some? && secretKey != Some(db.company.value.secretKey)
  {
    match db.company
    case None => NotFound
    case Some(c) => if secretKey != Some(c.secretKey) then Unauthorized else Ok
  }
}

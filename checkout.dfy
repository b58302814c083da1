/** POST /sales: one request sells a list of items. Items are handled in order; each
    committed item writes a Sale row and lowers its product's stock at once, and the
    first item that fails ends the request with nothing rolled back. */
module Checkout {
  import opened Http
  import opened ProductModel
  import opened SalesModel
  import opened Handlers

  /** An item's `quantity` as the parsed body gives it: the key left out (`undefined`),
      a JSON `null` (which `<` compares as 0), or a number. */
  datatype Quantity = Missing | Null | Given(value: int)

  /** One `{ productId, quantity }` entry of the request's `items`. */
  datatype SaleItem = SaleItem(productId: Option<int>, quantity: Quantity)

  /** One line of the receipt: the product's name and selling price at sale time. */
  datatype ReceiptLine = ReceiptLine(productName: string, quantity: int, pricePerUnit: int, total: int)

  /** The receipt of a successful request (its number and date come from the clock and are not modelled). */
  datatype Receipt = Receipt(items: seq<ReceiptLine>, totalAmount: int)

  /** What handling one item does: it is sold, or it stops the request with a status. */
  datatype ItemResult = Sold(db: Db, line: ReceiptLine) | Refused(status: Status)

  /** The status of a request, the tables afterwards and the lines of the items committed. */
  datatype Outcome = Outcome(status: Status, db: Db, lines: seq<ReceiptLine>)

  /** The item names a product that exists. */
  predicate Found(db: Db, item: SaleItem) {
    item.productId.Some? && item.productId.value in db.products
  }

  /** The stock check `product.stock < quantity` refuses the item: a missing quantity compares
      false, a null one as 0. */
  predicate ShortOfStock(db: Db, item: SaleItem)
    requires Found(db, item)
  {
    var stock := db.products[item.productId.value].stock;
    match item.quantity
    case Missing => false
    case Null => stock < 0
    case Given(q) => stock < q
  }

  /** The sum of the line totals. */
  function TotalOf(lines: seq<ReceiptLine>): int {
    if lines == [] then 0 else TotalOf(lines[..|lines| - 1]) + lines[|lines| - 1].total
  }

  /** Adding a line adds its total. */
  lemma TotalOfAppend(lines: seq<ReceiptLine>, line: ReceiptLine)
    ensures TotalOf(lines + [line]) == TotalOf(lines) + line.total
  {
    assert (lines + [line])[..|lines|] == lines;
  }

  /** The quantity the items ask of one product, summed over the list. */
  function Demand(items: seq<SaleItem>, productId: int): int {
    if items == [] then 0
    else (if items[0].productId == Some(productId) then (if items[0].quantity.Given? then items[0].quantity.value else 0) else 0)
         + Demand(items[1..], productId)
  }

  /** One pass of the loop body: a missing product is 404; a selling price not above 0 or a
      stock below the quantity is 400; a quantity that is missing, null or below 1 makes
      `Sales.create` throw (500). Otherwise a Sale row snapshots the product's name and
      price, the stock goes down by the quantity and the item gets a receipt line. */
  function SellItem(db: Db, item: SaleItem): (r: ItemResult)
    ensures r.Refused? ==> r.status != Ok
    ensures r.Refused? && r.status == NotFound <==> !Found(db, item)
    ensures r.Refused? && r.status == BadRequest <==>
      Found(db, item) && (db.products[item.productId.value].sellingPrice <= 0 || ShortOfStock(db, item))
    ensures r.Refused? && r.status == ServerError <==>
      Found(db, item) && db.products[item.productId.value].sellingPrice > 0 && !ShortOfStock(db, item)
      && (!item.quantity.Given? || item.quantity.value < 1)
    ensures r.Sold? <==>
      Found(db, item) && db.products[item.productId.value].sellingPrice > 0 && !ShortOfStock(db, item)
      && item.quantity.Given? && item.quantity.value >= 1
    ensures r.Sold? ==>
      var productId := item.productId.value;
      var p := db.products[productId];
      var q := item.quantity.value;
      && r.line == ReceiptLine(p.name, q, p.sellingPrice, q * p.sellingPrice)
      && r.db == db.(products := AdjustStock(db.products, productId, -q),
                     sales := db.sales[db.nextSaleId := Sale(productId, p.name, q, p.sellingPrice, q * p.sellingPrice)],
                     nextSaleId := db.nextSaleId + 1)
      && r.db.products[productId].stock >= 0
    ensures Consistent(db) && r.Sold? ==> Consistent(r.db)
  {
    if !Found(db, item) then Refused(NotFound)
    else
      var productId := item.productId.value;
      var p := db.products[productId];
      if p.sellingPrice <= 0 then Refused(BadRequest)
      else if ShortOfStock(db, item) then Refused(BadRequest)
      else if !item.quantity.Given? then Refused(ServerError)
      else
        var q := item.quantity.value;
        match SalesModel.Create(Some(productId), Some(p.name), Some(q), Some(p.sellingPrice), Some(q * p.sellingPrice))
        case None => Refused(ServerError)
        case Some(sale) =>
          var db' := db.(products := AdjustStock(db.products, productId, -q),
                         sales := db.sales[db.nextSaleId := sale],
                         nextSaleId := db.nextSaleId + 1);
          assert Consistent(db) ==> Consistent(db') by {
            if Consistent(db) {
              AdjustStockKeepsNames(db.products, productId, -q);
              InsertBelow(db.sales, db.nextSaleId, sale);
            }
          }
          Sold(db', ReceiptLine(p.name, q, p.sellingPrice, q * p.sellingPrice))
  }

  /** The item loop of POST /sales, from the first item on. Only the Products and Sales
      tables change, and on success there is one line per item. */
  function ProcessItems(db: Db, items: seq<SaleItem>): (r: Outcome)
    ensures |r.lines| <= |items|
    ensures r.status == Ok <==> |r.lines| == |items|
    ensures r.db == db.(products := r.db.products, sales := r.db.sales, nextSaleId := r.db.nextSaleId)
    ensures r.db.products.Keys == db.products.Keys
    ensures Consistent(db) ==> Consistent(r.db)
    decreases |items|
  {
    if items == [] then Outcome(Ok, db, [])
    else match SellItem(db, items[0])
      case Refused(status) => Outcome(status, db, [])
      case Sold(db', line) =>
        var rest := ProcessItems(db', items[1..]);
        Outcome(rest.status, rest.db, [line] + rest.lines)
  }

  /** Every receipt line shows its item's quantity, at least 1, a positive unit price,
      and a total of quantity times price. */
  lemma {:induction false} CheckoutLines(db: Db, items: seq<SaleItem>)
    ensures var r := ProcessItems(db, items);
      forall k | 0 <= k < |r.lines| ::
        && items[k].productId.Some? && items[k].quantity == Given(r.lines[k].quantity)
        && r.lines[k].quantity >= 1 && r.lines[k].pricePerUnit > 0
        && r.lines[k].total == r.lines[k].quantity * r.lines[k].pricePerUnit
    decreases |items|
  {
    if items != [] {
      var step := SellItem(db, items[0]);
      if step.Sold? {
        CheckoutLines(step.db, items[1..]);
        var rest := ProcessItems(step.db, items[1..]);
        assert ProcessItems(db, items).lines == [step.line] + rest.lines;
        assert forall k | 1 <= k < |items| :: items[1..][k - 1] == items[k];
      }
    }
  }

  /** POST /sales: a missing or empty `items` list is 400 with nothing written; otherwise the loop. */
  function PostSales(db: Db, items: Option<seq<SaleItem>>): (r: Outcome)
    ensures items.None? || items.value == [] ==> r == Outcome(BadRequest, db, [])
    ensures r.status == Ok ==> items.Some? && |r.lines| == |items.value|
    ensures Consistent(db) ==> Consistent(r.db)
  {
    if items.None? || items.value == [] then Outcome(BadRequest, db, [])
    else ProcessItems(db, items.value)
  }

  /** Handling a list in two parts: the second part runs on the tables the first left,
      and only when the first succeeded. */
  lemma {:induction false} ProcessItemsAppend(db: Db, xs: seq<SaleItem>, ys: seq<SaleItem>)
    ensures var a := ProcessItems(db, xs);
      ProcessItems(db, xs + ys) ==
        if a.status == Ok then
          var b := ProcessItems(a.db, ys);
          Outcome(b.status, b.db, a.lines + b.lines)
        else a
    decreases |xs|
  {
    if xs == [] {
      assert xs + ys == ys;
    } else {
      assert (xs + ys)[0] == xs[0];
      assert (xs + ys)[1..] == xs[1..] + ys;
      match SellItem(db, xs[0])
      case Refused(_) =>
      case Sold(db', line) =>
        ProcessItemsAppend(db', xs[1..], ys);
        var a := ProcessItems(db', xs[1..]);
        if a.status == Ok {
          var b := ProcessItems(a.db, ys);
          assert [line] + (a.lines + b.lines) == ([line] + a.lines) + b.lines;
        }
    }
  }

  /** One more committed item extends a successful prefix of the request by its line. */
  lemma ProcessItemsExtend(db: Db, items: seq<SaleItem>, i: int, mid: Db, lines: seq<ReceiptLine>)
    requires 0 <= i < |items|
    requires ProcessItems(db, items[..i]) == Outcome(Ok, mid, lines)
    requires SellItem(mid, items[i]).Sold?
    ensures ProcessItems(db, items[..i + 1]) ==
            Outcome(Ok, SellItem(mid, items[i]).db, lines + [SellItem(mid, items[i]).line])
  {
    var item := items[i];
    var step := SellItem(mid, item);
    assert items[..i] + [item] == items[..i + 1];
    ProcessItemsAppend(db, items[..i], [item]);
    assert [item][1..] == [];
    assert ProcessItems(mid, [item]) == Outcome(Ok, step.db, [step.line]);
  }

  /** No rollback: when the items before position `k` all succeed and item `k` is refused,
      the request fails with item `k`'s status and the earlier items stay committed. */
  lemma NoRollback(db: Db, items: seq<SaleItem>, k: int)
    requires 0 <= k < |items|
    requires ProcessItems(db, items[..k]).status == Ok
    requires SellItem(ProcessItems(db, items[..k]).db, items[k]).Refused?
    ensures var before := ProcessItems(db, items[..k]);
      ProcessItems(db, items) ==
        Outcome(SellItem(before.db, items[k]).status, before.db, before.lines)
  {
    assert items == items[..k] + items[k..];
    ProcessItemsAppend(db, items[..k], items[k..]);
    var before := ProcessItems(db, items[..k]);
    assert items[k..][0] == items[k];
    assert ProcessItems(before.db, items[k..]) == Outcome(SellItem(before.db, items[k]).status, before.db, []);
    assert before.lines + [] == before.lines;
  }

  /** Conversely, a failed request is exactly: a prefix of the items committed as a
      successful request would, followed by one refused item. */
  lemma {:induction false} FailureKeepsCommittedPrefix(db: Db, items: seq<SaleItem>)
    requires ProcessItems(db, items).status != Ok
    ensures var r := ProcessItems(db, items);
      var k := |r.lines|;
      && k < |items|
      && ProcessItems(db, items[..k]) == Outcome(Ok, r.db, r.lines)
      && SellItem(r.db, items[k]) == Refused(r.status)
    decreases |items|
  {
    var r := ProcessItems(db, items);
    match SellItem(db, items[0])
    case Refused(status) =>
      assert items[..0] == [];
    case Sold(db', line) =>
      var rest := ProcessItems(db', items[1..]);
      FailureKeepsCommittedPrefix(db', items[1..]);
      var k := |rest.lines|;
      assert items[1..][k] == items[k + 1];
      assert items[..k + 1][0] == items[0];
      assert items[..k + 1][1..] == items[1..][..k];
  }

  /** On success every product's stock went down by exactly what the items asked of it
      (items naming the same product add up); names and prices stay. */
  lemma {:induction false} CheckoutMovesStock(db: Db, items: seq<SaleItem>)
    requires ProcessItems(db, items).status == Ok
    ensures var r := ProcessItems(db, items);
      && r.db.products.Keys == db.products.Keys
      && forall productId | productId in db.products ::
           r.db.products[productId] ==
             db.products[productId].(stock := db.products[productId].stock - Demand(items, productId))
    decreases |items|
  {
    if items == [] {
    } else {
      match SellItem(db, items[0])
      case Sold(db', line) =>
        CheckoutMovesStock(db', items[1..]);
        var r := ProcessItems(db, items);
        forall productId | productId in db.products
          ensures r.db.products[productId] ==
                  db.products[productId].(stock := db.products[productId].stock - Demand(items, productId))
        {
          assert productId in db'.products;
        }
    }
  }

  /** On success the request took the next `|items|` sale ids and left earlier rows untouched. */
  lemma {:induction false} CheckoutTakesFreshSaleIds(db: Db, items: seq<SaleItem>)
    requires ProcessItems(db, items).status == Ok
    requires KeysBelow(db.sales, db.nextSaleId)
    ensures var r := ProcessItems(db, items);
      && r.db.nextSaleId == db.nextSaleId + |items|
      && KeysBelow(r.db.sales, r.db.nextSaleId)
      && (forall id | id in db.sales :: id in r.db.sales && r.db.sales[id] == db.sales[id])
      && (forall id | id in r.db.sales :: id in db.sales || db.nextSaleId <= id < r.db.nextSaleId)
    decreases |items|
  {
    if items != [] {
      var step := SellItem(db, items[0]);
      var db' := step.db;
      var sale := db'.sales[db.nextSaleId];
      assert db'.sales == db.sales[db.nextSaleId := sale] && db'.nextSaleId == db.nextSaleId + 1;
      InsertBelow(db.sales, db.nextSaleId, sale);
      CheckoutTakesFreshSaleIds(db', items[1..]);
    }
  }

  /** On success the k-th item wrote its Sale row under the k-th fresh id, snapshotting
      what its receipt line shows. */
  lemma {:induction false} CheckoutRecordsSale(db: Db, items: seq<SaleItem>, k: int)
    requires ProcessItems(db, items).status == Ok
    requires KeysBelow(db.sales, db.nextSaleId)
    requires 0 <= k < |items|
    ensures var r := ProcessItems(db, items);
      && db.nextSaleId + k in r.db.sales
      && var sale := r.db.sales[db.nextSaleId + k];
      && items[k].productId == Some(sale.productId)
      && sale == Sale(sale.productId, r.lines[k].productName, r.lines[k].quantity,
                      r.lines[k].pricePerUnit, r.lines[k].total)
    decreases |items|
  {
    var step := SellItem(db, items[0]);
    var db', line := step.db, step.line;
    var rest := ProcessItems(db', items[1..]);
    var r := ProcessItems(db, items);
    assert step.Sold? && rest.status == Ok;
    assert r.db == rest.db && r.lines == [line] + rest.lines;
    var sale := Sale(items[0].productId.value, line.productName, line.quantity, line.pricePerUnit, line.total);
    assert db'.sales == db.sales[db.nextSaleId := sale] && db'.nextSaleId == db.nextSaleId + 1;
    if k == 0 {
      CheckoutKeepsSale(db', items[1..], db.nextSaleId);
    } else {
      InsertBelow(db.sales, db.nextSaleId, sale);
      CheckoutRecordsSale(db', items[1..], k - 1);
      assert items[1..][k - 1] == items[k] && r.lines[k] == rest.lines[k - 1];
    }
  }

  /** On success the k-th item names an existing product, and its receipt line (and so its
      Sale row) shows that product's name and selling price as they stood before the
      request: a checkout moves stock only. */
  lemma {:induction false} CheckoutLinesShowProduct(db: Db, items: seq<SaleItem>, k: int)
    requires ProcessItems(db, items).status == Ok
    requires 0 <= k < |items|
    ensures items[k].productId.Some? && items[k].productId.value in db.products
    ensures var p := db.products[items[k].productId.value];
      var line := ProcessItems(db, items).lines[k];
      line.productName == p.name && line.pricePerUnit == p.sellingPrice
    decreases |items|
  {
    var step := SellItem(db, items[0]);
    var rest := ProcessItems(step.db, items[1..]);
    assert step.Sold? && rest.status == Ok;
    assert ProcessItems(db, items).lines == [step.line] + rest.lines;
    if k > 0 {
      CheckoutLinesShowProduct(step.db, items[1..], k - 1);
      assert items[1..][k - 1] == items[k];
      var pid := items[k].productId.value;
      assert step.db.products[pid].name == db.products[pid].name;
      assert step.db.products[pid].sellingPrice == db.products[pid].sellingPrice;
    }
  }

  /** A sale row that existed before a successful request is still there, unchanged. */
  lemma {:induction false} CheckoutKeepsSale(db: Db, items: seq<SaleItem>, id: int)
    requires ProcessItems(db, items).status == Ok
    requires id in db.sales && id < db.nextSaleId
    ensures id in ProcessItems(db, items).db.sales
    ensures ProcessItems(db, items).db.sales[id] == db.sales[id]
    decreases |items|
  {
    if items != [] {
      var db' := SellItem(db, items[0]).db;
      CheckoutKeepsSale(db', items[1..], id);
    }
  }

  /** A single item asking for more than the stock holds is refused with 400 and nothing is written. */
  lemma ShortOfStockChangesNothing(db: Db, item: SaleItem)
    requires Found(db, item) && db.products[item.productId.value].sellingPrice > 0
    requires ShortOfStock(db, item)
    ensures PostSales(db, Some([item])) == Outcome(BadRequest, db, [])
  {
    assert [item][0] == item;
  }
}

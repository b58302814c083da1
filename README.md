# web-pos transaction engine, modelled in Dafny

web-pos is a point-of-sale backend. An Express server (`server/server.js`) keeps a
product catalogue with stock and prices, suppliers, purchases from suppliers, sales
to customers (a multi-item checkout that prints a receipt), sales returns, purchase
returns and a single company account (set up once, then unlocked by a secret key).
Its tables are Sequelize models with NOT NULL columns, defaults and validators
(`server/models/*.js`).

This project models that transaction engine:

- `http.dfy` (module `Http`): request fields as `Option` values, JavaScript
  truthiness of a field (`!x` is true for absent, `0` and `""`), and the status codes
  the handlers answer with.
- One module per Sequelize model: `product.dfy`, `sales.dfy`, `purchases.dfy`,
  `sales_returns.dfy`, `purchase_returns.dfy`, `supplier.dfy`. Each has the row as a
  datatype, its column validators as `Valid`, and `Create` as the function that
  applies defaults and returns `None` where Sequelize would throw. Returns also have
  `Assign`, which models assigning fields and then calling `save()`. Products and
  suppliers each have a UNIQUE name column, so `NameTaken`, `NamesUnique` and
  `InsertKeepsNamesUnique` are written once per table on purpose, over that table's
  own row type.
- `handlers.dfy` (module `Handlers`): the whole database as a value `Db`. It holds one
  map per table, keyed by id, and one auto-increment counter per table. Every route
  is a pure function from the database before the request to a `Reply`, which is
  the status plus the database after the request. `Consistent(db)` is the database
  invariant:
  - keys lie below their counters;
  - product and supplier names are unique;
  - every row passes its validators;
  - every row's product exists, and every purchase's supplier exists.

  Every handler keeps `Consistent`.
- `checkout.dfy` (module `Checkout`): POST /sales.
  - `SellItem` is one pass of the item loop.
  - `ProcessItems` is the whole loop, which stops at the first refused item.
  - `PostSales` is the route.
  - The lemmas state what a completed checkout did: the stock moved by the demand,
    a sale row was written per item under fresh ids, and the receipt total is the
    sum of the lines. They also state what a refused one leaves behind: the items
    before the refusal stay committed, because nothing is rolled back.
- `store.dfy` (module `Server`): `class Store` holds the tables as mutable map
  fields. Each route is a method that works step by step, in the order the route
  does: find, check, create, adjust stock, save. Each method is proved equal to its
  `Handlers` function. `Store.Setup` is the exception: it follows the corrected
  setup (`Handlers.Setup`, see "## Findings"), not the route as written. POST /sales loops over the items, with the loop invariant
  tying the committed prefix to `ProcessItems`.
- `properties.dfy` (module `Properties`): properties that relate several routes.
  - Which deletes undo their create.
  - Which product a purchase return hits.
  - The setup-once guard.
  - A day of trading: buy 10 at 50, sell 4 at 80, take 2 back.

Money is an integer number of the smallest currency unit. A failed Sequelize
operation is a `ServerError` (HTTP 500): the route's `catch` turns every thrown
error into that status. Writes that happened before the throw stay in the database,
as they do in the source, which uses no transactions.

## Model

| member | source | states |
|---|---|---|
| ProductModel.Create | server/models/Product.js:12-31 | A product row is created exactly when a name is given. The row carries that name; absent prices and stock default to 0. |
| ProductModel.CreateDefaults | server/models/Product.js:17-31 | A product created with only a name has purchase price 0, selling price 0 and stock 0. |
| ProductModel.CreateRoundTrip | server/models/Product.js:12-31 | Creating a product from all the fields of a row gives back that row. |
| ProductModel.InsertKeepsNamesUnique | server/models/Product.js:12-16 | Inserting a product under a fresh id keeps names unique if and only if its name is not already taken (the UNIQUE constraint). |
| ProductModel.RenameFreeUpdateKeepsNamesUnique | server/models/Product.js:12-16 | Rewriting a product without changing its name keeps names unique. |
| SalesModel.Create | server/models/Sales.js:12-41 | A sale row is created exactly when productId, productName and a quantity of at least 1 are given. The row is valid and carries the given productId. |
| SalesModel.CreateDefaults | server/models/Sales.js:31-41 | A sale created without prices has selling price per unit 0 and total amount 0. |
| SalesModel.CreateRoundTrip | server/models/Sales.js:12-41 | Creating a sale from all the fields of a valid row gives back that row. |
| PurchasesModel.Create | server/models/Purchases.js:13-48 | A purchase row is created exactly when productId, supplierId and a quantity of at least 1 are given. The row is valid and carries the given productId. |
| PurchasesModel.CreateDefaults | server/models/Purchases.js:38-48 | A purchase created without prices has price per unit 0 and total amount 0. |
| PurchasesModel.CreateRoundTrip | server/models/Purchases.js:13-48 | Creating a purchase from all the fields of a valid row gives back that row. |
| SalesReturnsModel.Create | server/models/SalesReturns.js:12-36 | A sales return row is created exactly when saleId, productId and a quantity of at least 1 are given. The row is valid, carries the given ids and quantity, and its refund amount is the given one or the default 0. |
| SalesReturnsModel.Assign | server/models/SalesReturns.js:25-36 | Setting quantity and refund amount and saving succeeds exactly when the quantity is at least 1 and a refund amount is given. The saved row keeps its sale and product. |
| SalesReturnsModel.CreateRoundTrip | server/models/SalesReturns.js:12-36 | Creating a sales return from all the fields of a valid row gives back that row. |
| PurchaseReturnsModel.Create | server/models/PurchaseReturns.js:12-43 | A purchase return row is created exactly when every NOT NULL field is given, the quantity is at least 1 and the reason has 3 to 255 characters. The row is valid, carries the given ids, quantity and reason, and its refund amount is the given one or the default 0. |
| PurchaseReturnsModel.Assign | server/models/PurchaseReturns.js:25-43 | Setting quantity, refund amount and reason and saving succeeds exactly when all three are given and pass the validators. The saved row keeps its purchase and product. |
| PurchaseReturnsModel.CreateRoundTrip | server/models/PurchaseReturns.js:12-43 | Creating a purchase return from all the fields of a valid row gives back that row. |
| SupplierModel.Create | server/models/Supplier.js:12-33 | A supplier row is created exactly when name, contact and address are given and valid: the name has 3 to 255 characters, the contact is 1 to 255 digits, and the address has 10 to 255 characters. The row holds exactly those fields. |
| SupplierModel.LongContactRefused | server/models/Supplier.js:20-26 | A contact of more than 255 characters does not fit its VARCHAR(255) column, and the supplier is refused. |
| SupplierModel.NonDigitContactRefused | server/models/Supplier.js:20-26 | A contact with a non-digit character anywhere is refused. |
| SupplierModel.InsertKeepsNamesUnique | server/models/Supplier.js:12-19 | Inserting a supplier under a fresh id keeps names unique if and only if its name is not already taken. |
| Handlers.Empty | server/database.js:28-30 | The empty database, before setup, satisfies the database invariant. |
| Handlers.InsertBelow | server/models/Sales.js:7-11 | The auto-increment id is not yet a key, and after the insert all keys stay below the advanced counter. |
| Handlers.AdjustStock | server/server.js:305-306 | Changing one product's stock by a delta keeps the ids. It changes only that product, and only its stock. |
| Handlers.AdjustStockTwice | server/server.js:379-383 | Two stock adjustments of one product equal one adjustment by their sum. |
| Handlers.AdjustStockZero | server/server.js:628-636 | A stock adjustment by zero changes nothing. |
| Handlers.AdjustStockKeepsNames | server/models/Product.js:12-16 | Stock adjustments keep product names unique. |
| Handlers.PostProduct | server/server.js:121-141 | A missing name gives 400. Otherwise the product is created if and only if its name is not taken, with the given stock or 0 and prices 0; a taken name makes the insert fail with 500. Any refusal leaves the database as it was, and the invariant is kept. |
| Handlers.RelatedTo | server/server.js:161-170 | Each of the four related-record lists holds exactly the rows of its table that name the product, unchanged. |
| Handlers.RelatedEmptyIffUnused | server/server.js:150-197 | The related-records report is empty if and only if no sale, purchase, sales return or purchase return refers to the product. |
| Handlers.DeleteProduct | server/server.js:150-197 | Gives 404 if and only if the product is missing, and 400 if and only if some record refers to it. Otherwise the product is removed and nothing else changes. The invariant is kept. |
| Handlers.PutStockPrices | server/server.js:855-875 | An unknown product gives 404. The update succeeds if and only if stock and both prices are given, and then sets exactly those three fields. A missing field fails the save with 500 and nothing changes; the invariant is kept. |
| Handlers.PostSupplier | server/server.js:807-817 | A supplier is added if and only if its fields pass the validators and its name is not taken. Every refusal is 500 and changes nothing. The invariant is kept. |
| Handlers.ReturnsNotOf | server/server.js:347 | Destroying the sales returns of one sale keeps exactly the rows that point at another sale, each unchanged. |
| Handlers.DeleteSale | server/server.js:336-357 | Succeeds if and only if the sale exists, and otherwise gives 404. It removes the sale and the sales returns that point at it, keeps every other sales return unchanged, and never touches stock. The invariant is kept. |
| Handlers.PutSale | server/server.js:360-401 | A missing productId or quantity gives 400, and an unknown sale or product gives 404. Otherwise the product's stock moves by the quantity difference before the sale row is rewritten. The sale row is rewritten only if it passes the Sales validators; otherwise the reply is 500 and the stock change stays. Only products and sales change, and the invariant is kept. |
| Handlers.PostPurchase | server/server.js:405-455 | 400 is given if and only if a field is missing or the quantity is not positive once product and supplier are found; 404 if and only if the product or supplier is unknown; never 500. On success a purchase row is written at the product's purchase price and the stock rises by the quantity. A refusal changes nothing, and the invariant is kept. |
| Handlers.DeletePurchase | server/server.js:494-510 | Succeeds if and only if the purchase exists, and otherwise gives 404. It removes only that row and leaves stock as it is. The invariant is kept. |
| Handlers.PostSalesReturn | server/server.js:512-555 | A missing field gives 400 and an unknown sale gives 404. The return succeeds if and only if the quantity is between 1 and the sold quantity. On success a row refunds quantity × the sale's unit price and the product's stock rises by the quantity. The invariant is kept. |
| Handlers.DeleteSalesReturn | server/server.js:587-609 | Succeeds if and only if the return exists, and otherwise gives 404. It removes the row and takes its quantity back out of the product's stock. The invariant is kept. |
| Handlers.PutSalesReturn | server/server.js:612-643 | An unknown return gives 404. Otherwise the product's stock moves by the new quantity minus the old one, saved before the row. The row is rewritten only if it passes its validators. Only products and sales returns change, and the invariant is kept. |
| Handlers.PostPurchaseReturn | server/server.js:646-703 | 400 is given if and only if a field is missing, the refund is not positive, or the quantity exceeds the purchased quantity; 404 if and only if the purchase or product is unknown; 500 if and only if the row then fails its validators (quantity below 1, reason not 3 to 255 characters). On success the row is written and the named product's stock falls by the quantity. A refusal changes nothing, and the invariant is kept. |
| Handlers.PutPurchaseReturn | server/server.js:747-773 | An unknown return gives 404. The row is rewritten if and only if quantity, refund amount and reason are given and valid; otherwise the save fails with 500 and nothing changes. Stock is never touched, and the invariant is kept. |
| Handlers.DeletePurchaseReturn | server/server.js:775-792 | Succeeds if and only if the return exists, and otherwise gives 404. It removes only that row and leaves stock as it is. The invariant is kept. |
| Handlers.CreateCompany | server/models/Company.js:12-19 | A company row is created exactly when both the company name and the secret key are given, and it holds them. |
| Handlers.SetupAsWritten | server/server.js:56-86 | The setup route as written never answers 200 and never changes the database. |
| Handlers.Setup | server/server.js:56-86 | With a company already present the reply is 400 and nothing changes. Setup succeeds if and only if there is no company yet and both fields are given, and then stores exactly that company. The invariant is kept. |
| Handlers.Login | server/server.js:93-112 | No company gives 404. The reply is 200 if and only if the key equals the stored secret key, and 401 if and only if a company exists and the key differs. |
| Checkout.TotalOfAppend | server/server.js:292-293 | Adding a receipt line adds its total to the receipt total. |
| Checkout.SellItem | server/server.js:266-314 | An unknown product gives 404. A non-positive selling price or too little stock gives 400. The stock check compares a null quantity as 0, so with negative stock it gives 400, while a missing quantity never fails it. Past those checks, a missing or null quantity or one below 1 gives 500 (the Sales `min: 1` validator). Otherwise the item is sold: the stock falls by the quantity and a sale row is written under the next id with the line total quantity × price. The stock stays non-negative, and the invariant is kept. |
| Checkout.ProcessItems | server/server.js:266-315 | The loop produces at most one receipt line per item, and it succeeds if and only if every item produced one. It changes only products, sales and the sale counter, keeps the product ids, and keeps the invariant. |
| Checkout.CheckoutLines | server/server.js:292-314 | Each receipt line carries its item's quantity (at least 1) and a positive unit price, with total = quantity × price. Each of those items named a product. |
| Checkout.PostSales | server/server.js:252-333 | A missing or empty item list gives 400 and changes nothing. A successful checkout has one receipt line per item. The invariant is kept. |
| Checkout.ProcessItemsAppend | server/server.js:266-315 | Processing `xs + ys` is processing `xs`, then processing `ys` from where `xs` left off if `xs` succeeded. |
| Checkout.ProcessItemsExtend | server/server.js:266-315 | Selling item i after a successful prefix extends the prefix's outcome by that item's line and database. |
| Checkout.NoRollback | server/server.js:266-289 | A refused item ends the checkout with its status, and the items before it stay committed. |
| Checkout.FailureKeepsCommittedPrefix | server/server.js:266-289 | A refused checkout leaves exactly the database of the longest successful prefix of the items. |
| Checkout.CheckoutMovesStock | server/server.js:285-306 | After a successful checkout, every product's stock is its old stock minus the total quantity the items asked of it. |
| Checkout.CheckoutTakesFreshSaleIds | server/server.js:296-302 | A successful checkout advances the sale counter by the number of items. It keeps every earlier sale, and writes new sales only under the new ids. |
| Checkout.CheckoutRecordsSale | server/server.js:292-313 | The k-th item of a successful checkout is stored as a sale under the old counter + k. The row holds the item's product and the k-th receipt line's product name, quantity, price and total. |
| Checkout.CheckoutLinesShowProduct | server/server.js:266-314 | In a successful checkout the k-th item names an existing product. Its receipt line, and so its sale row, shows that product's name and selling price as they were before the request. |
| Checkout.CheckoutKeepsSale | server/server.js:296-302 | A sale that existed before a successful checkout is still there, unchanged. |
| Checkout.ShortOfStockChangesNothing | server/server.js:285-289 | A one-item sale of more than the stock gives 400 and leaves the database as it was. |
| Server.Store.constructor | server/database.js:28-30 | A new store is empty and satisfies the invariant. |
| Server.Store.Setup | server/server.js:56-86 | The status and new tables are those of the corrected `Handlers.Setup`, not of the route as written, and the invariant is kept. |
| Server.Store.Login | server/server.js:93-112 | The status is that of `Handlers.Login`, 200 if and only if the key matches, and the store is not changed. |
| Server.Store.PostProduct | server/server.js:121-141 | The status and new tables are those of `Handlers.PostProduct`, and the invariant is kept. |
| Server.Store.DeleteProduct | server/server.js:150-197 | The status and new tables are those of `Handlers.DeleteProduct`, and the invariant is kept. On 400 it returns the related records, which are non-empty. |
| Server.Store.PutStockPrices | server/server.js:855-875 | The status and new tables are those of `Handlers.PutStockPrices`, and the invariant is kept. |
| Server.Store.PostSupplier | server/server.js:807-817 | The status and new tables are those of `Handlers.PostSupplier`, and the invariant is kept. |
| Server.Store.SellOne | server/server.js:267-314 | One pass of the item loop: on refusal it returns the status and changes nothing. On a sale, the tables and the receipt line are those of `Checkout.SellItem`. |
| Server.Store.PostSales | server/server.js:252-333 | The status and new tables are those of `Checkout.PostSales`. On 200 the receipt lists its lines and their total, and the invariant is kept. |
| Server.Store.DeleteSale | server/server.js:336-357 | The status and new tables are those of `Handlers.DeleteSale`, and the invariant is kept. |
| Server.Store.PutSale | server/server.js:360-401 | The status and new tables are those of `Handlers.PutSale`, and the invariant is kept. |
| Server.Store.PostPurchase | server/server.js:405-455 | The status and new tables are those of `Handlers.PostPurchase`, and the invariant is kept. |
| Server.Store.DeletePurchase | server/server.js:494-510 | The status and new tables are those of `Handlers.DeletePurchase`, and the invariant is kept. |
| Server.Store.PostSalesReturn | server/server.js:512-555 | The status and new tables are those of `Handlers.PostSalesReturn`, and the invariant is kept. |
| Server.Store.DeleteSalesReturn | server/server.js:587-609 | The status and new tables are those of `Handlers.DeleteSalesReturn`, and the invariant is kept. |
| Server.Store.PutSalesReturn | server/server.js:612-643 | The status and new tables are those of `Handlers.PutSalesReturn`, and the invariant is kept. |
| Server.Store.PostPurchaseReturn | server/server.js:646-703 | The status and new tables are those of `Handlers.PostPurchaseReturn`, and the invariant is kept. |
| Server.Store.PutPurchaseReturn | server/server.js:747-773 | The status and new tables are those of `Handlers.PutPurchaseReturn`, and the invariant is kept. |
| Server.Store.DeletePurchaseReturn | server/server.js:775-792 | The status and new tables are those of `Handlers.DeletePurchaseReturn`, and the invariant is kept. |
| Properties.SalesReturnDeleteUndoesCreate | server/server.js:512-609 | Deleting a sales return right after creating it restores every table, stock included; only the return counter has moved on. |
| Properties.PurchaseDeleteKeepsStock | server/server.js:405-510 | Deleting a purchase right after recording it leaves the purchased quantity in stock. |
| Properties.PurchaseReturnDeleteKeepsStock | server/server.js:646-792 | Deleting a purchase return right after creating it leaves the returned quantity out of stock. |
| Properties.SaleDeleteKeepsStock | server/server.js:252-357 | Deleting the sale a one-item checkout just wrote leaves the sold quantity out of stock. |
| Properties.PurchaseReturnHitsSuppliedProduct | server/server.js:646-703 | A purchase return lowers the stock of the product named in the request, not of the product the purchase was for. |
| Properties.SalesReturnReasonIgnored | server/server.js:512-555 | POST /sales-returns requires a reason but never stores it: two requests differing only in the reason have the same effect. |
| Properties.SetupOnce | server/server.js:56-112 | After a successful setup, a second setup gives 400 and changes nothing. The stored key logs in, and every other key is refused. |
| Properties.SetupAsWrittenRefusesFirstSetup | server/server.js:56-86 | On an empty database with both fields given, setup as written answers 500. The corrected setup answers 200, and its key then logs in. |
| Properties.StockPricesAcceptNegativeStock | server/server.js:855-875 | PUT /stock-prices stores a negative stock, and the invariant still holds. |
| Properties.PutSaleRefusedStillMovesStock | server/server.js:379-400 | PUT /sales with a quantity the Sales validator refuses answers 500. The sale is unchanged, but the product's stock has already moved. |
| Properties.BuyTen | server/server.js:405-455 | Buying 10 of a product priced 50 with no stock gives stock 10 and a purchase row of total 500. |
| Properties.SellFour | server/server.js:252-333 | Selling 4 at 80 out of a stock of 10 leaves 6, writes a sale of 320 and returns a receipt of one line totalling 320. |
| Properties.ReturnTwo | server/server.js:512-555 | Returning 2 of a sale of 4 at 80 brings the stock from 6 to 8 and refunds 160. |
| Properties.DayOfTrading | server/server.js:252-555 | The three steps in a row on any consistent store: stock goes 0 → 10 → 6 → 8, the receipt totals 320, and the refund is 160. |

## Left out

- Express, CORS, JSON parsing and the response bodies: a reply is its status and the new database. The ids and records echoed in response bodies are not modelled.
- Concurrency: requests are modelled one at a time. The source awaits each database call without transactions, so interleavings of two requests are not modelled.
- The receipt number and date (`Date.now()`, `toLocaleString()`) and console logging: clocks and I/O.
- The GET routes, the reports, the dashboard and the receipt formatting helper: they only read and format data.
- Supplier update and delete (PUT and DELETE /suppliers): outside the transaction engine.
- Foreign-key cascades declared in `server/models/index.js`: that file is not part of this model. Deleting a product is guarded by the route itself, and that guard is modelled.
- DECIMAL(10, 2) prices and `parseFloat`: money is an integer amount of the smallest currency unit, with no rounding.
- The VARCHAR(255) length limit of the product name and company columns: names of any length are accepted.
- String request fields that `parseInt` turns into numbers (quantities of purchases and returns): request fields arrive as integers or absent, so `NaN` never arises.
- Handlers.PutSale: the new total is computed as `product.price * quantity`, and `price` is not a Product column, so the computed total is `NaN`. What the database does with that value is not modelled: the model assumes the update succeeds whenever the quantity passes the Sales validator, and stores a caller-chosen `storedTotal`.
- Column ranges: INT ids and quantities and DECIMAL(10, 2) money have bounded ranges, and a write outside them fails (500) in the database. The model's integers are unbounded, so such a request succeeds in the model; for example a purchase whose total overflows DECIMAL(10, 2).
- Name comparison: the UNIQUE name columns of Products and Suppliers compare under the database's collation, which by default ignores letter case. `ProductModel.NameTaken` and `SupplierModel.NameTaken` compare names exactly, so "rice" after "Rice" is accepted in the model.
- Handlers.PutSalesReturn: the quantity is a plain integer. A missing quantity, which makes the stock `NaN` in the source, is not modelled.
- Auto-increment ids: the counter advances only when a row is inserted. Whether a refused insert uses up an id depends on the database engine, which is not part of this model.
- Checkout.PostSales: the running total is added up before `Sales.create` can throw. It is a local variable that never reaches the database, so it is not modelled on failure.

## Findings

| source | as written | input that shows it | evidently intended | confidence | as-written member | corrected member |
|---|---|---|---|---|---|---|
| server/server.js:56-86 | Setup passes `{ name: companyName, secretKey }` to `Company.create`, but the column is `companyName`, which is NOT NULL (server/models/Company.js:12-19). The create always throws, and the route answers 500. | POST /setup with `companyName: "Corner Shop"` and `secretKey: "s3cret"` on an empty database | store the company under `companyName`, so the first setup answers 200 and the key then logs in | not executed | Handlers.SetupAsWritten, Properties.SetupAsWrittenRefusesFirstSetup | Handlers.Setup |

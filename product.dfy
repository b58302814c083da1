/** The Products table: one row per catalogue item.
    `name` is NOT NULL and UNIQUE; both prices and `stock` are NOT NULL and default to 0.
    No validator bounds `stock`, so a negative stock is a representable row. */
module ProductModel {
  import opened Http

  /** A Products row. Prices are integer minor units (DECIMAL(10,2) rounding is not modelled). */
  datatype Product = Product(name: string, purchasePrice: int, sellingPrice: int, stock: int)

  /** `Product.create(fields)`: None when Sequelize's NOT NULL check throws; an omitted
      price or stock takes the column default 0. Uniqueness is a property of the table,
      see `NameTaken`. */
  function Create(name: Option<string>, purchasePrice: Option<int>, sellingPrice: Option<int>,
                  stock: Option<int>): (r: Option<Product>)
    ensures r.Some? <==> name.Some?
    ensures r.Some? ==> r.value.name == name.value
    ensures r.Some? ==> && r.value.purchasePrice == purchasePrice.GetOr(0)
                        && r.value.sellingPrice == sellingPrice.GetOr(0)
                        && r.value.stock == stock.GetOr(0)
  {
    match name
    case None => None
    case Some(n) => Some(Product(n, purchasePrice.GetOr(0), sellingPrice.GetOr(0), stock.GetOr(0)))
  }

  /** The column defaults: a product created with only a name has both prices and stock at 0. */
  lemma CreateDefaults(name: string)
    ensures Create(Some(name), None, None, None) == Some(Product(name, 0, 0, 0))
  {
  }

  /** Every row, a negative stock included, can be created from its own fields. */
  lemma CreateRoundTrip(p: Product)
    ensures Create(Some(p.name), Some(p.purchasePrice), Some(p.sellingPrice), Some(p.stock)) == Some(p)
  {
  }

  /** Some row of the table already carries `name`. */
  predicate NameTaken(products: map<int, Product>, name: string) {
    exists id | id in products :: products[id].name == name
  }

  /** The UNIQUE constraint on `name`. */
  predicate NamesUnique(products: map<int, Product>) {
    forall a, b | a in products && b in products && products[a].name == products[b].name :: a == b
  }

  /** Inserting a row under a fresh id keeps names unique exactly when its name is not taken. */
  lemma InsertKeepsNamesUnique(products: map<int, Product>, id: int, p: Product)
    requires NamesUnique(products) && id !in products
    ensures NamesUnique(products[id := p]) <==> !NameTaken(products, p.name)
  {
    if NameTaken(products, p.name) {
      var other :| other in products && products[other].name == p.name;
      assert products[id := p][other].name == products[id := p][id].name;
    }
  }

  /** Rewriting a row without changing its name keeps names unique. */
  lemma RenameFreeUpdateKeepsNamesUnique(products: map<int, Product>, id: int, p: Product)
    requires NamesUnique(products) && id in products && p.name == products[id].name
    ensures NamesUnique(products[id := p])
  {
  }
}

/** The Suppliers table. Every column is NOT NULL; `name` is UNIQUE with 3 to 255
    characters, `contact` must match /^[0-9]+$/ and fit its VARCHAR(255) column,
    `address` has 10 to 255 characters. The model counts a length in Unicode scalar values. */
module SupplierModel {
  import opened Http

  datatype Supplier = Supplier(name: string, contact: string, address: string)

  /** The `is: /^[0-9]+$/i` validator: at least one character, every one a decimal digit. */
  predicate DigitsOnly(s: string) {
    |s| >= 1 && forall i | 0 <= i < |s| :: '0' <= s[i] <= '9'
  }

  /** The column validators of a row. */
  predicate Valid(s: Supplier) {
    && 3 <= |s.name| <= 255
    && DigitsOnly(s.contact) && |s.contact| <= 255
    && 10 <= |s.address| <= 255
  }

  /** `Supplier.create(fields)`: None when a NOT NULL check or a validator throws. */
  function Create(name: Option<string>, contact: Option<string>, address: Option<string>): (r: Option<Supplier>)
    ensures r.Some? <==> name.Some? && contact.Some? && address.Some?
                         && Valid(Supplier(name.value, contact.value, address.value))
    ensures r.Some? ==> r.value == Supplier(name.value, contact.value, address.value)
  {
    if name.None? || contact.None? || address.None? then None
    else
      var s := Supplier(name.value, contact.value, address.value);
      if Valid(s) then Some(s) else None
  }

  /** A contact holding any character other than a digit is refused, wherever it stands. */
  lemma NonDigitContactRefused(name: string, contact: string, address: string, i: int)
    requires 0 <= i < |contact| && !('0' <= contact[i] <= '9')
    ensures Create(Some(name), Some(contact), Some(address)).None?
  {
  }

  /** A contact longer than its VARCHAR(255) column is refused, digits or not. */
  lemma LongContactRefused(name: string, contact: string, address: string)
    requires |contact| > 255
    ensures Create(Some(name), Some(contact), Some(address)).None?
  {
  }

  /** Some row of the table already carries `name`. */
  predicate NameTaken(suppliers: map<int, Supplier>, name: string) {
    exists id | id in suppliers :: suppliers[id].name == name
  }

  /** The UNIQUE constraint on `name`. */
  predicate NamesUnique(suppliers: map<int, Supplier>) {
    forall a, b | a in suppliers && b in suppliers && suppliers[a].name == suppliers[b].name :: a == b
  }

  /** Inserting a row under a fresh id keeps names unique exactly when its name is not taken. */
  lemma InsertKeepsNamesUnique(suppliers: map<int, Supplier>, id: int, s: Supplier)
    requires NamesUnique(suppliers) && id !in suppliers
    ensures NamesUnique(suppliers[id := s]) <==> !NameTaken(suppliers, s.name)
  {
    if NameTaken(suppliers, s.name) {
      var other :| other in suppliers && suppliers[other].name == s.name;
      assert suppliers[id := s][other].name == suppliers[id := s][id].name;
    }
  }
}

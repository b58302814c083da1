/** Request and response vocabulary shared by the handlers of the POS backend.
    A request field arrives already parsed: omitted (`undefined`) or a value. Where a
    handler treats a JSON `null` like `undefined` (truthiness, NOT NULL) it is absent too;
    the POST /sales quantity, which a `<` compares, tells the two apart.
    A handler answers with one HTTP status; the JSON bodies are not modelled. */
module Http {

  datatype Option<+T> = None | Some(value: T) {
    /** The value, or `default` when absent. */
    function GetOr(default: T): T {
      match this
      case Some(v) => v
      case None => default
    }
  }

  /** 200, 400, 401, 404 and 500, in that order. */
  datatype Status = Ok | BadRequest | Unauthorized | NotFound | ServerError

  /** JavaScript truthiness of a numeric request field: `undefined`, `null` and `0` are falsy. */
  predicate Truthy(x: Option<int>) {
    x.Some? && x.value != 0
  }

  /** JavaScript truthiness of a string request field: absent and `""` are falsy. */
  predicate TruthyText(s: Option<string>) {
    s.Some? && s.value != ""
  }

  /** `x || 0` on an optional number. */
  function OrZero(x: Option<int>): int {
    if Truthy(x) then x.value else 0
  }
}

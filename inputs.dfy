/** Values as they arrive in a request body or query string, and the outcomes the
    controllers send back. */
module Inputs {

  datatype Option<+T> = None | Some(value: T) {
    function GetOr(default: T): T {
      match this
      case Some(v) => v
      case None => default
    }
  }

  /** The error kinds the controllers answer with. `SchemaViolation` stands for a
      Mongoose validation or cast error raised by `save()`, which the controllers turn
      into a server error. */
  datatype Failure =
    | MissingFields
    | InvalidAmount
    | NotFound
    | Duplicate
    | HasTransactions
    | InvalidView
    | SchemaViolation

  datatype Result<+T> = Ok(value: T) | Err(error: Failure)

  /** A field of a JSON body: absent (`undefined`), explicitly `null`, or given. */
  datatype Field<+T> = Undefined | Null | Given(value: T)

  /** What `Number(x)` or `parseInt(x, 10)` yields for a given field: `NaN` or a finite
      number (amounts are whole cents). */
  datatype Numeric = NotANumber | Finite(v: int)

  /** JavaScript truthiness of a string field: given and not empty. */
  predicate Truthy(f: Field<string>) {
    f.Given? && f.value != ""
  }

  /** `v == null`, which holds of both `undefined` and `null`. */
  predicate IsNullish<T>(f: Field<T>) {
    f.Undefined? || f.Null?
  }

  /** JavaScript truthiness of a numeric field: given and not zero. A field holding a
      non-empty string that does not parse is truthy too. */
  predicate TruthyNumber(f: Field<Numeric>) {
    f.Given? && f.value != Finite(0)
  }

  /** `toNum` of the transaction controller: `undefined` and `null` become `NaN`,
      anything else goes through `Number(v)`. */
  function ToNum(f: Field<Numeric>): (n: Numeric)
    ensures IsNullish(f) ==> n == NotANumber
    ensures f.Given? ==> n == f.value
  {
    match f
    case Given(x) => x
    case _ => NotANumber
  }

  /** `validNum` of the transaction controller: a number that is not `NaN` and not negative. */
  predicate ValidNum(n: Numeric) {
    n.Finite? && n.v >= 0
  }
}

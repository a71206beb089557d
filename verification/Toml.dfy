// Values of a TOML document, as the configuration code sees them.
module Toml {

  datatype Value =
    | Str(text: string)
    | Bool(flag: bool)
    | Int(number: int)
    | Real(amount: real)
    | NonFinite
    | Date(stamp: string)
    | List(items: seq<Value>)
    | Table(entries: map<string, Value>)

  type Dict = map<string, Value>

  /** Python's `value == x` for a number x: integers, floats and booleans
      compare by value, NaN and the infinities equal no such x. */
  predicate EqualsNumber(v: Value, x: real) {
    match v
    case Int(number) => number as real == x
    case Real(amount) => amount == x
    case Bool(flag) => x == if flag then 1.0 else 0.0
    case _ => false
  }
}

/** JSON values and the numbers in them. */
module JsonValues {
  import opened CelText

  /** A JavaScript number; which finite values there are, and how results are rounded to them, stays
      open.  Minus zero is a value of its own, as Object.is has it. */
  datatype Number = NaN | Infinity(negative: bool) | NegativeZero | Finite(value: real)

  /** Objects are unordered: the order of keys is not part of a value. */
  datatype Json =
    | Null
    | Bool(b: bool)
    | Num(n: Number)
    | Str(text: Text)
    | Arr(elements: seq<Json>)
    | Obj(fields: map<Text, Json>)

  const MAX_SAFE_INTEGER: real := 9007199254740991.0

  predicate IsInteger(r: real) { r.Floor as real == r }

  /** Finite, and within the safe range when it is an integer. */
  predicate JsonSafe(n: Number) {
    match n
    case NaN => false
    case Infinity(_) => false
    case NegativeZero => true
    case Finite(r) => IsInteger(r) ==> -MAX_SAFE_INTEGER <= r <= MAX_SAFE_INTEGER
  }

  /** Every number anywhere in the value is JSON-safe. */
  ghost predicate AllSafe(v: Json) {
    match v
    case Num(n) => JsonSafe(n)
    case Arr(es) => forall e <- es :: AllSafe(e)
    case Obj(fields) => forall k <- fields :: AllSafe(fields[k])
    case _ => true
  }
}

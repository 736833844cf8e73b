/** Evaluation of parsed expressions, and JSON equality. */
module CelEvaluator {
  import opened Wrappers
  import opened CelText
  import opened JsonValues
  import opened CelNumbers
  import opened CelParser

  datatype EvalError =
    | InvalidInput | BooleanRequired | NumberRequired | UnsafeResult | ComparisonMismatch | UnsupportedOperator
    | NotAnObject

  /** What the engine decides: how results are rounded, and Object.is on the values at hand. */
  datatype Engine = Engine(round: Rounding, same: (Json, Json) -> bool)

  predicate IsPrimitive(v: Json) { !v.Arr? && !v.Obj? }

  /** Object.is tells primitives apart by value; arrays and objects it may take for different although
      they are equal, never the other way round. */
  ghost predicate ValidEngine(m: Engine) {
    && (forall l, r :: m.same(l, r) ==> l == r)
    && (forall l, r :: IsPrimitive(l) && l == r ==> m.same(l, r))
  }

  // ---------- equality ----------

  predicate JsonEquals(m: Engine, l: Json, r: Json) {
    if m.same(l, r) then true
    else if l.Arr? || r.Arr? then
      && l.Arr? && r.Arr?
      && |l.elements| == |r.elements|
      && forall i | 0 <= i < |l.elements| :: JsonEquals(m, l.elements[i], r.elements[i])
    else if l.Obj? && r.Obj? then
      && |l.fields| == |r.fields|
      && forall k <- l.fields :: k in r.fields && JsonEquals(m, l.fields[k], r.fields[k])
    else false
  }

  lemma SameSizeSubset<T>(a: set<T>, b: set<T>)
    requires a <= b && |a| == |b|
    ensures a == b
  {
    assert b == a + (b - a);
  }

  /** Key counts and one-sided inclusion are enough: equality is equality of values, with objects as
      unordered maps. */
  lemma {:induction false} EqualsIsEquality(m: Engine, l: Json, r: Json)
    requires ValidEngine(m)
    ensures JsonEquals(m, l, r) <==> l == r
    decreases l
  {
    if l.Arr? && r.Arr? && |l.elements| == |r.elements| {
      forall i | 0 <= i < |l.elements|
        ensures JsonEquals(m, l.elements[i], r.elements[i]) <==> l.elements[i] == r.elements[i]
      {
        EqualsIsEquality(m, l.elements[i], r.elements[i]);
      }
    } else if l.Obj? && r.Obj? {
      FieldsEqual(m, l, r);
    }
  }

  lemma {:induction false} FieldsEqual(m: Engine, l: Json, r: Json)
    requires ValidEngine(m) && l.Obj? && r.Obj?
    ensures JsonEquals(m, l, r) <==> l == r
    decreases l, 0
  {
    forall k | k in l.fields && k in r.fields
      ensures JsonEquals(m, l.fields[k], r.fields[k]) <==> l.fields[k] == r.fields[k]
    {
      EqualsIsEquality(m, l.fields[k], r.fields[k]);
    }
    if JsonEquals(m, l, r) && !m.same(l, r) {
      assert |l.fields.Keys| == |l.fields| && |r.fields.Keys| == |r.fields|;
      SameSizeSubset(l.fields.Keys, r.fields.Keys);
      assert l.fields == r.fields;
    }
  }

  /** Reflexive, symmetric and transitive. */
  lemma EqualsIsEquivalence(m: Engine, a: Json, b: Json, c: Json)
    requires ValidEngine(m)
    ensures JsonEquals(m, a, a)
    ensures JsonEquals(m, a, b) ==> JsonEquals(m, b, a)
    ensures JsonEquals(m, a, b) && JsonEquals(m, b, c) ==> JsonEquals(m, a, c)
  {
    EqualsIsEquality(m, a, a);
    EqualsIsEquality(m, a, b);
    EqualsIsEquality(m, b, a);
    EqualsIsEquality(m, b, c);
    EqualsIsEquality(m, a, c);
  }

  // ---------- evaluation ----------

  /** Errors about operands and numbers. */
  predicate IsOperandError(x: EvalError) {
    x == BooleanRequired || x == NumberRequired || x == UnsafeResult || x == ComparisonMismatch
  }

  type Outcome = Result<Json, EvalError>

  function Checked(n: Number): (r: Outcome)
    ensures r.Ok? ==> AllSafe(r.value) && r.value.Num?
    ensures r.Err? ==> r.error == UnsafeResult
  {
    if JsonSafe(n) then Ok(Num(n)) else Err(UnsafeResult)
  }

  function EvalUnary(op: Text, v: Json): (r: Outcome)
    requires AllSafe(v)
    ensures r.Ok? ==> AllSafe(r.value) && IsPrimitive(r.value)
    ensures r.Err? ==> IsOperandError(r.error)
  {
    if op == NOT then if v.Bool? then Ok(Bool(!v.b)) else Err(BooleanRequired)
    else if !v.Num? then Err(NumberRequired)
    else Checked(if op == MINUS then Negated(v.n) else v.n)
  }

  /** Unit by unit, as strings compare. */
  predicate TextLess(a: Text, b: Text) {
    b != [] && (a == [] || a[0] < b[0] || (a[0] == b[0] && TextLess(a[1..], b[1..])))
  }

  function Ordered(op: Text, less: bool, greater: bool): bool {
    if op == LESS then less else if op == AT_MOST then !greater else if op == GREATER then greater else !less
  }

  function Compare(op: Text, l: Json, r: Json): (o: Outcome)
    requires AllSafe(l) && AllSafe(r)
  {
    if l.Num? && r.Num? then
      Ok(Bool(Ordered(op, ValueOf(l.n) < ValueOf(r.n), ValueOf(l.n) > ValueOf(r.n))))
    else if l.Str? && r.Str? then Ok(Bool(Ordered(op, TextLess(l.text, r.text), TextLess(r.text, l.text))))
    else Err(ComparisonMismatch)
  }

  lemma {:induction false} TextOrder(a: Text, b: Text)
    ensures !(TextLess(a, b) && TextLess(b, a))
    ensures a == b <==> !TextLess(a, b) && !TextLess(b, a)
    decreases |a|
  {
    if a != [] && b != [] {
      TextOrder(a[1..], b[1..]);
      assert a == [a[0]] + a[1..] && b == [b[0]] + b[1..];
    }
  }

  lemma {:induction false} TextTransitive(a: Text, b: Text, c: Text)
    requires TextLess(a, b) && TextLess(b, c)
    ensures TextLess(a, c)
    decreases |a|
  {
    if a != [] && a[0] == b[0] == c[0] { TextTransitive(a[1..], b[1..], c[1..]); }
  }

  predicate OppositeZeros(l: Json, r: Json) {
    (l == Num(NegativeZero) && r == Num(Finite(0.0))) || (l == Num(Finite(0.0)) && r == Num(NegativeZero))
  }

  /** The four comparisons agree with each other, and with equality for everything but the two zeros,
      which compare as equal and yet are different values. */
  lemma CompareAgrees(m: Engine, l: Json, r: Json)
    requires ValidEngine(m) && AllSafe(l) && AllSafe(r) && Compare(LESS, l, r).Ok?
    ensures Compare(GREATER, l, r) == Compare(LESS, r, l)
    ensures Compare(AT_LEAST, l, r) == Ok(Bool(Compare(LESS, l, r) != Ok(Bool(true))))
    ensures Compare(AT_MOST, l, r) == Compare(AT_LEAST, r, l)
    ensures Compare(AT_MOST, l, r) == Ok(Bool(true)) && Compare(AT_LEAST, l, r) == Ok(Bool(true)) <==>
              JsonEquals(m, l, r) || OppositeZeros(l, r)
  {
    EqualsIsEquality(m, l, r);
    if l.Str? { TextOrder(l.text, r.text); }
  }

  function Arithmetic(m: Engine, op: Text, l: Json, r: Json): (o: Outcome)
    requires AllSafe(l) && AllSafe(r)
    ensures o.Ok? ==> AllSafe(o.value) && o.value.Num?
    ensures o.Err? ==> o.error == NumberRequired || o.error == UnsafeResult
  {
    if !l.Num? || !r.Num? then Err(NumberRequired)
    else
      Checked(
        if op == PLUS then Sum(m.round, l.n, r.n)
        else if op == MINUS then Difference(m.round, l.n, r.n)
        else if op == TIMES then Product(m.round, l.n, r.n)
        else if op == DIVIDE then Quotient(m.round, l.n, r.n)
        else Remainder(l.n, r.n))
  }

  /** Operators that evaluate both operands. */
  function EvalBinary(m: Engine, op: Text, l: Json, r: Json): (o: Outcome)
    requires AllSafe(l) && AllSafe(r)
    ensures o.Ok? ==> AllSafe(o.value) && IsPrimitive(o.value)
    ensures o.Err? ==>
              IsOperandError(o.error) || (o.error == UnsupportedOperator && (!IsBinary(op) || op == AND || op == OR))
  {
    if op == EQUALS then Ok(Bool(JsonEquals(m, l, r)))
    else if op == DIFFERS then Ok(Bool(!JsonEquals(m, l, r)))
    else if op == PLUS && l.Str? && r.Str? then Ok(Str(l.text + r.text))
    else if op == PLUS || op == MINUS || op == TIMES || op == DIVIDE || op == REMAINDER then Arithmetic(m, op, l, r)
    else if op == LESS || op == AT_MOST || op == GREATER || op == AT_LEAST then Compare(op, l, r)
    else Err(UnsupportedOperator)
  }

  /** Evaluation stays within JSON-safe values and never meets an unknown operator. */
  function Eval(m: Engine, e: Expr, input: Json): (r: Outcome)
    requires Formed(e) && AllSafe(input)
    ensures r.Ok? ==> AllSafe(r.value)
    ensures r.Err? ==> IsOperandError(r.error)
    decreases e, 0
  {
    match e
    case Literal(v) => Ok(v)
    case Input => Ok(input)
    case Array(es) =>
      (match EvalAll(m, es, input)
       case Err(x) => Err(x)
       case Ok(vs) => Ok(Arr(vs)))
    case Object(es) =>
      (match EvalEntries(m, {}, es, input, map[])
       case Err(x) => Err(x)
       case Ok(fields) => Ok(Obj(fields)))
    case Unary(op, x) =>
      (match Eval(m, x, input)
       case Err(x) => Err(x)
       case Ok(v) => EvalUnary(op, v))
    case Binary(op, l, r) =>
      (match Eval(m, l, input)
       case Err(x) => Err(x)
       case Ok(v) =>
         if op == AND || op == OR then
           if !v.Bool? then Err(BooleanRequired)
           else if v.b == (op == OR) then Ok(v)
           else
             match Eval(m, r, input)
             case Err(x) => Err(x)
             case Ok(w) => if w.Bool? then Ok(w) else Err(BooleanRequired)
         else
           match Eval(m, r, input)
           case Err(x) => Err(x)
           case Ok(w) => EvalBinary(m, op, v, w))
    case Conditional(c, t, f) =>
      (match Eval(m, c, input)
       case Err(x) => Err(x)
       case Ok(v) =>
         if !v.Bool? then Err(BooleanRequired)
         else if v.b then Eval(m, t, input) else Eval(m, f, input))
  }

  /** Elements from left to right; the first error ends it. */
  function EvalAll(m: Engine, es: seq<Expr>, input: Json): (r: Result<seq<Json>, EvalError>)
    requires FormedAll(es) && AllSafe(input)
    ensures r.Ok? ==> |r.value| == |es| && forall v <- r.value :: AllSafe(v)
    ensures r.Err? ==> IsOperandError(r.error)
    decreases es, 1
  {
    if es == [] then Ok([])
    else
      match Eval(m, es[0], input)
      case Err(x) => Err(x)
      case Ok(v) =>
        match EvalAll(m, es[1..], input)
        case Err(x) => Err(x)
        case Ok(vs) => Ok([v] + vs)
  }

  function Keys(es: seq<Entry>): set<Text> {
    if es == [] then {} else {es[0].key} + Keys(es[1..])
  }

  /** Entries from left to right, added to `fields`, whose keys are `keys`. */
  function EvalEntries(m: Engine, keys: set<Text>, es: seq<Entry>, input: Json, fields: map<Text, Json>)
    : (r: Result<map<Text, Json>, EvalError>)
    requires FormedEntries(keys, es) && AllSafe(input) && fields.Keys == keys && AllSafe(Obj(fields))
    ensures r.Ok? ==> AllSafe(Obj(r.value))
    ensures r.Ok? ==> r.value.Keys == keys + Keys(es) && |r.value| == |fields| + |es|
    ensures r.Err? ==> IsOperandError(r.error)
    decreases es, 1
  {
    if es == [] then Ok(fields)
    else
      match Eval(m, es[0].value, input)
      case Err(x) => Err(x)
      case Ok(v) =>
        Defined(fields, es[0].key, v);
        EvalEntries(m, keys + {es[0].key}, es[1..], input, fields[es[0].key := v])
  }

  /** Defining one more key. */
  lemma Defined(fields: map<Text, Json>, key: Text, v: Json)
    requires key !in fields && AllSafe(Obj(fields)) && AllSafe(v)
    ensures
      var more := fields[key := v];
      AllSafe(Obj(more)) && more.Keys == fields.Keys + {key} && |more| == |fields| + 1
  {
  }

  lemma EntryFirst(m: Engine, keys: set<Text>, es: seq<Entry>, input: Json, fields: map<Text, Json>)
    requires es != [] && FormedEntries(keys, es) && AllSafe(input) && fields.Keys == keys && AllSafe(Obj(fields))
    ensures
      match Eval(m, es[0].value, input)
      case Err(x) => EvalEntries(m, keys, es, input, fields) == Err(x)
      case Ok(v) =>
        var more := fields[es[0].key := v];
        && AllSafe(Obj(more)) && more.Keys == keys + {es[0].key}
        && EvalEntries(m, keys, es, input, fields) == EvalEntries(m, keys + {es[0].key}, es[1..], input, more)
  {
  }

  /** The object case as the program runs it: a loop that defines one key after the other. */
  method EvaluateObject(m: Engine, entries: seq<Entry>, input: Json) returns (r: Outcome)
    requires Formed(Object(entries)) && AllSafe(input)
    ensures r == Eval(m, Object(entries), input)
  {
    var result: map<Text, Json> := map[];
    var rest := entries;
    ghost var keys: set<Text> := {};
    while rest != []
      invariant result.Keys == keys && FormedEntries(keys, rest) && AllSafe(Obj(result))
      invariant EvalEntries(m, {}, entries, input, map[]) == EvalEntries(m, keys, rest, input, result)
      decreases |rest|
    {
      var value := Eval(m, rest[0].value, input);
      EntryFirst(m, keys, rest, input, result);
      if value.Err? { return value; }
      keys := keys + {rest[0].key};
      result := result[rest[0].key := value.value];
      rest := rest[1..];
    }
    return Ok(Obj(result));
  }

  /** assertRestrictedCelValue, then evaluation: the argument must be a string or a JSON-safe number. */
  function Evaluate(m: Engine, e: Expr, input: Json): (r: Outcome)
    requires Formed(e)
    ensures r.Ok? ==> AllSafe(r.value)
  {
    if input.Str? then Eval(m, e, input)
    else if !input.Num? then Err(InvalidInput)
    else if !JsonSafe(input.n) then Err(UnsafeResult)
    else Eval(m, e, input)
  }
}

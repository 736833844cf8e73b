/** What an expression means: one rule for each construct, stated apart from the evaluator, which is
    sound and complete for these rules. */
module CelMeaning {
  import opened Wrappers
  import opened CelText
  import opened JsonValues
  import opened CelNumbers
  import opened CelParser
  import opened CelPrecedence
  import opened CelEvaluator

  // ---------- numbers ----------

  /** A finite number is its value and its sign, which tells the two zeros apart. */
  ghost predicate Denotes(n: Number, value: real, negative: bool) {
    IsFinite(n) && ValueOf(n) == value && IsNegative(n) == negative
  }

  /** An exact result, rounded; zero is not rounded and has the sign that IEEE 754 gives it. */
  ghost predicate Rounded(m: Engine, exact: real, negativeIfZero: bool, n: Number) {
    if exact != 0.0 then n == m.round(exact) else Denotes(n, 0.0, negativeIfZero)
  }

  /** What is left of `a` after `k` times `b`: smaller than `b` and with the sign of `a`. */
  ghost predicate LeavesOver(a: FiniteNumber, b: FiniteNumber, k: int, n: Number) {
    && IsFinite(n)
    && ValueOf(a) == ValueOf(b) * k as real + ValueOf(n)
    && Magnitude(ValueOf(n)) < Magnitude(ValueOf(b))
    && IsNegative(n) == IsNegative(a)
  }

  /** The number `a op b`. */
  ghost predicate Calculates(m: Engine, op: Text, a: FiniteNumber, b: FiniteNumber, n: Number) {
    var x, y := ValueOf(a), ValueOf(b);
    var opposite := IsNegative(a) != IsNegative(b);
    || (op == PLUS && Rounded(m, x + y, IsNegative(a) && IsNegative(b), n))
    || (op == MINUS && Rounded(m, x - y, IsNegative(a) && !IsNegative(b), n))
    || (op == TIMES && Rounded(m, x * y, opposite, n))
    || (op == DIVIDE && y != 0.0 && Rounded(m, x / y, opposite, n))
    || (op == DIVIDE && y == 0.0 && n == if x == 0.0 then NaN else Infinity(opposite))
    || (op == REMAINDER && y != 0.0 && exists k: int :: LeavesOver(a, b, k, n))
    || (op == REMAINDER && y == 0.0 && n == NaN)
  }

  /** A result is a finite number, and no integer beyond 2^53 - 1. */
  ghost predicate Reported(n: Number, r: Outcome) {
    var safe :=
      IsFinite(n) && (IsInteger(ValueOf(n)) ==> -9007199254740991.0 <= ValueOf(n) <= 9007199254740991.0);
    r == if safe then Ok(Num(n)) else Err(UnsafeResult)
  }

  // ---------- comparison ----------

  /** The texts agree up to index `k`, where `a` is over or has the smaller unit. */
  ghost predicate PrecedesAt(a: Text, b: Text, k: nat) {
    && k <= |a| && k < |b| && a[..k] == b[..k]
    && (k == |a| || a[k] < b[k])
  }

  ghost predicate Precedes(a: Text, b: Text) { exists k: nat :: PrecedesAt(a, b, k) }

  ghost predicate Compares(op: Text, less: bool, equal: bool, greater: bool, holds: bool) {
    || (op == LESS && holds == less)
    || (op == AT_MOST && holds == (less || equal))
    || (op == GREATER && holds == greater)
    || (op == AT_LEAST && holds == (greater || equal))
  }

  // ---------- the rules ----------

  /** A prefix operator and the value of its operand. */
  ghost predicate Prefixes(op: Text, v: Json, r: Outcome)
    requires AllSafe(v)
  {
    || (op == NOT && r == if v.Bool? then Ok(Bool(!v.b)) else Err(BooleanRequired))
    || ((op == MINUS || op == PLUS) && !v.Num? && r == Err(NumberRequired))
    || (op == PLUS && v.Num? && r == Ok(v))
    || (op == MINUS && v.Num? && r.Ok? && r.value.Num? && Denotes(r.value.n, -ValueOf(v.n), !IsNegative(v.n)))
  }

  /** An operator other than && and || and the values of its operands. */
  ghost predicate Combines(m: Engine, op: Text, v: Json, w: Json, r: Outcome)
    requires AllSafe(v) && AllSafe(w)
  {
    || (op == EQUALS && r == Ok(Bool(v == w)))
    || (op == DIFFERS && r == Ok(Bool(v != w)))
    || (op == PLUS && v.Str? && w.Str? && r == Ok(Str(v.text + w.text)))
    || (IsArithmetic(op) && v.Num? && w.Num? && exists n :: Calculates(m, op, v.n, w.n, n) && Reported(n, r))
    || (IsArithmetic(op) && !(v.Num? && w.Num?) && !(op == PLUS && v.Str? && w.Str?) && r == Err(NumberRequired))
    || (IsComparison(op) && v.Num? && w.Num? && r.Ok? && r.value.Bool?
        && var x, y := ValueOf(v.n), ValueOf(w.n); Compares(op, x < y, x == y, x > y, r.value.b))
    || (IsComparison(op) && v.Str? && w.Str? && r.Ok? && r.value.Bool?
        && Compares(op, Precedes(v.text, w.text), v.text == w.text, Precedes(w.text, v.text), r.value.b))
    || (IsComparison(op) && !(v.Num? && w.Num?) && !(v.Str? && w.Str?) && r == Err(ComparisonMismatch))
  }

  /** What a prefix operator makes of the outcome of its operand. */
  ghost predicate PrefixRule(op: Text, o: Outcome, r: Outcome) {
    if o.Err? then r == o else AllSafe(o.value) && Prefixes(op, o.value, r)
  }

  /** The left operand comes first, also with its errors; && and || need the right one only when the left
      is true or false, and then a boolean. */
  ghost predicate InfixRule(m: Engine, op: Text, o: Outcome, p: Outcome, r: Outcome) {
    if o.Err? then r == o
    else if op == AND || op == OR then
      if !o.value.Bool? then r == Err(BooleanRequired)
      else if o.value.b == (op == OR) then r == Ok(Bool(op == OR))
      else r == if p.Ok? && !p.value.Bool? then Err(BooleanRequired) else p
    else if p.Err? then r == p
    else AllSafe(o.value) && AllSafe(p.value) && Combines(m, op, o.value, p.value, r)
  }

  /** The condition must be a boolean and picks the branch. */
  ghost predicate ChoiceRule(o: Outcome, whenTrue: Outcome, whenFalse: Outcome, r: Outcome) {
    || (o.Err? && r == o)
    || (o == Ok(Bool(true)) && r == whenTrue)
    || (o == Ok(Bool(false)) && r == whenFalse)
    || (o.Ok? && !o.value.Bool? && r == Err(BooleanRequired))
  }

  /** The outcomes of elements or entries up to the first error, if there is one. */
  ghost predicate FirstError(os: seq<Outcome>, x: EvalError) {
    exists i | 0 <= i < |os| :: os[i] == Err(x) && forall j | 0 <= j < i :: os[j].Ok?
  }

  ghost predicate ArrayRule(os: seq<Outcome>, r: Outcome) {
    || (r.Err? && FirstError(os, r.error))
    || (&& r.Ok? && r.value.Arr? && |r.value.elements| == |os|
        && forall i | 0 <= i < |os| :: os[i] == Ok(r.value.elements[i]))
  }

  ghost predicate ObjectRule(es: seq<Entry>, os: seq<Outcome>, r: Outcome)
    requires |es| == |os|
  {
    || (r.Err? && FirstError(os, r.error))
    || (&& r.Ok? && r.value.Obj?
        && (forall k <- r.value.fields :: exists i | 0 <= i < |es| :: es[i].key == k)
        && forall i | 0 <= i < |es| :: es[i].key in r.value.fields && os[i] == Ok(r.value.fields[es[i].key]))
  }

  /** The expression has the value, or fails with the error, `r`. */
  ghost predicate Evaluates(m: Engine, e: Expr, input: Json, r: Outcome)
    decreases e
  {
    match e
    case Literal(v) => r == Ok(v)
    case Input => r == Ok(input)
    case Array(es) =>
      exists os: seq<Outcome> | |os| == |es| ::
        (forall i | 0 <= i < |es| :: Evaluates(m, es[i], input, os[i])) && ArrayRule(os, r)
    case Object(es) =>
      exists os: seq<Outcome> | |os| == |es| ::
        (forall i | 0 <= i < |es| :: Evaluates(m, es[i].value, input, os[i])) && ObjectRule(es, os, r)
    case Unary(op, x) => exists o :: Evaluates(m, x, input, o) && PrefixRule(op, o, r)
    case Binary(op, x, y) =>
      exists o, p :: Evaluates(m, x, input, o) && Evaluates(m, y, input, p) && InfixRule(m, op, o, p, r)
    case Conditional(c, t, f) =>
      exists o, p, q ::
        Evaluates(m, c, input, o) && Evaluates(m, t, input, p) && Evaluates(m, f, input, q) && ChoiceRule(o, p, q, r)
  }

  // ---------- numbers again ----------

  lemma NegatedIs(a: FiniteNumber, n: Number)
    ensures Denotes(n, -ValueOf(a), !IsNegative(a)) <==> n == Negated(a)
    ensures JsonSafe(a) ==> JsonSafe(Negated(a))
  {
    if a.Finite? && IsInteger(-a.value) { assert a.value == (-((-a.value).Floor)) as real; }
  }

  lemma LeastMultiple(y: real, d: int)
    requires d != 0
    ensures Magnitude(y * d as real) >= Magnitude(y)
  {
    var m := d as real;
    if d > 0 {
      ProductSigns(m, Magnitude(y));
      if y >= 0.0 { Growth(y, m); } else { Growth(-y, m); }
    } else {
      if y >= 0.0 { Growth(y, -m); } else { Growth(-y, -m); }
    }
    Opposite(y, m);
  }

  lemma Growth(y: real, m: real)
    requires y >= 0.0 && m >= 1.0
    ensures y * m >= y
  {
    assert y * m - y == y * (m - 1.0);
  }

  /** There is exactly one remainder. */
  lemma OneRemainder(a: FiniteNumber, b: FiniteNumber, k: int, n: Number, l: int, o: Number)
    requires LeavesOver(a, b, k, n) && LeavesOver(a, b, l, o)
    ensures n == o
  {
    var y, d := ValueOf(b), k - l;
    Distributes(y, k as real, l as real);
    assert d as real == k as real - l as real;
    assert y * d as real == ValueOf(o) - ValueOf(n);
    assert Magnitude(ValueOf(o) - ValueOf(n)) < Magnitude(y);
    if d != 0 { LeastMultiple(y, d); }
  }

  lemma RemainderIs(a: FiniteNumber, b: FiniteNumber, n: Number)
    requires ValueOf(b) != 0.0
    ensures (exists k: int :: LeavesOver(a, b, k, n)) <==> n == Remainder(a, b)
  {
    var q := Truncated(ValueOf(a) / ValueOf(b));
    RemainderLaw(a, b);
    assert LeavesOver(a, b, q, Remainder(a, b));
    if k: int :| LeavesOver(a, b, k, n) { OneRemainder(a, b, k, n, q, Remainder(a, b)); }
  }

  lemma QuotientIs(m: Engine, a: FiniteNumber, b: FiniteNumber, n: Number)
    ensures Calculates(m, DIVIDE, a, b, n) <==> n == Quotient(m.round, a, b)
  {
    if ValueOf(b) != 0.0 { Divided(ValueOf(a), ValueOf(b)); }
  }

  lemma ProductIs(m: Engine, a: FiniteNumber, b: FiniteNumber, n: Number)
    ensures Calculates(m, TIMES, a, b, n) <==> n == Product(m.round, a, b)
  {
  }

  lemma SumIs(m: Engine, a: FiniteNumber, b: FiniteNumber, n: Number)
    ensures Calculates(m, PLUS, a, b, n) <==> n == Sum(m.round, a, b)
    ensures Calculates(m, MINUS, a, b, n) <==> n == Difference(m.round, a, b)
  {
  }

  // ---------- texts ----------

  lemma PrecedesFirst(a: Text, b: Text)
    requires a != [] && b != []
    ensures Precedes(a, b) <==> a[0] < b[0] || (a[0] == b[0] && Precedes(a[1..], b[1..]))
  {
    if k: nat :| PrecedesAt(a, b, k) {
      if k > 0 {
        assert a[..k][0] == b[..k][0];
        assert a[1..][..k - 1] == a[..k][1..] && b[1..][..k - 1] == b[..k][1..];
        assert PrecedesAt(a[1..], b[1..], k - 1);
      }
    }
    if a[0] < b[0] { assert PrecedesAt(a, b, 0); }
    if k: nat :| a[0] == b[0] && PrecedesAt(a[1..], b[1..], k) {
      assert a[..k + 1] == [a[0]] + a[1..][..k] && b[..k + 1] == [b[0]] + b[1..][..k];
      assert PrecedesAt(a, b, k + 1);
    }
  }

  lemma {:induction false} TextLessIs(a: Text, b: Text)
    ensures TextLess(a, b) <==> Precedes(a, b)
    decreases |a|
  {
    if a != [] && b != [] {
      TextLessIs(a[1..], b[1..]);
      PrecedesFirst(a, b);
    } else if b != [] {
      assert PrecedesAt(a, b, 0);
    }
  }

  // ---------- operators ----------

  lemma PrefixIs(op: Text, v: Json, r: Outcome)
    requires IsUnary(op) && AllSafe(v)
    ensures Prefixes(op, v, r) <==> r == EvalUnary(op, v)
  {
    if v.Num? {
      NegatedIs(v.n, Negated(v.n));
      if r.Ok? && r.value.Num? { NegatedIs(v.n, r.value.n); }
    }
  }

  lemma CalculatedIs(m: Engine, op: Text, a: FiniteNumber, b: FiniteNumber, n: Number)
    requires IsArithmetic(op)
    ensures
      Calculates(m, op, a, b, n) <==>
      n == if op == PLUS then Sum(m.round, a, b)
           else if op == MINUS then Difference(m.round, a, b)
           else if op == TIMES then Product(m.round, a, b)
           else if op == DIVIDE then Quotient(m.round, a, b)
           else Remainder(a, b)
  {
    hide Sum, Difference, Product, Quotient, Remainder;
    SumIs(m, a, b, n);
    ProductIs(m, a, b, n);
    QuotientIs(m, a, b, n);
    if ValueOf(b) != 0.0 { RemainderIs(a, b, n); } else { RemainderOfZero(a, b); }
  }

  lemma RemainderOfZero(a: FiniteNumber, b: FiniteNumber)
    requires ValueOf(b) == 0.0
    ensures Remainder(a, b) == NaN
  {
  }

  lemma ArithmeticIs(m: Engine, op: Text, v: Json, w: Json, r: Outcome)
    requires IsArithmetic(op) && v.Num? && w.Num? && AllSafe(v) && AllSafe(w)
    ensures (exists n :: Calculates(m, op, v.n, w.n, n) && Reported(n, r)) <==> r == Arithmetic(m, op, v, w)
  {
    hide Calculates, Sum, Difference, Product, Quotient, Remainder;
    var result := if op == PLUS then Sum(m.round, v.n, w.n)
                  else if op == MINUS then Difference(m.round, v.n, w.n)
                  else if op == TIMES then Product(m.round, v.n, w.n)
                  else if op == DIVIDE then Quotient(m.round, v.n, w.n)
                  else Remainder(v.n, w.n);
    CalculatedIs(m, op, v.n, w.n, result);
    if n :| Calculates(m, op, v.n, w.n, n) && Reported(n, r) { CalculatedIs(m, op, v.n, w.n, n); }
  }

  lemma ComparedIs(op: Text, v: Json, w: Json, r: Outcome)
    requires IsComparison(op) && AllSafe(v) && AllSafe(w)
    ensures
      r == Compare(op, v, w) <==>
      || (v.Num? && w.Num? && r.Ok? && r.value.Bool?
          && var x, y := ValueOf(v.n), ValueOf(w.n); Compares(op, x < y, x == y, x > y, r.value.b))
      || (v.Str? && w.Str? && r.Ok? && r.value.Bool?
          && Compares(op, Precedes(v.text, w.text), v.text == w.text, Precedes(w.text, v.text), r.value.b))
      || (!(v.Num? && w.Num?) && !(v.Str? && w.Str?) && r == Err(ComparisonMismatch))
  {
    if v.Str? && w.Str? {
      TextLessIs(v.text, w.text);
      TextLessIs(w.text, v.text);
      TextOrder(v.text, w.text);
    }
  }

  lemma CombinesIs(m: Engine, op: Text, v: Json, w: Json, r: Outcome)
    requires ValidEngine(m) && IsOperator(op) && op != AND && op != OR && AllSafe(v) && AllSafe(w)
    ensures Combines(m, op, v, w, r) <==> r == EvalBinary(m, op, v, w)
  {
    hide Arithmetic, Compare, JsonEquals, TextLess, Precedes, Calculates, Reported;
    if op == EQUALS || op == DIFFERS {
      EqualsIsEquality(m, v, w);
    } else if IsComparison(op) {
      ComparedIs(op, v, w, r);
    } else if v.Num? && w.Num? {
      ArithmeticIs(m, op, v, w, r);
    } else {
      NotNumeric(m, op, v, w);
    }
  }

  lemma NotNumeric(m: Engine, op: Text, v: Json, w: Json)
    requires AllSafe(v) && AllSafe(w) && !(v.Num? && w.Num?)
    ensures Arithmetic(m, op, v, w) == Err(NumberRequired)
  {
  }

  // ---------- expressions ----------

  /** What the elements evaluate to, each for itself. */
  function ElementOutcomes(m: Engine, es: seq<Expr>, input: Json): (os: seq<Outcome>)
    requires FormedAll(es) && AllSafe(input)
    ensures |os| == |es|
  {
    if es == [] then [] else [Eval(m, es[0], input)] + ElementOutcomes(m, es[1..], input)
  }

  function EntryOutcomes(m: Engine, keys: set<Text>, es: seq<Entry>, input: Json): (os: seq<Outcome>)
    requires FormedEntries(keys, es) && AllSafe(input)
    ensures |os| == |es|
    decreases es
  {
    if es == [] then []
    else [Eval(m, es[0].value, input)] + EntryOutcomes(m, keys + {es[0].key}, es[1..], input)
  }

  lemma {:induction false} ElementOutcome(m: Engine, es: seq<Expr>, input: Json, i: nat)
    requires FormedAll(es) && AllSafe(input) && i < |es|
    ensures Formed(es[i]) && ElementOutcomes(m, es, input)[i] == Eval(m, es[i], input)
    decreases i
  {
    hide Eval;
    if i > 0 { ElementOutcome(m, es[1..], input, i - 1); }
  }

  lemma {:induction false} EntryOutcome(m: Engine, keys: set<Text>, es: seq<Entry>, input: Json, i: nat)
    requires FormedEntries(keys, es) && AllSafe(input) && i < |es|
    ensures Formed(es[i].value) && es[i].key !in keys
    ensures EntryOutcomes(m, keys, es, input)[i] == Eval(m, es[i].value, input)
    decreases i
  {
    hide Eval;
    if i > 0 { EntryOutcome(m, keys + {es[0].key}, es[1..], input, i - 1); }
  }

  lemma FirstErrorNow(o: Outcome, os: seq<Outcome>)
    requires o.Err?
    ensures FirstError([o] + os, o.error)
  {
    assert ([o] + os)[0] == o;
  }

  lemma FirstErrorLater(o: Outcome, os: seq<Outcome>, x: EvalError)
    requires o.Ok? && FirstError(os, x)
    ensures FirstError([o] + os, x)
  {
    var all := [o] + os;
    var i :| 0 <= i < |os| && os[i] == Err(x) && forall j | 0 <= j < i :: os[j].Ok?;
    assert all[i + 1] == Err(x) && forall j | 0 < j < i + 1 :: all[j] == os[j - 1];
  }

  lemma OneFirstError(os: seq<Outcome>, x: EvalError)
    requires FirstError(os, x)
    ensures exists i | 0 <= i < |os| :: os[i].Err?
    ensures forall y :: FirstError(os, y) ==> x == y
  {
  }

  ghost predicate AllValues(os: seq<Outcome>, vs: seq<Json>) {
    |os| == |vs| && forall i | 0 <= i < |os| :: os[i] == Ok(vs[i])
  }

  lemma EvalNone(m: Engine, input: Json)
    requires AllSafe(input)
    ensures EvalAll(m, [], input) == Ok([])
  {
  }

  lemma EvalAllFirst(m: Engine, es: seq<Expr>, input: Json)
    requires es != [] && FormedAll(es) && AllSafe(input)
    ensures
      match Eval(m, es[0], input)
      case Err(x) => EvalAll(m, es, input) == Err(x)
      case Ok(v) =>
        var vs := EvalAll(m, es[1..], input);
        if vs.Err? then EvalAll(m, es, input) == vs else EvalAll(m, es, input) == Ok([v] + vs.value)
  {
    hide Eval;
  }

  /** Evaluation from left to right gives all the values, or the first error. */
  lemma {:induction false} AllEvaluated(m: Engine, es: seq<Expr>, input: Json)
    requires FormedAll(es) && AllSafe(input)
    ensures
      var os := ElementOutcomes(m, es, input);
      match EvalAll(m, es, input)
      case Ok(vs) => AllValues(os, vs)
      case Err(x) => FirstError(os, x)
    decreases es
  {
    hide Eval, EvalAll, FirstError;
    if es == [] {
      assert EvalAll(m, es, input) == Ok([]) by { EvalNone(m, input); }
    } else {
      var o, os := Eval(m, es[0], input), ElementOutcomes(m, es[1..], input);
      assert ElementOutcomes(m, es, input) == [o] + os;
      AllEvaluated(m, es[1..], input);
      EvalAllFirst(m, es, input);
      if o.Err? {
        FirstErrorNow(o, os);
      } else if EvalAll(m, es[1..], input).Err? {
        FirstErrorLater(o, os, EvalAll(m, es[1..], input).error);
      }
    }
  }

  /** Where the loop over the entries stands at its end. */
  ghost predicate Filled(es: seq<Entry>, os: seq<Outcome>, fields: map<Text, Json>, all: map<Text, Json>)
    requires |es| == |os|
  {
    && (forall key <- fields :: key in all && all[key] == fields[key])
    && (forall key <- all :: key in fields || exists i | 0 <= i < |es| :: es[i].key == key)
    && (forall i | 0 <= i < |es| :: es[i].key in all && os[i] == Ok(all[es[i].key]))
  }

  lemma FilledLater(es: seq<Entry>, o: Outcome, os: seq<Outcome>, fields: map<Text, Json>, all: map<Text, Json>)
    requires es != [] && |es| == |os| + 1 && o.Ok? && es[0].key !in fields
    requires Filled(es[1..], os, fields[es[0].key := o.value], all)
    ensures Filled(es, [o] + os, fields, all)
  {
    forall key | key in all && key !in fields
      ensures exists i | 0 <= i < |es| :: es[i].key == key
    {
      if key == es[0].key {
      } else {
        var i :| 0 <= i < |es[1..]| && es[1..][i].key == key;
        assert es[i + 1].key == key;
      }
    }
    forall i | 0 <= i < |es|
      ensures es[i].key in all && ([o] + os)[i] == Ok(all[es[i].key])
    {
      if i > 0 { assert es[i] == es[1..][i - 1]; } else { assert es[0].key in fields[es[0].key := o.value]; }
    }
  }

  lemma {:induction false} EntriesEvaluated(m: Engine, keys: set<Text>, es: seq<Entry>, input: Json,
                                            fields: map<Text, Json>)
    requires FormedEntries(keys, es) && AllSafe(input) && fields.Keys == keys && AllSafe(Obj(fields))
    ensures
      var os := EntryOutcomes(m, keys, es, input);
      match EvalEntries(m, keys, es, input, fields)
      case Ok(all) => Filled(es, os, fields, all)
      case Err(x) => FirstError(os, x)
    decreases es
  {
    hide Eval, EvalEntries, FirstError, Filled;
    if es == [] {
      EntriesDone(m, keys, input, fields);
    } else {
      var o, os := Eval(m, es[0].value, input), EntryOutcomes(m, keys + {es[0].key}, es[1..], input);
      assert EntryOutcomes(m, keys, es, input) == [o] + os;
      EntryFirst(m, keys, es, input, fields);
      if o.Err? {
        FirstErrorNow(o, os);
      } else {
        var more := fields[es[0].key := o.value];
        EntriesEvaluated(m, keys + {es[0].key}, es[1..], input, more);
        var all := EvalEntries(m, keys + {es[0].key}, es[1..], input, more);
        if all.Ok? { FilledLater(es, o, os, fields, all.value); } else { FirstErrorLater(o, os, all.error); }
      }
    }
  }

  lemma EntriesDone(m: Engine, keys: set<Text>, input: Json, fields: map<Text, Json>)
    requires AllSafe(input) && fields.Keys == keys && AllSafe(Obj(fields))
    ensures EvalEntries(m, keys, [], input, fields) == Ok(fields) && Filled([], [], fields, fields)
  {
  }

  lemma NoFirstError(os: seq<Outcome>, x: EvalError)
    requires forall i | 0 <= i < |os| :: os[i].Ok?
    ensures !FirstError(os, x)
  {
  }

  /** Values and an error exclude each other, and the values determine the result. */
  lemma ArrayDetermined(os: seq<Outcome>, vs: seq<Json>, r: Outcome)
    requires AllValues(os, vs)
    ensures ArrayRule(os, r) <==> r == Ok(Arr(vs))
  {
    if r.Err? { NoFirstError(os, r.error); }
    if r.Ok? && ArrayRule(os, r) {
      var ws := r.value.elements;
      forall i | 0 <= i < |vs|
        ensures ws[i] == vs[i]
      {
        assert os[i] == Ok(vs[i]) && os[i] == Ok(ws[i]);
      }
      assert ws == vs;
    }
  }

  lemma ArrayFailed(os: seq<Outcome>, x: EvalError, r: Outcome)
    requires FirstError(os, x)
    ensures ArrayRule(os, r) <==> r == Err(x)
  {
    hide FirstError;
    OneFirstError(os, x);
  }

  lemma ArrayAgrees(m: Engine, es: seq<Expr>, input: Json, r: Outcome)
    requires Formed(Array(es)) && AllSafe(input)
    ensures ArrayRule(ElementOutcomes(m, es, input), r) <==> r == Eval(m, Array(es), input)
  {
    hide ElementOutcomes, EvalAll, FormedAll, FirstError, ArrayRule;
    AllEvaluated(m, es, input);
    var os, vs := ElementOutcomes(m, es, input), EvalAll(m, es, input);
    if vs.Err? { ArrayFailed(os, vs.error, r); } else { ArrayDetermined(os, vs.value, r); }
  }

  lemma ObjectDetermined(es: seq<Entry>, os: seq<Outcome>, all: map<Text, Json>, r: Outcome)
    requires |es| == |os| && Filled(es, os, map[], all)
    ensures ObjectRule(es, os, r) <==> r == Ok(Obj(all))
  {
    if r.Err? { NoFirstError(os, r.error); }
    if r.Ok? && ObjectRule(es, os, r) { SameFields(es, os, all, r.value.fields); }
  }

  lemma SameFields(es: seq<Entry>, os: seq<Outcome>, all: map<Text, Json>, fields: map<Text, Json>)
    requires |es| == |os| && Filled(es, os, map[], all) && ObjectRule(es, os, Ok(Obj(fields)))
    ensures fields == all
  {
    forall key
      ensures key in fields <==> key in all
      ensures key in fields ==> fields[key] == all[key]
    {
      if i :| 0 <= i < |es| && es[i].key == key {
        assert os[i] == Ok(all[key]) && os[i] == Ok(fields[key]);
      }
    }
  }

  lemma ObjectFailed(es: seq<Entry>, os: seq<Outcome>, x: EvalError, r: Outcome)
    requires |es| == |os| && FirstError(os, x)
    ensures ObjectRule(es, os, r) <==> r == Err(x)
  {
    hide FirstError;
    OneFirstError(os, x);
  }

  lemma ObjectAgrees(m: Engine, es: seq<Entry>, input: Json, r: Outcome)
    requires Formed(Object(es)) && AllSafe(input)
    ensures ObjectRule(es, EntryOutcomes(m, {}, es, input), r) <==> r == Eval(m, Object(es), input)
  {
    hide EntryOutcomes, EvalEntries, FormedEntries, FirstError, ObjectRule, Filled;
    EntriesEvaluated(m, {}, es, input, map[]);
    var os, all := EntryOutcomes(m, {}, es, input), EvalEntries(m, {}, es, input, map[]);
    if all.Err? { ObjectFailed(es, os, all.error, r); } else { ObjectDetermined(es, os, all.value, r); }
  }

  lemma UnaryAgrees(m: Engine, op: Text, x: Expr, input: Json, r: Outcome)
    requires Formed(Unary(op, x)) && AllSafe(input)
    ensures PrefixRule(op, Eval(m, x, input), r) <==> r == Eval(m, Unary(op, x), input)
  {
    hide Prefixes, EvalUnary, IsUnary;
    if Eval(m, x, input).Ok? { PrefixIs(op, Eval(m, x, input).value, r); }
  }

  lemma LazyAgrees(m: Engine, op: Text, x: Expr, y: Expr, input: Json, r: Outcome)
    requires (op == AND || op == OR) && Formed(x) && Formed(y) && IsBinary(op) && AllSafe(input)
    ensures InfixRule(m, op, Eval(m, x, input), Eval(m, y, input), r) <==> r == Eval(m, Binary(op, x, y), input)
  {
    hide Combines, EvalBinary, IsBinary, IsBinaryAt;
  }

  lemma StrictStep(m: Engine, op: Text, x: Expr, y: Expr, input: Json)
    requires op != AND && op != OR && Formed(x) && Formed(y) && IsBinary(op) && AllSafe(input)
    ensures
      var o, p := Eval(m, x, input), Eval(m, y, input);
      Eval(m, Binary(op, x, y), input)
      == if o.Err? then o else if p.Err? then p else EvalBinary(m, op, o.value, p.value)
  {
    hide EvalBinary, IsBinary, IsBinaryAt;
  }

  lemma StrictAgrees(m: Engine, op: Text, x: Expr, y: Expr, input: Json, r: Outcome)
    requires ValidEngine(m) && op != AND && op != OR && IsOperator(op)
    requires Formed(x) && Formed(y) && IsBinary(op) && AllSafe(input)
    ensures InfixRule(m, op, Eval(m, x, input), Eval(m, y, input), r) <==> r == Eval(m, Binary(op, x, y), input)
  {
    hide Combines, EvalBinary, Eval, IsBinary, IsBinaryAt, IsOperator, ValidEngine;
    var o, p := Eval(m, x, input), Eval(m, y, input);
    StrictStep(m, op, x, y, input);
    if o.Ok? && p.Ok? { CombinesIs(m, op, o.value, p.value, r); }
  }

  lemma BinaryAgrees(m: Engine, op: Text, x: Expr, y: Expr, input: Json, r: Outcome)
    requires ValidEngine(m) && Formed(Binary(op, x, y)) && AllSafe(input)
    ensures InfixRule(m, op, Eval(m, x, input), Eval(m, y, input), r) <==> r == Eval(m, Binary(op, x, y), input)
  {
    hide InfixRule, Eval, ValidEngine;
    if op == AND || op == OR { LazyAgrees(m, op, x, y, input, r); } else { StrictAgrees(m, op, x, y, input, r); }
  }

  lemma ConditionalAgrees(m: Engine, c: Expr, t: Expr, f: Expr, input: Json, r: Outcome)
    requires Formed(Conditional(c, t, f)) && AllSafe(input)
    ensures
      ChoiceRule(Eval(m, c, input), Eval(m, t, input), Eval(m, f, input), r) <==>
      r == Eval(m, Conditional(c, t, f), input)
  {
  }

  // ---------- the whole ----------

  ghost predicate Agrees(m: Engine, e: Expr, input: Json)
    requires Formed(e) && AllSafe(input)
  {
    forall r :: Evaluates(m, e, input, r) <==> r == Eval(m, e, input)
  }

  lemma UnaryMeaning(m: Engine, op: Text, x: Expr, input: Json, r: Outcome)
    ensures
      Evaluates(m, Unary(op, x), input, r) <==> exists o :: Evaluates(m, x, input, o) && PrefixRule(op, o, r)
  {
  }

  lemma BinaryMeaning(m: Engine, op: Text, x: Expr, y: Expr, input: Json, r: Outcome)
    ensures
      Evaluates(m, Binary(op, x, y), input, r) <==>
      exists o, p :: Evaluates(m, x, input, o) && Evaluates(m, y, input, p) && InfixRule(m, op, o, p, r)
  {
  }

  lemma ConditionalMeaning(m: Engine, c: Expr, t: Expr, f: Expr, input: Json, r: Outcome)
    ensures
      Evaluates(m, Conditional(c, t, f), input, r) <==>
      exists o, p, q ::
        Evaluates(m, c, input, o) && Evaluates(m, t, input, p) && Evaluates(m, f, input, q) && ChoiceRule(o, p, q, r)
  {
  }

  lemma ArrayMeaning(m: Engine, es: seq<Expr>, input: Json, r: Outcome)
    requires FormedAll(es) && AllSafe(input)
    requires forall i | 0 <= i < |es| :: Formed(es[i]) && Agrees(m, es[i], input)
    ensures Evaluates(m, Array(es), input, r) <==> ArrayRule(ElementOutcomes(m, es, input), r)
  {
    hide Eval, ElementOutcomes, Formed, FormedAll, ArrayRule;
    var all := ElementOutcomes(m, es, input);
    forall i | 0 <= i < |es|
      ensures all[i] == Eval(m, es[i], input)
    {
      ElementOutcome(m, es, input, i);
    }
    forall os: seq<Outcome> | |os| == |es| && forall i | 0 <= i < |es| :: Evaluates(m, es[i], input, os[i])
      ensures os == all
    {
    }
    assert forall i | 0 <= i < |es| :: Evaluates(m, es[i], input, all[i]);
  }

  lemma ObjectMeaning(m: Engine, es: seq<Entry>, input: Json, r: Outcome)
    requires FormedEntries({}, es) && AllSafe(input)
    requires forall i | 0 <= i < |es| :: Formed(es[i].value) && Agrees(m, es[i].value, input)
    ensures Evaluates(m, Object(es), input, r) <==> ObjectRule(es, EntryOutcomes(m, {}, es, input), r)
  {
    hide Eval, EntryOutcomes, Formed, FormedEntries, ObjectRule;
    var all := EntryOutcomes(m, {}, es, input);
    forall i | 0 <= i < |es|
      ensures all[i] == Eval(m, es[i].value, input)
    {
      EntryOutcome(m, {}, es, input, i);
    }
    forall os: seq<Outcome> | |os| == |es| && forall i | 0 <= i < |es| :: Evaluates(m, es[i].value, input, os[i])
      ensures os == all
    {
    }
    assert forall i | 0 <= i < |es| :: Evaluates(m, es[i].value, input, all[i]);
  }

  lemma ScalarAgrees(m: Engine, e: Expr, input: Json)
    requires (e.Literal? || e.Input?) && Formed(e) && AllSafe(input)
    ensures Agrees(m, e, input)
  {
  }

  /** Evaluation is sound and complete for the rules, errors included. */
  lemma {:induction false} EvaluationIsMeaning(m: Engine, e: Expr, input: Json, r: Outcome)
    requires ValidEngine(m) && Formed(e) && AllSafe(input)
    ensures Evaluates(m, e, input, r) <==> r == Eval(m, e, input)
    decreases e
  {
    hide Evaluates, Eval, PrefixRule, InfixRule, ChoiceRule, ArrayRule, ObjectRule, ElementOutcomes, EntryOutcomes;
    match e
    case Literal(_) => ScalarAgrees(m, e, input);
    case Input => ScalarAgrees(m, e, input);
    case Array(es) =>
      forall i | 0 <= i < |es|
        ensures Formed(es[i]) && Agrees(m, es[i], input)
      {
        ElementOutcome(m, es, input, i);
        forall r { EvaluationIsMeaning(m, es[i], input, r); }
      }
      ArrayMeaning(m, es, input, r);
      ArrayAgrees(m, es, input, r);
    case Object(es) =>
      forall i | 0 <= i < |es|
        ensures Formed(es[i].value) && Agrees(m, es[i].value, input)
      {
        EntryOutcome(m, {}, es, input, i);
        forall r { EvaluationIsMeaning(m, es[i].value, input, r); }
      }
      ObjectMeaning(m, es, input, r);
      ObjectAgrees(m, es, input, r);
    case Unary(op, x) =>
      forall r { EvaluationIsMeaning(m, x, input, r); }
      UnaryMeaning(m, op, x, input, r);
      UnaryAgrees(m, op, x, input, r);
    case Binary(op, x, y) =>
      forall r { EvaluationIsMeaning(m, x, input, r); }
      forall r { EvaluationIsMeaning(m, y, input, r); }
      BinaryMeaning(m, op, x, y, input, r);
      BinaryAgrees(m, op, x, y, input, r);
    case Conditional(c, t, f) =>
      forall r { EvaluationIsMeaning(m, c, input, r); }
      forall r { EvaluationIsMeaning(m, t, input, r); }
      forall r { EvaluationIsMeaning(m, f, input, r); }
      ConditionalMeaning(m, c, t, f, input, r);
      ConditionalAgrees(m, c, t, f, input, r);
  }

  /** A program takes strings and JSON-safe numbers only; on these its outcome is the one the rules give. */
  lemma ProgramMeaning(m: Engine, e: Expr, input: Json, r: Outcome)
    requires ValidEngine(m) && Formed(e)
    ensures
      Evaluate(m, e, input) == r <==>
      if input.Str? || (input.Num? && JsonSafe(input.n)) then Evaluates(m, e, input, r)
      else r == Err(if input.Num? then UnsafeResult else InvalidInput)
  {
    if AllSafe(input) { EvaluationIsMeaning(m, e, input, r); }
  }

  lemma ExactQuotient(x: real, y: real, q: real)
    requires y != 0.0 && y * q == x
    ensures x / y == q
  {
    Divided(x, y);
    Cancels(y, x / y, q);
  }

  lemma ExactResult(m: Engine, op: Text, a: FiniteNumber, b: FiniteNumber, exact: real)
    requires exact != 0.0 ==> m.round(exact) == Finite(exact)
    requires
      || (op == PLUS && ValueOf(a) + ValueOf(b) == exact)
      || (op == MINUS && ValueOf(a) - ValueOf(b) == exact)
      || (op == TIMES && ValueOf(a) * ValueOf(b) == exact)
      || (op == DIVIDE && ValueOf(b) != 0.0 && ValueOf(a) / ValueOf(b) == exact)
    ensures exists n :: Calculates(m, op, a, b, n) && IsFinite(n) && ValueOf(n) == exact
  {
    var negative := if op == PLUS then IsNegative(a) && IsNegative(b)
                    else if op == MINUS then IsNegative(a) && !IsNegative(b) else IsNegative(a) != IsNegative(b);
    var n := if exact != 0.0 then Finite(exact) else ZeroOf(negative);
    assert Rounded(m, exact, negative, n);
    if op == PLUS {
      assert Calculates(m, PLUS, a, b, n);
    } else if op == MINUS {
      assert Calculates(m, MINUS, a, b, n);
    } else if op == TIMES {
      assert Calculates(m, TIMES, a, b, n);
    } else {
      assert Calculates(m, DIVIDE, a, b, n);
    }
  }

  /** Arithmetic on integers is exact as long as the exact result is a safe integer that rounding keeps:
      `+`, `-` and `*` give it, and `/` gives the factor that makes up the dividend. */
  lemma ExactIntegers(m: Engine, op: Text, a: FiniteNumber, b: FiniteNumber, i: int)
    requires ValidEngine(m) && JsonSafe(a) && JsonSafe(b)
    requires -9007199254740991 <= i <= 9007199254740991 && m.round(i as real) == Finite(i as real)
    requires
      || (op == PLUS && ValueOf(a) + ValueOf(b) == i as real)
      || (op == MINUS && ValueOf(a) - ValueOf(b) == i as real)
      || (op == TIMES && ValueOf(a) * ValueOf(b) == i as real)
      || (op == DIVIDE && ValueOf(b) != 0.0 && ValueOf(b) * i as real == ValueOf(a))
    ensures
      var r := EvalBinary(m, op, Num(a), Num(b));
      r.Ok? && r.value.Num? && IsFinite(r.value.n) && ValueOf(r.value.n) == i as real
  {
    hide EvalBinary, Calculates, JsonSafe;
    if op == DIVIDE { ExactQuotient(ValueOf(a), ValueOf(b), i as real); }
    ExactResult(m, op, a, b, i as real);
    var n :| Calculates(m, op, a, b, n) && IsFinite(n) && ValueOf(n) == i as real;
    assert Reported(n, Ok(Num(n)));
    CombinesIs(m, op, Num(a), Num(b), Ok(Num(n)));
  }
}

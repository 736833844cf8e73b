/** Compiling source text to a program, the static check of option maps, and what a compiled program
    can answer. */
module CelCompiler {
  import opened Wrappers
  import opened CelText
  import opened CelTokenizer
  import opened CelLexing
  import opened JsonValues
  import opened CelParser
  import opened CelPrinter
  import opened CelParsed
  import opened CelRoundTrip
  import opened CelMisread
  import opened CelEvaluator
  import opened CelMeaning

  datatype CompileError = EmptySource | Lexing(lexError: LexError) | Parsing(parseError: ParseError) | NotAnObjectMap

  function ParseSource(g: Grammar, s: Text): Result<Expr, CompileError> {
    match TokensFrom(s, 0)
    case Err(e) => Err(Lexing(e))
    case Ok(ts) =>
      TokensTerminated(s);
      match ProgramFrom(g, Lexemes(ts))
      case Err(e) => Err(Parsing(e))
      case Ok(e) => Ok(e)
  }

  function Compile(g: Grammar, source: Text): Result<Expr, CompileError> {
    if Trim(source) == [] then Err(EmptySource) else ParseSource(g, Trim(source))
  }

  /** Every branch is an object literal. */
  predicate ObjectResult(e: Expr) {
    match e
    case Object(_) => true
    case Conditional(_, t, f) => ObjectResult(t) && ObjectResult(f)
    case _ => false
  }

  function CompileOptionMap(g: Grammar, source: Text): Result<Expr, CompileError> {
    match Compile(g, source)
    case Err(e) => Err(e)
    case Ok(e) => if ObjectResult(e) then Ok(e) else Err(NotAnObjectMap)
  }

  /** The tokenizer and the parser object, run one after the other. */
  method CompileSource(g: Grammar, source: Text) returns (r: Result<Expr, CompileError>)
    ensures r == Compile(g, source)
  {
    var normalized := Trim(source);
    if normalized == [] { return Err(EmptySource); }
    var tokens := Tokenize(normalized);
    if tokens.Err? { return Err(Lexing(tokens.error)); }
    TokensTerminated(normalized);
    var parser := new Parser(tokens.value, g);
    var expression := parser.Parse();
    if expression.Err? { return Err(Parsing(expression.error)); }
    return Ok(expression.value);
  }

  // ---------- programs ----------

  lemma {:induction false} LaidNumerals(s: Text, from: nat, ts: seq<Token>)
    requires Laid(s, from, ts)
    ensures Numerals(Lexemes(ts))
    decreases |ts|
  {
    assert Lexemes(ts)[1..] == Lexemes(ts[1..]);
    if |ts| > 1 {
      LaidNumerals(s, ts[0].end, ts[1..]);
      if ts[0].lexeme.kind == NumberLiteral { NumberTokenIsNumeral(s, ts[0].offset); }
    } else {
      assert Lexemes(ts[1..]) == [];
    }
  }

  lemma NumberTokenIsNumeral(s: Text, i: nat)
    requires i < |s| && TokenAt(s, i).Ok? && TokenAt(s, i).value.lexeme.kind == NumberLiteral
    ensures var t := TokenAt(s, i).value.lexeme.value; Numeral(t, 0, |t|)
  {
    var end := NumberEnd(s, i);
    NumberEndIsNumeral(s, i);
    var a: nat, b: nat :| NumeralParts(s, i, a, b, end);
    var t := s[i..end];
    assert forall k :: 0 <= k < |t| ==> t[k] == s[i + k];
    assert NumeralParts(t, 0, a - i, b - i, |t|);
  }

  /** Compiled expressions are well formed, and their numbers can be written again. */
  lemma CompiledIsFormed(nt: Notation, source: Text)
    requires Compile(nt.g, source).Ok?
    ensures Formed(Compile(nt.g, source).value)
    ensures Faithful(nt) ==> Denoted(nt, Compile(nt.g, source).value)
  {
    var s := Trim(source);
    var ts := TokensFrom(s, 0).value;
    TokensTerminated(s);
    TokensLaid(s, 0);
    LaidNumerals(s, 0, ts);
    ConditionalParsed(nt, Lexemes(ts));
  }

  /** The source text of an expression, with as few parentheses as precedence allows. */
  function Source(nt: Notation, e: Expr, quote: Unit): Text
    requires IsQuote(quote)
  {
    Render(Print(nt, 0, e), quote)
  }

  /** Writing an expression and compiling the text gives the same expression: if and only if no array
      starts with the string "]" and no object with the key "}". */
  lemma SourceRoundTrip(nt: Notation, e: Expr, quote: Unit)
    requires ValidGrammar(nt.g) && Formed(e) && Denoted(nt, e) && IsQuote(quote)
    ensures Compile(nt.g, Source(nt, e, quote)) == Ok(e) <==> Plain(nt, e)
  {
    hide Print, Plain, Render;
    var ls := Print(nt, 0, e);
    PrintPrintable(nt, 0, e);
    RenderEdges(ls, quote);
    RoundTripLexemes(ls, quote);
    assert Before(ls, [EOF]) == ls + [EOF];
    ParsePrinted(nt, e);
  }

  /** Likewise for whatever some source compiles to. */
  lemma RecompilePrinted(nt: Notation, source: Text, quote: Unit)
    requires ValidGrammar(nt.g) && Faithful(nt) && IsQuote(quote) && Compile(nt.g, source).Ok?
    ensures
      var e := Compile(nt.g, source).value;
      Compile(nt.g, Source(nt, e, quote)) == Ok(e) <==> Plain(nt, e)
  {
    CompiledIsFormed(nt, source);
    SourceRoundTrip(nt, Compile(nt.g, source).value, quote);
  }

  /** The array holding the string "]" is an expression that printing and parsing does not keep. */
  lemma ClosingStringIsLost(nt: Notation)
    requires ValidGrammar(nt.g)
    ensures
      var e := Array([Literal(Str(CLOSE_BRACKET))]);
      Formed(e) && ProgramFrom(nt.g, Before(Print(nt, 0, e), [EOF])) == Err(UnexpectedToken)
  {
    var e := Array([Literal(Str(CLOSE_BRACKET))]);
    var x := Literal(Str(CLOSE_BRACKET));
    var one, none: seq<Expr> := [x], [];
    assert one[1..] == none && FormedAll(none) && FormedAll(one);
    var ls: Stream := [Mark(OPEN_BRACKET), Lexeme(StringLiteral, CLOSE_BRACKET), Mark(CLOSE_BRACKET), EOF];
    assert PrintElements(nt, [x]) == [Lexeme(StringLiteral, CLOSE_BRACKET), Mark(CLOSE_BRACKET)];
    assert Before(Print(nt, 0, e), [EOF]) == ls;
    assert ls[1..][1..] == [Mark(CLOSE_BRACKET), EOF];
    var rest: Stream := [Mark(CLOSE_BRACKET), EOF];
    assert PrimaryFrom(nt.g, ls) == Ok((Array([]), rest));
    assert UnaryFrom(nt.g, ls) == Ok((Array([]), rest));
    assert LevelFrom(nt.g, 6, ls) == Ok((Array([]), rest));
    assert LevelFrom(nt.g, 5, ls) == Ok((Array([]), rest));
    assert LevelFrom(nt.g, 4, ls) == Ok((Array([]), rest));
    assert LevelFrom(nt.g, 3, ls) == Ok((Array([]), rest));
    assert LevelFrom(nt.g, 2, ls) == Ok((Array([]), rest));
    assert LevelFrom(nt.g, 1, ls) == Ok((Array([]), rest));
    assert LevelFrom(nt.g, 0, ls) == Ok((Array([]), rest));
  }

  /** The compiled program, with its own check of the result. */
  function RunOptionMap(m: Engine, e: Expr, input: Json): Outcome
    requires Formed(e)
  {
    match Evaluate(m, e, input)
    case Err(x) => Err(x)
    case Ok(v) => if v.Obj? then Ok(v) else Err(NotAnObject)
  }

  /** Where answering one condition after the other leads. */
  function Branch(e: Expr, answers: seq<bool>): Expr {
    if e.Conditional? && answers != [] then Branch(if answers[0] then e.whenTrue else e.whenFalse, answers[1..])
    else e
  }

  predicate EndsWell(e: Expr, answers: seq<bool>) {
    Branch(e, answers).Conditional? || Branch(e, answers).Object?
  }

  /** The static check lets exactly those expressions pass of which every branch that ends, whatever the
      conditions, is an object literal. */
  lemma {:induction false} ObjectResultIs(e: Expr)
    ensures ObjectResult(e) <==> forall answers :: EndsWell(e, answers)
  {
    assert Branch(e, []) == e && EndsWell(e, []) == (e.Conditional? || e.Object?);
    if e.Conditional? {
      ObjectResultIs(e.whenTrue);
      ObjectResultIs(e.whenFalse);
      forall answers: seq<bool>
        ensures EndsWell(e.whenTrue, answers) == EndsWell(e, [true] + answers)
        ensures EndsWell(e.whenFalse, answers) == EndsWell(e, [false] + answers)
      {
        assert ([true] + answers)[1..] == answers && ([false] + answers)[1..] == answers;
      }
      if answers :| !EndsWell(e, answers) {
        assert answers == [answers[0]] + answers[1..];
        assert !EndsWell(if answers[0] then e.whenTrue else e.whenFalse, answers[1..]);
      }
    } else {
      forall answers
        ensures EndsWell(e, answers) == e.Object?
      {
      }
    }
  }

  lemma {:induction false} ObjectResultHolds(m: Engine, e: Expr, input: Json)
    requires Formed(e) && AllSafe(input) && ObjectResult(e)
    ensures Eval(m, e, input).Ok? ==> Eval(m, e, input).value.Obj?
    decreases e
  {
    match e
    case Object(_) =>
    case Conditional(_, t, f) =>
      ObjectResultHolds(m, t, input);
      ObjectResultHolds(m, f, input);
  }

  /** A compiled option map, run on a string or a JSON-safe number, returns an object with JSON-safe
      numbers throughout or raises an operand or number error: the check of the result and the
      branch for unknown operators are never taken. */
  lemma OptionMapIsSound(m: Engine, nt: Notation, source: Text, input: Json)
    requires CompileOptionMap(nt.g, source).Ok? && (input.Str? || (input.Num? && JsonSafe(input.n)))
    ensures
      var e := CompileOptionMap(nt.g, source).value;
      Formed(e) && Compile(nt.g, source) == Ok(e) &&
      (ValidEngine(m) ==> Evaluates(m, e, input, RunOptionMap(m, e, input))) &&
      match RunOptionMap(m, e, input)
      case Ok(v) => v.Obj? && AllSafe(v)
      case Err(x) => IsOperandError(x)
  {
    hide Evaluates;
    CompiledIsFormed(nt, source);
    var e := CompileOptionMap(nt.g, source).value;
    ObjectResultHolds(m, e, input);
    if ValidEngine(m) { EvaluationIsMeaning(m, e, input, RunOptionMap(m, e, input)); }
  }

  /** A source is an option map exactly when it compiles and every branch of the expression that ends is an
      object literal. */
  lemma OptionMapsAre(g: Grammar, source: Text)
    ensures
      CompileOptionMap(g, source).Ok? <==>
      Compile(g, source).Ok? && forall answers :: EndsWell(Compile(g, source).value, answers)
    ensures Compile(g, source).Ok? && CompileOptionMap(g, source).Err? ==>
              CompileOptionMap(g, source) == Err(NotAnObjectMap)
  {
    if Compile(g, source).Ok? { ObjectResultIs(Compile(g, source).value); }
  }

  /** An object literal gives exactly its keys, each once. */
  lemma ObjectKeys(m: Engine, es: seq<Entry>, input: Json)
    requires Formed(Object(es)) && AllSafe(input) && Eval(m, Object(es), input).Ok?
    ensures
      var v := Eval(m, Object(es), input).value;
      v.Obj? && v.fields.Keys == Keys(es) && |v.fields| == |es|
  {
  }

  /** Conversely, what is neither an object literal nor a conditional never evaluates to an object. */
  lemma OthersAreNoObjects(m: Engine, e: Expr, input: Json)
    requires Formed(e) && (input.Str? || (input.Num? && JsonSafe(input.n))) && !e.Object? && !e.Conditional?
    ensures RunOptionMap(m, e, input).Err?
  {
  }
}

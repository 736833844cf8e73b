/** The parser: which expression a run of tokens denotes, and the cursor object that reads it. */
module CelParser {
  import opened Wrappers
  import opened CelText
  import opened CelTokenizer
  import opened JsonValues

  /** A literal's value is a string, number, boolean or null. */
  datatype Expr =
    | Literal(value: Json)
    | Input
    | Array(elements: seq<Expr>)
    | Object(entries: seq<Entry>)
    | Unary(operator: Text, operand: Expr)
    | Binary(operator: Text, left: Expr, right: Expr)
    | Conditional(condition: Expr, whenTrue: Expr, whenFalse: Expr)

  datatype Entry = Entry(key: Text, value: Expr)

  datatype ParseError =
    | MemberAccess | FunctionCall | UnexpectedToken | UnsafeNumber | UnknownIdentifier | KeyNotString | DuplicateKey
    | Expected(value: Text)

  /** The one variable an expression may name, and the value of a numeral. */
  datatype Grammar = Grammar(variable: Text, toNumber: Text -> Number)

  const TRUE: Text := [116, 114, 117, 101]
  const FALSE: Text := [102, 97, 108, 115, 101]
  const NULL: Text := [110, 117, 108, 108]

  /** What is left to read, always ending with eof. */
  type Stream = ls: seq<Lexeme> | ls != [] && ls[|ls| - 1] == EOF witness [EOF]

  type Reading = Result<(Expr, Stream), ParseError>

  /** Elements or entries up to a closing token. */
  type Listing<T> = Result<(seq<T>, Stream), ParseError>

  /** `read` is the whole list if the closing token comes now. */
  function Closed<T>(read: seq<T>, ls: Stream, close: Text): (r: Listing<T>)
    requires close != []
    ensures r.Ok? ==> |r.value.1| < |ls|
  {
    if ls[0].value == close then Ok((read, ls[1..])) else Err(Expected(close))
  }

  function Longer<T>(read: seq<T>, r: Listing<T>): (whole: Listing<T>)
    ensures read == [] ==> whole == r
    ensures r.Ok? ==> whole.Ok? && whole.value.1 == r.value.1
  {
    match r
    case Err(e) => Err(e)
    case Ok((xs, rest)) => assert [] + xs == xs; Ok((read + xs, rest))
  }

  lemma LongerTwice<T>(read: seq<T>, x: T, r: Listing<T>)
    ensures Longer(read, Longer([x], r)) == Longer(read + [x], r)
  {
    if r.Ok? { assert read + ([x] + r.value.0) == (read + [x]) + r.value.0; }
  }

  // ---------- specification ----------

  const UNARY_LEVEL: nat := 6

  /** The binary operators by precedence, loosest first. */
  predicate IsBinaryAt(level: nat, op: Text) {
    match level
    case 0 => op == OR
    case 1 => op == AND
    case 2 => op == EQUALS || op == DIFFERS
    case 3 => op == LESS || op == AT_MOST || op == GREATER || op == AT_LEAST
    case 4 => op == PLUS || op == MINUS
    case 5 => op == TIMES || op == DIVIDE || op == REMAINDER
    case _ => false
  }

  predicate IsUnary(op: Text) { op == NOT || op == MINUS || op == PLUS }

  function ConditionalFrom(g: Grammar, ls: Stream): (r: Reading)
    ensures r.Ok? ==> |r.value.1| < |ls|
    decreases |ls|, 10
  {
    match LevelFrom(g, 0, ls)
    case Err(e) => Err(e)
    case Ok((condition, rest)) =>
      if rest[0].value != QUESTION then Ok((condition, rest))
      else
        match ConditionalFrom(g, rest[1..])
        case Err(e) => Err(e)
        case Ok((whenTrue, rest)) =>
          if rest[0].value != COLON then Err(Expected(COLON))
          else
            match ConditionalFrom(g, rest[1..])
            case Err(e) => Err(e)
            case Ok((whenFalse, rest)) => Ok((Conditional(condition, whenTrue, whenFalse), rest))
  }

  /** An operand of level `level`; from level 6 on operands are unary. */
  function LevelFrom(g: Grammar, level: nat, ls: Stream): (r: Reading)
    requires level <= UNARY_LEVEL
    ensures r.Ok? ==> |r.value.1| < |ls|
    decreases |ls|, 9 - level
  {
    if level == UNARY_LEVEL then UnaryFrom(g, ls)
    else
      match LevelFrom(g, level + 1, ls)
      case Err(e) => Err(e)
      case Ok((left, rest)) => TailFrom(g, level, left, rest)
  }

  /** Operators of this level and their right operands, joined to the left. */
  function TailFrom(g: Grammar, level: nat, left: Expr, ls: Stream): (r: Reading)
    requires level < UNARY_LEVEL
    ensures r.Ok? ==> |r.value.1| <= |ls|
    decreases |ls|, 0
  {
    if ls[0].kind == Operator && IsBinaryAt(level, ls[0].value) then
      match LevelFrom(g, level + 1, ls[1..])
      case Err(e) => Err(e)
      case Ok((right, rest)) => TailFrom(g, level, Binary(ls[0].value, left, right), rest)
    else Ok((left, ls))
  }

  lemma LevelIs(g: Grammar, level: nat, ls: Stream)
    requires level <= UNARY_LEVEL
    ensures level == UNARY_LEVEL ==> LevelFrom(g, level, ls) == UnaryFrom(g, ls)
    ensures level < UNARY_LEVEL ==>
              var first := LevelFrom(g, level + 1, ls);
              && (first.Err? ==> LevelFrom(g, level, ls) == first)
              && (first.Ok? ==> LevelFrom(g, level, ls) == TailFrom(g, level, first.value.0, first.value.1))
  {
  }

  lemma TailIs(g: Grammar, level: nat, left: Expr, ls: Stream)
    requires level < UNARY_LEVEL
    ensures
      if ls[0].kind == Operator && IsBinaryAt(level, ls[0].value) then
        var right := LevelFrom(g, level + 1, ls[1..]);
        && (right.Err? ==> TailFrom(g, level, left, ls) == right)
        && (right.Ok? ==>
              TailFrom(g, level, left, ls)
              == TailFrom(g, level, Binary(ls[0].value, left, right.value.0), right.value.1))
      else TailFrom(g, level, left, ls) == Ok((left, ls))
  {
  }

  function UnaryFrom(g: Grammar, ls: Stream): (r: Reading)
    ensures r.Ok? ==> |r.value.1| < |ls|
    decreases |ls|, 2
  {
    if ls[0].kind == Operator && IsUnary(ls[0].value) then
      match UnaryFrom(g, ls[1..])
      case Err(e) => Err(e)
      case Ok((operand, rest)) => Ok((Unary(ls[0].value, operand), rest))
    else PrimaryFrom(g, ls)
  }

  /** What an identifier denotes. */
  function Named(g: Grammar, name: Text): Result<Expr, ParseError> {
    if name == g.variable then Ok(Input)
    else if name == TRUE || name == FALSE then Ok(Literal(Bool(name == TRUE)))
    else if name == NULL then Ok(Literal(Null))
    else Err(UnknownIdentifier)
  }

  function PrimaryFrom(g: Grammar, ls: Stream): (r: Reading)
    ensures r.Ok? ==> |r.value.1| < |ls|
    decreases |ls|, 1
  {
    var value := ls[0].value;
    match ls[0].kind
    case NumberLiteral =>
      if JsonSafe(g.toNumber(value)) then Ok((Literal(Num(g.toNumber(value))), ls[1..])) else Err(UnsafeNumber)
    case StringLiteral => Ok((Literal(Str(value)), ls[1..]))
    case Identifier =>
      if ls[1].value == OPEN_PAREN then Err(FunctionCall)
      else (match Named(g, value)
            case Err(e) => Err(e)
            case Ok(e) => Ok((e, ls[1..])))
    case Eof => Err(UnexpectedToken)
    case _ =>
      if value == OPEN_PAREN then
        match ConditionalFrom(g, ls[1..])
        case Err(e) => Err(e)
        case Ok((e, rest)) => if rest[0].value == CLOSE_PAREN then Ok((e, rest[1..])) else Err(Expected(CLOSE_PAREN))
      else if value == OPEN_BRACKET then ArrayFrom(g, ls[1..])
      else if value == OPEN_BRACE then ObjectFrom(g, ls[1..])
      else Err(UnexpectedToken)
  }

  function ArrayFrom(g: Grammar, ls: Stream): (r: Reading)
    ensures r.Ok? ==> |r.value.1| < |ls|
    decreases |ls|, 12
  {
    if ls[0].value == CLOSE_BRACKET then Ok((Array([]), ls[1..]))
    else
      match ElementsFrom(g, ls)
      case Err(e) => Err(e)
      case Ok((es, rest)) => Ok((Array(es), rest))
  }

  function ElementsFrom(g: Grammar, ls: Stream): (r: Listing<Expr>)
    ensures r.Ok? ==> |r.value.1| < |ls|
    decreases |ls|, 11
  {
    match ConditionalFrom(g, ls)
    case Err(e) => Err(e)
    case Ok((e, rest)) =>
      if rest[0].value == COMMA then Longer([e], ElementsFrom(g, rest[1..])) else Closed([e], rest, CLOSE_BRACKET)
  }

  function ObjectFrom(g: Grammar, ls: Stream): (r: Reading)
    ensures r.Ok? ==> |r.value.1| < |ls|
    decreases |ls|, 13
  {
    if ls[0].value == CLOSE_BRACE then Ok((Object([]), ls[1..]))
    else
      match EntriesFrom(g, {}, ls)
      case Err(e) => Err(e)
      case Ok((es, rest)) => Ok((Object(es), rest))
  }

  /** Entries up to the closing brace; `keys` are the keys already used. */
  function EntriesFrom(g: Grammar, keys: set<Text>, ls: Stream): (r: Listing<Entry>)
    ensures r.Ok? ==> |r.value.1| < |ls|
    decreases |ls|, 12
  {
    match EntryFrom(g, keys, ls)
    case Err(e) => Err(e)
    case Ok((entry, rest)) =>
      if rest[0].value == COMMA then Longer([entry], EntriesFrom(g, keys + {entry.key}, rest[1..]))
      else Closed([entry], rest, CLOSE_BRACE)
  }

  function EntryFrom(g: Grammar, keys: set<Text>, ls: Stream): (r: Result<(Entry, Stream), ParseError>)
    ensures r.Ok? ==> |r.value.1| < |ls|
    decreases |ls|, 11
  {
    if ls[0].kind != StringLiteral then Err(KeyNotString)
    else if ls[0].value in keys then Err(DuplicateKey)
    else if ls[1].value != COLON then Err(Expected(COLON))
    else
      match ConditionalFrom(g, ls[2..])
      case Err(e) => Err(e)
      case Ok((value, rest)) => Ok((Entry(ls[0].value, value), rest))
  }

  /** A whole program: one expression, then eof. */
  function ProgramFrom(g: Grammar, ls: Stream): Result<Expr, ParseError> {
    match ConditionalFrom(g, ls)
    case Err(e) => Err(e)
    case Ok((e, rest)) =>
      if rest[0].kind == Eof then Ok(e)
      else if rest[0].value == PERIOD then Err(MemberAccess)
      else if rest[0].value == OPEN_PAREN then Err(FunctionCall)
      else Err(UnexpectedToken)
  }

  // ---------- the trees a parse can give ----------

  predicate IsScalar(v: Json) {
    match v
    case Num(n) => JsonSafe(n)
    case Arr(_) => false
    case Obj(_) => false
    case _ => true
  }

  predicate IsBinary(op: Text) {
    exists level: nat | level < UNARY_LEVEL :: IsBinaryAt(level, op)
  }

  /** Literals are scalars and their numbers safe, operators are known, keys are distinct. */
  predicate Formed(e: Expr) {
    match e
    case Literal(v) => IsScalar(v)
    case Input => true
    case Array(es) => FormedAll(es)
    case Object(es) => FormedEntries({}, es)
    case Unary(op, x) => IsUnary(op) && Formed(x)
    case Binary(op, l, r) => IsBinary(op) && Formed(l) && Formed(r)
    case Conditional(c, t, f) => Formed(c) && Formed(t) && Formed(f)
  }

  predicate FormedAll(es: seq<Expr>) {
    es != [] ==> Formed(es[0]) && FormedAll(es[1..])
  }

  /** No key is in `keys` or occurs twice. */
  predicate FormedEntries(keys: set<Text>, es: seq<Entry>)
    decreases es
  {
    es != [] ==> es[0].key !in keys && Formed(es[0].value) && FormedEntries(keys + {es[0].key}, es[1..])
  }

  // ---------- the cursor object ----------

  /** What the tokenizer delivers: eof is the last token and no other. */
  ghost predicate Terminated(tokens: seq<Token>) {
    && tokens != [] && tokens[|tokens| - 1].lexeme == EOF
    && forall k :: 0 <= k < |tokens| - 1 ==> tokens[k].lexeme.kind != Eof
  }

  class Parser {
    const tokens: seq<Token>
    const g: Grammar
    var index: nat

    /** The cursor never passes eof. */
    ghost predicate Valid()
      reads this
    {
      index < |tokens| && Terminated(tokens)
    }

    ghost function Rest(): Stream
      reads this
      requires Valid()
    {
      Lexemes(tokens)[index..]
    }

    /** The object has read what the specification reads, and stands where it stops. */
    ghost predicate Read(spec: Reading, r: Result<Expr, ParseError>)
      reads this
    {
      Valid() &&
      match spec
      case Ok((e, rest)) => r == Ok(e) && Rest() == rest
      case Err(e) => r == Err(e)
    }

    constructor (tokens: seq<Token>, g: Grammar)
      requires Terminated(tokens)
      ensures Valid() && index == 0 && this.tokens == tokens && this.g == g
    {
      this.tokens, this.g, this.index := tokens, g, 0;
    }

    /** The index never runs past the tokens, so there is always a current one. */
    function Current(): (l: Lexeme)
      reads this
      requires Valid()
      ensures l == Rest()[0]
    {
      tokens[index].lexeme
    }

    method Advance() returns (l: Lexeme)
      requires Valid()
      modifies this
      ensures Valid() && l == old(Rest())[0]
      ensures if l.kind == Eof then index == old(index) else index == old(index) + 1 && Rest() == old(Rest())[1..]
    {
      l := Current();
      if l.kind != Eof { index := index + 1; }
    }

    /** Compares the value only, so a string token can pass for punctuation. */
    method Consume(value: Text) returns (consumed: bool)
      requires Valid() && value != []
      modifies this
      ensures Valid() && consumed == (old(Rest())[0].value == value)
      ensures if consumed then index == old(index) + 1 && Rest() == old(Rest())[1..] else index == old(index)
    {
      if Current().value != value { return false; }
      index := index + 1;
      return true;
    }

    method Parse() returns (r: Result<Expr, ParseError>)
      requires Valid() && index == 0
      modifies this
      ensures Valid() && r == ProgramFrom(g, Lexemes(tokens))
    {
      assert Rest() == Lexemes(tokens);
      r := ParseConditional();
      if r.Err? { return; }
      var trailing := Current();
      if trailing.kind != Eof {
        if trailing.value == PERIOD { return Err(MemberAccess); }
        if trailing.value == OPEN_PAREN { return Err(FunctionCall); }
        return Err(UnexpectedToken);
      }
    }

    method ParseConditional() returns (r: Result<Expr, ParseError>)
      requires Valid()
      modifies this
      ensures Read(ConditionalFrom(g, old(Rest())), r)
      ensures r.Ok? ==> old(index) < index
      decreases |tokens| - index, 10
    {
      var condition := ParseLevel(0);
      if condition.Err? { return condition; }
      var conditional := Consume(QUESTION);
      if !conditional { return condition; }
      var whenTrue := ParseConditional();
      if whenTrue.Err? { return whenTrue; }
      var colon := Consume(COLON);
      if !colon { return Err(Expected(COLON)); }
      var whenFalse := ParseConditional();
      if whenFalse.Err? { return whenFalse; }
      return Ok(Conditional(condition.value, whenTrue.value, whenFalse.value));
    }

    /** One precedence level: operands of the next level, joined from the left. */
    method ParseLevel(level: nat) returns (r: Result<Expr, ParseError>)
      requires Valid() && level <= UNARY_LEVEL
      modifies this
      ensures Read(LevelFrom(g, level, old(Rest())), r)
      ensures r.Ok? ==> old(index) < index
      decreases |tokens| - index, 9 - level
    {
      hide LevelFrom, TailFrom, UnaryFrom, Terminated, Lexemes;
      LevelIs(g, level, Rest());
      if level == UNARY_LEVEL {
        r := ParseUnary();
        return;
      }
      r := ParseLevel(level + 1);
      if r.Err? { return; }
      while Current().kind == Operator && IsBinaryAt(level, Current().value)
        invariant Valid() && r.Ok? && old(index) < index
        invariant TailFrom(g, level, r.value, Rest()) == LevelFrom(g, level, old(Rest()))
        decreases |tokens| - index
      {
        TailIs(g, level, r.value, Rest());
        var operator := Advance();
        var right := ParseLevel(level + 1);
        if right.Err? { return right; }
        r := Ok(Binary(operator.value, r.value, right.value));
      }
      TailIs(g, level, r.value, Rest());
    }

    method ParseUnary() returns (r: Result<Expr, ParseError>)
      requires Valid()
      modifies this
      ensures Read(UnaryFrom(g, old(Rest())), r)
      ensures r.Ok? ==> old(index) < index
      decreases |tokens| - index, 2
    {
      var token := Current();
      if token.kind == Operator && IsUnary(token.value) {
        var _ := Advance();
        var operand := ParseUnary();
        if operand.Err? { return operand; }
        return Ok(Unary(token.value, operand.value));
      }
      r := ParsePrimary();
    }

    method ParsePrimary() returns (r: Result<Expr, ParseError>)
      requires Valid()
      modifies this
      ensures Read(PrimaryFrom(g, old(Rest())), r)
      ensures r.Ok? ==> old(index) < index
      decreases |tokens| - index, 1
    {
      var token := Advance();
      if token.kind == NumberLiteral {
        var value := g.toNumber(token.value);
        if !JsonSafe(value) { return Err(UnsafeNumber); }
        return Ok(Literal(Num(value)));
      }
      if token.kind == StringLiteral { return Ok(Literal(Str(token.value))); }
      if token.kind == Identifier {
        if Current().value == OPEN_PAREN { return Err(FunctionCall); }
        return Named(g, token.value);
      }
      if token.value == OPEN_PAREN {
        r := ParseConditional();
        if r.Err? { return; }
        var closed := Consume(CLOSE_PAREN);
        if !closed { return Err(Expected(CLOSE_PAREN)); }
      } else if token.value == OPEN_BRACKET {
        r := ParseArray();
      } else if token.value == OPEN_BRACE {
        r := ParseObject();
      } else {
        return Err(UnexpectedToken);
      }
    }

    method ParseArray() returns (r: Result<Expr, ParseError>)
      requires Valid()
      modifies this
      ensures Read(ArrayFrom(g, old(Rest())), r)
      ensures r.Ok? ==> old(index) < index
      decreases |tokens| - index, 12
    {
      var elements: seq<Expr> := [];
      var empty := Consume(CLOSE_BRACKET);
      if empty { return Ok(Array([])); }
      var more := true;
      while more
        invariant Valid() && old(index) <= index
        invariant ElementsFrom(g, old(Rest())) ==
                    if more then Longer(elements, ElementsFrom(g, Rest())) else Closed(elements, Rest(), CLOSE_BRACKET)
        decreases more, |tokens| - index
      {
        var element := ParseConditional();
        if element.Err? { return element; }
        more := Consume(COMMA);
        if more { LongerTwice(elements, element.value, ElementsFrom(g, Rest())); }
        elements := elements + [element.value];
      }
      var closed := Consume(CLOSE_BRACKET);
      if !closed { return Err(Expected(CLOSE_BRACKET)); }
      return Ok(Array(elements));
    }

    method ParseObject() returns (r: Result<Expr, ParseError>)
      requires Valid()
      modifies this
      ensures Read(ObjectFrom(g, old(Rest())), r)
      ensures r.Ok? ==> old(index) < index
      decreases |tokens| - index, 12
    {
      var entries: seq<Entry> := [];
      var keys: set<Text> := {};
      var empty := Consume(CLOSE_BRACE);
      if empty { return Ok(Object([])); }
      var more := true;
      while more
        invariant Valid() && old(index) <= index
        invariant EntriesFrom(g, {}, old(Rest())) ==
                    if more then Longer(entries, EntriesFrom(g, keys, Rest())) else Closed(entries, Rest(), CLOSE_BRACE)
        decreases more, |tokens| - index
      {
        var entry := ParseEntry(keys);
        if entry.Err? { return Err(entry.error); }
        keys := keys + {entry.value.key};
        more := Consume(COMMA);
        if more { LongerTwice(entries, entry.value, EntriesFrom(g, keys, Rest())); }
        entries := entries + [entry.value];
      }
      var closed := Consume(CLOSE_BRACE);
      if !closed { return Err(Expected(CLOSE_BRACE)); }
      return Ok(Object(entries));
    }

    method ParseEntry(keys: set<Text>) returns (r: Result<Entry, ParseError>)
      requires Valid()
      modifies this
      ensures Valid()
      ensures
        match EntryFrom(g, keys, old(Rest()))
        case Ok((entry, rest)) => r == Ok(entry) && Rest() == rest && old(index) < index
        case Err(e) => r == Err(e)
      decreases |tokens| - index, 11
    {
      var key := Advance();
      if key.kind != StringLiteral { return Err(KeyNotString); }
      if key.value in keys { return Err(DuplicateKey); }
      var colon := Consume(COLON);
      if !colon { return Err(Expected(COLON)); }
      var value := ParseConditional();
      if value.Err? { return Err(value.error); }
      return Ok(Entry(key.value, value.value));
    }
  }
}

/** How operators group, stated with the operators themselves and not with the levels of the parser. */
module CelPrecedence {
  import opened Wrappers
  import opened CelText
  import opened CelTokenizer
  import opened JsonValues
  import opened CelParser

  ghost predicate OperandBefore(g: Grammar, ts: seq<Lexeme>, e: Expr, rest: Stream) {
    rest[0].value != OPEN_PAREN ==> UnaryFrom(g, ts + rest) == Ok((e, rest))
  }

  /** The tokens denote `e` wherever an operand may stand, whatever follows but an opening parenthesis. */
  ghost predicate Operand(g: Grammar, ts: seq<Lexeme>, e: Expr) {
    forall rest: Stream :: OperandBefore(g, ts, e, rest)
  }

  predicate IsOperator(op: Text) {
    || op == OR || op == AND || op == EQUALS || op == DIFFERS
    || op == LESS || op == AT_MOST || op == GREATER || op == AT_LEAST
    || op == PLUS || op == MINUS || op == TIMES || op == DIVIDE || op == REMAINDER
  }

  predicate IsMultiplicative(op: Text) { op == TIMES || op == DIVIDE || op == REMAINDER }

  predicate IsArithmetic(op: Text) { IsMultiplicative(op) || op == PLUS || op == MINUS }

  predicate IsComparison(op: Text) { op == LESS || op == AT_MOST || op == GREATER || op == AT_LEAST }

  predicate IsEquality(op: Text) { op == EQUALS || op == DIFFERS }

  /** || binds loosest, then &&, equality, comparison, sums, products. */
  predicate BindsTighter(q: Text, p: Text) {
    || (p == OR && q != OR)
    || (p == AND && (IsEquality(q) || IsComparison(q) || IsArithmetic(q)))
    || (IsEquality(p) && (IsComparison(q) || IsArithmetic(q)))
    || (IsComparison(p) && IsArithmetic(q))
    || ((p == PLUS || p == MINUS) && IsMultiplicative(q))
  }

  /** What can follow an expression that is over. */
  predicate Ends(rest: Stream) {
    rest[0].kind != Operator && rest[0].value != QUESTION && rest[0].value != OPEN_PAREN
  }

  ghost predicate ChoiceFreeBefore(g: Grammar, ts: seq<Lexeme>, e: Expr, rest: Stream) {
    rest[0].kind != Operator && rest[0].value != OPEN_PAREN ==> LevelFrom(g, 0, ts + rest) == Ok((e, rest))
  }

  /** The tokens are read as the condition of a conditional would be. */
  ghost predicate ChoiceFree(g: Grammar, ts: seq<Lexeme>, e: Expr) {
    forall rest: Stream :: ChoiceFreeBefore(g, ts, e, rest)
  }

  ghost predicate CompleteBefore(g: Grammar, ts: seq<Lexeme>, e: Expr, rest: Stream) {
    Ends(rest) ==> ConditionalFrom(g, ts + rest) == Ok((e, rest))
  }

  /** The tokens are read as the expression `e`, up to whatever ends an expression. */
  ghost predicate Complete(g: Grammar, ts: seq<Lexeme>, e: Expr) {
    forall rest: Stream :: CompleteBefore(g, ts, e, rest)
  }

  // ---------- operands ----------

  /** The token names the value: a safe number, a string, the variable, or one of three constants. */
  ghost predicate NamesValue(g: Grammar, l: Lexeme, e: Expr) {
    match l.kind
    case NumberLiteral => JsonSafe(g.toNumber(l.value)) && e == Literal(Num(g.toNumber(l.value)))
    case StringLiteral => e == Literal(Str(l.value))
    case Identifier =>
      if l.value == g.variable then e == Input
      else
        || (l.value == TRUE && e == Literal(Bool(true)))
        || (l.value == FALSE && e == Literal(Bool(false)))
        || (l.value == NULL && e == Literal(Null))
    case _ => false
  }

  lemma TokenOperand(g: Grammar, l: Lexeme, e: Expr)
    requires NamesValue(g, l, e)
    ensures Operand(g, [l], e)
  {
    forall rest: Stream
      ensures OperandBefore(g, [l], e, rest)
    {
      assert ([l] + rest)[1..] == rest;
    }
  }

  lemma ParenthesisIs(g: Grammar, ls: Stream, e: Expr, rest: Stream)
    requires ConditionalFrom(g, ls) == Ok((e, [Mark(CLOSE_PAREN)] + rest))
    ensures UnaryFrom(g, [Mark(OPEN_PAREN)] + ls) == Ok((e, rest))
  {
    hide ConditionalFrom;
    assert ([Mark(OPEN_PAREN)] + ls)[1..] == ls;
    assert ([Mark(CLOSE_PAREN)] + rest)[1..] == rest;
  }

  /** Any expression in parentheses. */
  lemma ParenthesisedOperand(g: Grammar, ts: seq<Lexeme>, e: Expr)
    requires Complete(g, ts, e)
    ensures Operand(g, [Mark(OPEN_PAREN)] + ts + [Mark(CLOSE_PAREN)], e)
  {
    hide ConditionalFrom, UnaryFrom;
    var whole := [Mark(OPEN_PAREN)] + ts + [Mark(CLOSE_PAREN)];
    forall rest: Stream
      ensures OperandBefore(g, whole, e, rest)
    {
      var closing: Stream := [Mark(CLOSE_PAREN)] + rest;
      assert CompleteBefore(g, ts, e, closing);
      ParenthesisIs(g, ts + closing, e, rest);
      assert whole + rest == [Mark(OPEN_PAREN)] + (ts + closing);
    }
  }

  lemma PrefixIs(g: Grammar, u: Text, ls: Stream, x: Expr, rest: Stream)
    requires (u == NOT || u == MINUS || u == PLUS) && UnaryFrom(g, ls) == Ok((x, rest))
    ensures UnaryFrom(g, [Op(u)] + ls) == Ok((Unary(u, x), rest))
  {
    hide PrimaryFrom;
    assert ([Op(u)] + ls)[1..] == ls;
  }

  /** Any operand after a prefix operator: these bind tighter than every operator between operands. */
  lemma PrefixOperand(g: Grammar, u: Text, ts: seq<Lexeme>, x: Expr)
    requires (u == NOT || u == MINUS || u == PLUS) && Operand(g, ts, x)
    ensures Operand(g, [Op(u)] + ts, Unary(u, x))
  {
    hide UnaryFrom;
    forall rest: Stream
      ensures OperandBefore(g, [Op(u)] + ts, Unary(u, x), rest)
    {
      assert OperandBefore(g, ts, x, rest);
      assert [Op(u)] + ts + rest == [Op(u)] + (ts + rest);
      if rest[0].value != OPEN_PAREN { PrefixIs(g, u, ts + rest, x, rest); }
    }
  }

  // ---------- one level ----------

  lemma UnaryIs(g: Grammar, ts: seq<Lexeme>, e: Expr, rest: Stream)
    requires Operand(g, ts, e) && rest[0].value != OPEN_PAREN
    ensures LevelFrom(g, UNARY_LEVEL, ts + rest) == Ok((e, rest))
  {
    assert OperandBefore(g, ts, e, rest);
    LevelIs(g, UNARY_LEVEL, ts + rest);
  }

  /** An operand followed by no operator of the levels low .. high is an operand of level low. */
  lemma {:induction false} Descend(g: Grammar, low: nat, high: nat, ls: Stream, e: Expr, rest: Stream)
    requires low <= high <= UNARY_LEVEL && LevelFrom(g, high, ls) == Ok((e, rest))
    requires rest[0].kind == Operator ==> forall k: nat :: low <= k < high ==> !IsBinaryAt(k, rest[0].value)
    ensures LevelFrom(g, low, ls) == Ok((e, rest))
    decreases high - low
  {
    hide LevelFrom, TailFrom, IsBinaryAt;
    if low < high {
      Descend(g, low + 1, high, ls, e, rest);
      LevelIs(g, low, ls);
      TailIs(g, low, e, rest);
    }
  }

  /** One operator with its right operand. */
  lemma Joined(g: Grammar, level: nat, left: Expr, op: Text, ls: Stream, right: Expr, rest: Stream)
    requires level < UNARY_LEVEL && IsBinaryAt(level, op) && LevelFrom(g, level + 1, ls) == Ok((right, rest))
    ensures TailFrom(g, level, left, [Op(op)] + ls) == TailFrom(g, level, Binary(op, left, right), rest)
  {
    hide LevelFrom, TailFrom, IsBinaryAt;
    TailIs(g, level, left, [Op(op)] + ls);
    assert ([Op(op)] + ls)[1..] == ls;
  }

  /** The one level of an operator. */
  function LevelOf(op: Text): (level: nat)
    requires IsOperator(op)
    ensures level < UNARY_LEVEL
    ensures forall k: nat :: IsBinaryAt(k, op) <==> k == level
  {
    if op == OR then 0
    else if op == AND then 1
    else if IsEquality(op) then 2
    else if IsComparison(op) then 3
    else if IsMultiplicative(op) then 5
    else 4
  }

  /** An operand of a level above the operator that follows it. */
  lemma LeftOf(g: Grammar, level: nat, ts: seq<Lexeme>, e: Expr, op: Text, ls: Stream)
    requires Operand(g, ts, e) && IsOperator(op) && LevelOf(op) < level <= UNARY_LEVEL
    ensures LevelFrom(g, level, ts + ([Op(op)] + ls)) == Ok((e, [Op(op)] + ls))
  {
    UnaryIs(g, ts, e, [Op(op)] + ls);
    Descend(g, level, UNARY_LEVEL, ts + ([Op(op)] + ls), e, [Op(op)] + ls);
  }

  lemma LastOperand(g: Grammar, level: nat, ts: seq<Lexeme>, e: Expr, rest: Stream)
    requires Operand(g, ts, e) && level <= UNARY_LEVEL && rest[0].value != OPEN_PAREN && rest[0].kind != Operator
    ensures LevelFrom(g, level, ts + rest) == Ok((e, rest))
  {
    UnaryIs(g, ts, e, rest);
    Descend(g, level, UNARY_LEVEL, ts + rest, e, rest);
  }

  /** What is left of an operator and its right operand, read at the level of the operator. */
  lemma Pair(g: Grammar, left: Expr, p: Text, ls: Stream, right: Expr, rest: Stream, from: Stream)
    requires IsOperator(p) && LevelFrom(g, LevelOf(p) + 1, from) == Ok((left, [Op(p)] + ls))
    requires LevelFrom(g, LevelOf(p) + 1, ls) == Ok((right, rest))
    ensures LevelFrom(g, LevelOf(p), from) == TailFrom(g, LevelOf(p), Binary(p, left, right), rest)
  {
    hide LevelFrom, TailFrom, IsBinaryAt;
    LevelIs(g, LevelOf(p), from);
    Joined(g, LevelOf(p), left, p, ls, right, rest);
  }

  /** An operator that does not belong to the level ends it. */
  lemma Stops(g: Grammar, level: nat, left: Expr, rest: Stream)
    requires level < UNARY_LEVEL && (rest[0].kind == Operator ==> !IsBinaryAt(level, rest[0].value))
    ensures TailFrom(g, level, left, rest) == Ok((left, rest))
  {
    hide LevelFrom, IsBinaryAt;
    TailIs(g, level, left, rest);
  }

  /** An operator and its right operand with nothing after them that could go on. */
  lemma PairAlone(g: Grammar, low: nat, left: Expr, p: Text, ls: Stream, right: Expr, rest: Stream, from: Stream)
    requires IsOperator(p) && low <= LevelOf(p)
    requires LevelFrom(g, LevelOf(p) + 1, from) == Ok((left, [Op(p)] + ls))
    requires LevelFrom(g, LevelOf(p) + 1, ls) == Ok((right, rest)) && rest[0].kind != Operator
    ensures LevelFrom(g, low, from) == Ok((Binary(p, left, right), rest))
  {
    hide LevelFrom, TailFrom, IsBinaryAt;
    Pair(g, left, p, ls, right, rest, from);
    Stops(g, LevelOf(p), Binary(p, left, right), rest);
    Descend(g, low, LevelOf(p), from, Binary(p, left, right), rest);
  }

  function Chain(a: seq<Lexeme>, p: Text, ls: Stream): Stream { a + ([Op(p)] + ls) }

  /** a p b, when nothing that binds tighter follows. */
  lemma Couple(g: Grammar, a: seq<Lexeme>, x: Expr, p: Text, b: seq<Lexeme>, y: Expr, rest: Stream)
    requires IsOperator(p) && Operand(g, a, x) && Operand(g, b, y) && rest[0].value != OPEN_PAREN
    requires rest[0].kind == Operator ==> IsOperator(rest[0].value) && LevelOf(rest[0].value) <= LevelOf(p)
    ensures LevelFrom(g, LevelOf(p) + 1, b + rest) == Ok((y, rest))
    ensures LevelFrom(g, LevelOf(p), Chain(a, p, b + rest)) == TailFrom(g, LevelOf(p), Binary(p, x, y), rest)
  {
    hide LevelFrom, TailFrom, IsBinaryAt, Operand;
    var level := LevelOf(p);
    UnaryIs(g, b, y, rest);
    Descend(g, level + 1, UNARY_LEVEL, b + rest, y, rest);
    LeftOf(g, level + 1, a, x, p, b + rest);
    Pair(g, x, p, b + rest, y, rest, Chain(a, p, b + rest));
  }

  /** a p b with nothing after it that could go on, read at any level up to that of the operator. */
  lemma CoupleAlone(g: Grammar, level: nat, a: seq<Lexeme>, x: Expr, p: Text, b: seq<Lexeme>, y: Expr, rest: Stream)
    requires IsOperator(p) && level <= LevelOf(p) && Operand(g, a, x) && Operand(g, b, y)
    requires rest[0].kind != Operator && rest[0].value != OPEN_PAREN
    ensures LevelFrom(g, level, Chain(a, p, b + rest)) == Ok((Binary(p, x, y), rest))
  {
    hide LevelFrom, TailFrom, IsBinaryAt, Operand;
    LastOperand(g, LevelOf(p) + 1, b, y, rest);
    LeftOf(g, LevelOf(p) + 1, a, x, p, b + rest);
    PairAlone(g, level, x, p, b + rest, y, rest, Chain(a, p, b + rest));
  }

  /** a p (b q c) when q binds tighter. */
  lemma GroupedRight(g: Grammar, a: seq<Lexeme>, x: Expr, p: Text, b: seq<Lexeme>, y: Expr, q: Text,
                     c: seq<Lexeme>, z: Expr, rest: Stream)
    requires IsOperator(p) && IsOperator(q) && LevelOf(p) < LevelOf(q)
    requires Operand(g, a, x) && Operand(g, b, y) && Operand(g, c, z)
    requires rest[0].kind != Operator && rest[0].value != OPEN_PAREN
    ensures LevelFrom(g, 0, Chain(a, p, Chain(b, q, c + rest))) == Ok((Binary(p, x, Binary(q, y, z)), rest))
  {
    hide LevelFrom, TailFrom, IsBinaryAt, Operand;
    var inner := Chain(b, q, c + rest);
    CoupleAlone(g, LevelOf(p) + 1, b, y, q, c, z, rest);
    LeftOf(g, LevelOf(p) + 1, a, x, p, inner);
    PairAlone(g, 0, x, p, inner, Binary(q, y, z), rest, Chain(a, p, inner));
  }

  /** (a p b) q c when q does not bind tighter. */
  lemma GroupedLeft(g: Grammar, a: seq<Lexeme>, x: Expr, p: Text, b: seq<Lexeme>, y: Expr, q: Text,
                    c: seq<Lexeme>, z: Expr, rest: Stream)
    requires IsOperator(p) && IsOperator(q) && LevelOf(q) <= LevelOf(p)
    requires Operand(g, a, x) && Operand(g, b, y) && Operand(g, c, z)
    requires rest[0].kind != Operator && rest[0].value != OPEN_PAREN
    ensures LevelFrom(g, 0, Chain(a, p, Chain(b, q, c + rest))) == Ok((Binary(q, Binary(p, x, y), z), rest))
  {
    hide LevelFrom, TailFrom, IsBinaryAt, Operand;
    var level := LevelOf(q);
    var next: Stream := [Op(q)] + (c + rest);
    var whole := Chain(a, p, b + next);
    var left, both := Binary(p, x, y), Binary(q, Binary(p, x, y), z);
    Couple(g, a, x, p, b, y, next);
    LastOperand(g, level + 1, c, z, rest);
    Joined(g, level, left, q, c + rest, z, rest);
    Stops(g, level, both, rest);
    if level < LevelOf(p) {
      Stops(g, LevelOf(p), left, next);
      Descend(g, level + 1, LevelOf(p), whole, left, next);
      LevelIs(g, level, whole);
    }
    Descend(g, 0, level, whole, both, rest);
  }

  // ---------- whole expressions ----------

  /** The tokens a p b q c. */
  function Pairs(a: seq<Lexeme>, p: Text, b: seq<Lexeme>, q: Text, c: seq<Lexeme>): seq<Lexeme> {
    a + [Op(p)] + b + [Op(q)] + c
  }

  /** The tokens of a chain, one after the other. */
  lemma PairsChain(a: seq<Lexeme>, p: Text, b: seq<Lexeme>, q: Text, c: seq<Lexeme>, rest: Stream)
    ensures Pairs(a, p, b, q, c) + rest == Chain(a, p, Chain(b, q, c + rest))
  {
  }

  /** How a p b q c groups. */
  function Grouped(p: Text, x: Expr, y: Expr, q: Text, z: Expr): Expr {
    if BindsTighter(q, p) then Binary(p, x, Binary(q, y, z)) else Binary(q, Binary(p, x, y), z)
  }

  lemma TighterIsHigher(p: Text, q: Text)
    requires IsOperator(p) && IsOperator(q)
    ensures BindsTighter(q, p) <==> LevelOf(p) < LevelOf(q)
  {
  }

  lemma GroupedBefore(g: Grammar, a: seq<Lexeme>, x: Expr, p: Text, b: seq<Lexeme>, y: Expr, q: Text,
                      c: seq<Lexeme>, z: Expr, rest: Stream)
    requires IsOperator(p) && IsOperator(q)
    requires Operand(g, a, x) && Operand(g, b, y) && Operand(g, c, z)
    ensures ChoiceFreeBefore(g, Pairs(a, p, b, q, c), Grouped(p, x, y, q, z), rest)
  {
    hide LevelFrom, IsBinaryAt, IsOperator, LevelOf, BindsTighter, Operand, Pairs, Chain;
    PairsChain(a, p, b, q, c, rest);
    TighterIsHigher(p, q);
    if rest[0].kind != Operator && rest[0].value != OPEN_PAREN {
      if BindsTighter(q, p) {
        GroupedRight(g, a, x, p, b, y, q, c, z, rest);
      } else {
        GroupedLeft(g, a, x, p, b, y, q, c, z, rest);
      }
    }
  }

  lemma Whole(g: Grammar, ts: seq<Lexeme>, e: Expr)
    requires ChoiceFree(g, ts, e)
    ensures Complete(g, ts, e)
  {
    hide LevelFrom;
    forall rest: Stream
      ensures CompleteBefore(g, ts, e, rest)
    {
      assert ChoiceFreeBefore(g, ts, e, rest);
    }
  }

  /** A complete expression and eof are a program. */
  lemma ProgramIs(g: Grammar, ts: seq<Lexeme>, e: Expr)
    requires Complete(g, ts, e)
    ensures ProgramFrom(g, ts + [EOF]) == Ok(e)
  {
    hide ConditionalFrom;
    assert CompleteBefore(g, ts, e, [EOF]);
  }

  /** Of two operators the one that binds tighter takes the operand between them, and of two that bind
      alike the first: as the condition of a conditional, and as a program. */
  lemma Grouping(g: Grammar, a: seq<Lexeme>, x: Expr, p: Text, b: seq<Lexeme>, y: Expr, q: Text,
                 c: seq<Lexeme>, z: Expr)
    requires IsOperator(p) && IsOperator(q)
    requires Operand(g, a, x) && Operand(g, b, y) && Operand(g, c, z)
    ensures ChoiceFree(g, Pairs(a, p, b, q, c), Grouped(p, x, y, q, z))
    ensures ProgramFrom(g, Pairs(a, p, b, q, c) + [EOF]) ==
              Ok(if BindsTighter(q, p) then Binary(p, x, Binary(q, y, z)) else Binary(q, Binary(p, x, y), z))
  {
    hide LevelFrom, IsOperator, ChoiceFreeBefore, BindsTighter, Operand, Pairs;
    forall rest: Stream
      ensures ChoiceFreeBefore(g, Pairs(a, p, b, q, c), Grouped(p, x, y, q, z), rest)
    {
      GroupedBefore(g, a, x, p, b, y, q, c, z, rest);
    }
    Whole(g, Pairs(a, p, b, q, c), Grouped(p, x, y, q, z));
    ProgramIs(g, Pairs(a, p, b, q, c), Grouped(p, x, y, q, z));
  }

  /** The tokens c ? t : f. */
  function Choice(c: seq<Lexeme>, t: seq<Lexeme>, f: seq<Lexeme>): seq<Lexeme> {
    c + [Mark(QUESTION)] + t + [Mark(COLON)] + f
  }

  lemma ChoiceIs(g: Grammar, ls: Stream, x: Expr, second: Stream, y: Expr, third: Stream, z: Expr, rest: Stream)
    requires LevelFrom(g, 0, ls) == Ok((x, [Mark(QUESTION)] + second))
    requires ConditionalFrom(g, second) == Ok((y, [Mark(COLON)] + third))
    requires ConditionalFrom(g, third) == Ok((z, rest))
    ensures ConditionalFrom(g, ls) == Ok((Conditional(x, y, z), rest))
  {
    hide LevelFrom;
    assert ([Mark(QUESTION)] + second)[1..] == second;
    assert ([Mark(COLON)] + third)[1..] == third;
  }

  /** Conditionals bind loosest and nest to the right: both branches may be conditionals themselves. */
  lemma ChoiceComplete(g: Grammar, c: seq<Lexeme>, x: Expr, t: seq<Lexeme>, y: Expr, f: seq<Lexeme>, z: Expr)
    requires ChoiceFree(g, c, x) && Complete(g, t, y) && Complete(g, f, z)
    ensures Complete(g, Choice(c, t, f), Conditional(x, y, z))
  {
    hide LevelFrom, ConditionalFrom;
    forall rest: Stream
      ensures CompleteBefore(g, Choice(c, t, f), Conditional(x, y, z), rest)
    {
      if Ends(rest) {
        var third: Stream := f + rest;
        var colon: Stream := [Mark(COLON)] + third;
        var second: Stream := t + colon;
        var question: Stream := [Mark(QUESTION)] + second;
        assert ChoiceFreeBefore(g, c, x, question) && CompleteBefore(g, t, y, colon) && CompleteBefore(g, f, z, rest);
        ChoiceIs(g, c + question, x, second, y, third, z, rest);
        assert Choice(c, t, f) + rest == c + question;
      }
    }
  }
}

/** The phrases of the language, one rule for each construct and none for precedence: the parser reads
    nothing else. */
module CelPhrases {
  import opened Wrappers
  import opened CelText
  import opened CelTokenizer
  import opened CelParser
  import opened CelPrecedence

  predicate IsMark(l: Lexeme, value: Text) {
    (l.kind == Operator || l.kind == Punctuation) && l.value == value
  }

  /** The tokens `ls` begin with a phrase for `e`, and `rest` is what follows it.  Inside a phrase separators
      are told by their value alone. */
  ghost predicate Phrase(g: Grammar, ls: Stream, e: Expr, rest: Stream)
    decreases |ls|, e, 1
  {
    || (NamesValue(g, ls[0], e) && rest == ls[1..] && (ls[0].kind == Identifier ==> rest[0].value != OPEN_PAREN))
    || (IsMark(ls[0], OPEN_PAREN)
        && exists close: Stream :: Phrase(g, ls[1..], e, close) && close[0].value == CLOSE_PAREN && rest == close[1..])
    || Compound(g, ls, e, rest)
  }

  ghost predicate Compound(g: Grammar, ls: Stream, e: Expr, rest: Stream)
    decreases |ls|, e, 0
  {
    match e
    case Literal(_) => false
    case Input => false
    case Unary(op, x) =>
      (op == NOT || op == MINUS || op == PLUS) && ls[0] == Op(op) && Phrase(g, ls[1..], x, rest)
    case Binary(op, x, y) =>
      IsOperator(op) &&
      exists next: Stream | 1 < |next| < |ls| ::
        Phrase(g, ls, x, next) && next[0] == Op(op) && Phrase(g, next[1..], y, rest)
    case Conditional(c, t, f) =>
      exists second: Stream, third: Stream | 1 < |second| < |ls| && 1 < |third| < |ls| ::
        && Phrase(g, ls, c, second) && second[0].value == QUESTION
        && Phrase(g, second[1..], t, third) && third[0].value == COLON
        && Phrase(g, third[1..], f, rest)
    case Array(es) =>
      IsMark(ls[0], OPEN_BRACKET) &&
      if es == [] then ls[1].value == CLOSE_BRACKET && rest == ls[2..] else Elements(g, ls[1..], es, rest)
    case Object(es) =>
      IsMark(ls[0], OPEN_BRACE) &&
      if es == [] then ls[1].value == CLOSE_BRACE && rest == ls[2..] else Entries(g, ls[1..], {}, es, rest)
  }

  /** One or more elements separated by commas, and the closing bracket. */
  ghost predicate Elements(g: Grammar, ls: Stream, es: seq<Expr>, rest: Stream)
    decreases |ls|, es, 2
  {
    es != [] &&
    exists next: Stream | 1 < |next| < |ls| ::
      && Phrase(g, ls, es[0], next)
      && if |es| == 1 then next[0].value == CLOSE_BRACKET && rest == next[1..]
         else next[0].value == COMMA && Elements(g, next[1..], es[1..], rest)
  }

  /** One or more entries with different keys, none of them in `keys`, and the closing brace. */
  ghost predicate Entries(g: Grammar, ls: Stream, keys: set<Text>, es: seq<Entry>, rest: Stream)
    decreases |ls|, es, 2
  {
    && es != [] && |ls| > 2 && ls[0] == Lexeme(StringLiteral, es[0].key) && es[0].key !in keys
    && ls[1].value == COLON
    && exists next: Stream | 1 < |next| < |ls| ::
         && Phrase(g, ls[2..], es[0].value, next)
         && if |es| == 1 then next[0].value == CLOSE_BRACE && rest == next[1..]
            else next[0].value == COMMA && Entries(g, next[1..], keys + {es[0].key}, es[1..], rest)
  }

  ghost predicate Reads(g: Grammar, ls: Stream, r: Reading) {
    r.Ok? ==> Phrase(g, ls, r.value.0, r.value.1)
  }

  lemma {:induction false} ConditionalReads(g: Grammar, ls: Stream)
    ensures Reads(g, ls, ConditionalFrom(g, ls))
    decreases |ls|, 10
  {
    hide LevelFrom, Phrase;
    LevelReads(g, 0, ls);
    var condition := LevelFrom(g, 0, ls);
    if condition.Ok? && condition.value.1[0].value == QUESTION {
      var second := condition.value.1;
      ConditionalReads(g, second[1..]);
      var yes := ConditionalFrom(g, second[1..]);
      if yes.Ok? && yes.value.1[0].value == COLON {
        var third := yes.value.1;
        ConditionalReads(g, third[1..]);
        var no := ConditionalFrom(g, third[1..]);
        if no.Ok? { ChoicePhrase(g, ls, condition.value.0, second, yes.value.0, third, no.value.0, no.value.1); }
      }
    }
  }

  lemma ChoicePhrase(g: Grammar, ls: Stream, c: Expr, second: Stream, t: Expr, third: Stream, f: Expr, rest: Stream)
    requires 1 < |second| < |ls| && 1 < |third| < |ls|
    requires Phrase(g, ls, c, second) && second[0].value == QUESTION
    requires Phrase(g, second[1..], t, third) && third[0].value == COLON
    requires Phrase(g, third[1..], f, rest)
    ensures Phrase(g, ls, Conditional(c, t, f), rest)
  {
    assert Compound(g, ls, Conditional(c, t, f), rest);
  }

  lemma PairPhrase(g: Grammar, ls: Stream, op: Text, x: Expr, next: Stream, y: Expr, rest: Stream)
    requires IsOperator(op) && 1 < |next| < |ls| && next[0] == Op(op)
    requires Phrase(g, ls, x, next) && Phrase(g, next[1..], y, rest)
    ensures Phrase(g, ls, Binary(op, x, y), rest)
  {
    assert Compound(g, ls, Binary(op, x, y), rest);
  }

  lemma KnownOperator(level: nat, op: Text)
    requires IsBinaryAt(level, op)
    ensures IsOperator(op)
  {
  }

  lemma {:induction false} LevelReads(g: Grammar, level: nat, ls: Stream)
    requires level <= UNARY_LEVEL
    ensures Reads(g, ls, LevelFrom(g, level, ls))
    decreases |ls|, 9 - level
  {
    hide LevelFrom, TailFrom, UnaryFrom, Phrase;
    LevelIs(g, level, ls);
    if level == UNARY_LEVEL {
      UnaryReads(g, ls);
    } else {
      LevelReads(g, level + 1, ls);
      var left := LevelFrom(g, level + 1, ls);
      if left.Ok? { TailReads(g, level, ls, left.value.0, left.value.1); }
    }
  }

  /** A chain that began at `ls` goes on. */
  lemma {:induction false} TailReads(g: Grammar, level: nat, ls: Stream, left: Expr, next: Stream)
    requires level < UNARY_LEVEL && |next| < |ls| && Phrase(g, ls, left, next)
    ensures Reads(g, ls, TailFrom(g, level, left, next))
    decreases |next|, 0
  {
    hide LevelFrom, TailFrom, IsBinaryAt, Phrase;
    TailIs(g, level, left, next);
    if next[0].kind == Operator && IsBinaryAt(level, next[0].value) {
      var op := next[0].value;
      KnownOperator(level, op);
      LevelReads(g, level + 1, next[1..]);
      var right := LevelFrom(g, level + 1, next[1..]);
      if right.Ok? {
        PairPhrase(g, ls, op, left, next, right.value.0, right.value.1);
        TailReads(g, level, ls, Binary(op, left, right.value.0), right.value.1);
      }
    }
  }

  lemma {:induction false} UnaryReads(g: Grammar, ls: Stream)
    ensures Reads(g, ls, UnaryFrom(g, ls))
    decreases |ls|, 2
  {
    hide PrimaryFrom, Phrase;
    if ls[0].kind == Operator && IsUnary(ls[0].value) {
      UnaryReads(g, ls[1..]);
      var operand := UnaryFrom(g, ls[1..]);
      if operand.Ok? { PrefixPhrase(g, ls, ls[0].value, operand.value.0, operand.value.1); }
    } else {
      PrimaryReads(g, ls);
    }
  }

  lemma PrefixPhrase(g: Grammar, ls: Stream, op: Text, x: Expr, rest: Stream)
    requires ls[0] == Op(op) && IsUnary(op) && Phrase(g, ls[1..], x, rest)
    ensures Phrase(g, ls, Unary(op, x), rest)
  {
    assert Compound(g, ls, Unary(op, x), rest);
  }

  lemma {:induction false} PrimaryReads(g: Grammar, ls: Stream)
    ensures Reads(g, ls, PrimaryFrom(g, ls))
    decreases |ls|, 1
  {
    hide ConditionalFrom, ArrayFrom, ObjectFrom, Phrase;
    if ls[0].kind == Operator || ls[0].kind == Punctuation {
      if ls[0].value == OPEN_PAREN {
        ConditionalReads(g, ls[1..]);
        var inner := ConditionalFrom(g, ls[1..]);
        if inner.Ok? && inner.value.1[0].value == CLOSE_PAREN {
          ParenPhrase(g, ls, inner.value.0, inner.value.1);
        }
      } else if ls[0].value == OPEN_BRACKET {
        ArrayReads(g, ls);
      } else if ls[0].value == OPEN_BRACE {
        ObjectReads(g, ls);
      }
    } else if PrimaryFrom(g, ls).Ok? {
      ValuePhrase(g, ls, PrimaryFrom(g, ls).value.0);
    }
  }

  lemma ValuePhrase(g: Grammar, ls: Stream, e: Expr)
    requires |ls| > 1 && NamesValue(g, ls[0], e) && (ls[0].kind == Identifier ==> ls[1].value != OPEN_PAREN)
    ensures Phrase(g, ls, e, ls[1..])
  {
  }

  lemma ParenPhrase(g: Grammar, ls: Stream, e: Expr, close: Stream)
    requires IsMark(ls[0], OPEN_PAREN) && |ls| > 1 && |close| > 1
    requires Phrase(g, ls[1..], e, close) && close[0].value == CLOSE_PAREN
    ensures Phrase(g, ls, e, close[1..])
  {
  }

  lemma {:induction false} ArrayReads(g: Grammar, ls: Stream)
    requires IsMark(ls[0], OPEN_BRACKET)
    ensures Reads(g, ls, ArrayFrom(g, ls[1..]))
    decreases |ls|, 0
  {
    hide ElementsFrom, Phrase, Elements;
    if ls[1].value != CLOSE_BRACKET {
      ElementsRead(g, ls[1..]);
      var es := ElementsFrom(g, ls[1..]);
      if es.Ok? { ArrayPhrase(g, ls, es.value.0, es.value.1); }
    } else {
      EmptyArrayPhrase(g, ls);
    }
  }

  lemma EmptyArrayPhrase(g: Grammar, ls: Stream)
    requires IsMark(ls[0], OPEN_BRACKET) && ls[1].value == CLOSE_BRACKET
    ensures Phrase(g, ls, Array([]), ls[1..][1..])
  {
    assert ls[1..][1..] == ls[2..];
    assert Compound(g, ls, Array([]), ls[2..]);
  }

  lemma ArrayPhrase(g: Grammar, ls: Stream, es: seq<Expr>, rest: Stream)
    requires IsMark(ls[0], OPEN_BRACKET) && |ls| > 1 && es != [] && Elements(g, ls[1..], es, rest)
    ensures Phrase(g, ls, Array(es), rest)
  {
    hide Elements;
    assert Compound(g, ls, Array(es), rest);
  }

  lemma {:induction false} ElementsRead(g: Grammar, ls: Stream)
    ensures
      var r := ElementsFrom(g, ls);
      r.Ok? ==> r.value.0 != [] && Elements(g, ls, r.value.0, r.value.1)
    decreases |ls|, 11
  {
    hide ConditionalFrom, Phrase, Elements;
    ConditionalReads(g, ls);
    var first := ConditionalFrom(g, ls);
    if first.Ok? {
      var (e, next) := first.value;
      if next[0].value == COMMA {
        ElementsRead(g, next[1..]);
        var others := ElementsFrom(g, next[1..]);
        if others.Ok? { MoreElements(g, ls, e, next, others.value.0, others.value.1); }
      } else if next[0].value == CLOSE_BRACKET {
        LastElement(g, ls, e, next);
      }
    }
  }

  lemma MoreElements(g: Grammar, ls: Stream, e: Expr, next: Stream, es: seq<Expr>, rest: Stream)
    requires 1 < |next| < |ls| && Phrase(g, ls, e, next) && next[0].value == COMMA
    requires es != [] && Elements(g, next[1..], es, rest)
    ensures Elements(g, ls, [e] + es, rest)
  {
    hide Phrase;
    assert ([e] + es)[1..] == es;
  }

  lemma LastElement(g: Grammar, ls: Stream, e: Expr, next: Stream)
    requires 1 < |next| < |ls| && Phrase(g, ls, e, next) && next[0].value == CLOSE_BRACKET
    ensures Elements(g, ls, [e], next[1..])
  {
    hide Phrase;
  }

  lemma {:induction false} ObjectReads(g: Grammar, ls: Stream)
    requires IsMark(ls[0], OPEN_BRACE)
    ensures Reads(g, ls, ObjectFrom(g, ls[1..]))
    decreases |ls|, 0
  {
    hide EntriesFrom, Phrase, Entries;
    if ls[1].value != CLOSE_BRACE {
      EntriesRead(g, {}, ls[1..]);
      var es := EntriesFrom(g, {}, ls[1..]);
      if es.Ok? { ObjectPhrase(g, ls, es.value.0, es.value.1); }
    } else {
      EmptyObjectPhrase(g, ls);
    }
  }

  lemma EmptyObjectPhrase(g: Grammar, ls: Stream)
    requires IsMark(ls[0], OPEN_BRACE) && ls[1].value == CLOSE_BRACE
    ensures Phrase(g, ls, Object([]), ls[1..][1..])
  {
    assert ls[1..][1..] == ls[2..];
    assert Compound(g, ls, Object([]), ls[2..]);
  }

  lemma ObjectPhrase(g: Grammar, ls: Stream, es: seq<Entry>, rest: Stream)
    requires IsMark(ls[0], OPEN_BRACE) && |ls| > 1 && es != [] && Entries(g, ls[1..], {}, es, rest)
    ensures Phrase(g, ls, Object(es), rest)
  {
    hide Entries;
    assert Compound(g, ls, Object(es), rest);
  }

  lemma {:induction false} EntriesRead(g: Grammar, keys: set<Text>, ls: Stream)
    ensures
      var r := EntriesFrom(g, keys, ls);
      r.Ok? ==> r.value.0 != [] && Entries(g, ls, keys, r.value.0, r.value.1)
    decreases |ls|, 12
  {
    hide ConditionalFrom, Phrase, Entries;
    if EntryFrom(g, keys, ls).Ok? {
      ConditionalReads(g, ls[2..]);
      var (entry, next) := EntryFrom(g, keys, ls).value;
      if next[0].value == COMMA {
        EntriesRead(g, keys + {entry.key}, next[1..]);
        var others := EntriesFrom(g, keys + {entry.key}, next[1..]);
        if others.Ok? { MoreEntries(g, keys, ls, entry, next, others.value.0, others.value.1); }
      } else if next[0].value == CLOSE_BRACE {
        LastEntry(g, keys, ls, entry, next);
      }
    }
  }

  lemma MoreEntries(g: Grammar, keys: set<Text>, ls: Stream, entry: Entry, next: Stream, es: seq<Entry>, rest: Stream)
    requires |ls| > 2 && ls[0] == Lexeme(StringLiteral, entry.key) && entry.key !in keys && ls[1].value == COLON
    requires 1 < |next| < |ls| && Phrase(g, ls[2..], entry.value, next) && next[0].value == COMMA
    requires es != [] && Entries(g, next[1..], keys + {entry.key}, es, rest)
    ensures Entries(g, ls, keys, [entry] + es, rest)
  {
    hide Phrase;
    assert ([entry] + es)[1..] == es;
  }

  lemma LastEntry(g: Grammar, keys: set<Text>, ls: Stream, entry: Entry, next: Stream)
    requires |ls| > 2 && ls[0] == Lexeme(StringLiteral, entry.key) && entry.key !in keys && ls[1].value == COLON
    requires 1 < |next| < |ls| && Phrase(g, ls[2..], entry.value, next) && next[0].value == CLOSE_BRACE
    ensures Entries(g, ls, keys, [entry], next[1..])
  {
    hide Phrase;
  }

  /** Only phrases are programs: whatever the parser accepts is one, up to the one token that is left, eof. */
  lemma ProgramIsPhrase(g: Grammar, ls: Stream)
    requires ProgramFrom(g, ls).Ok?
    ensures exists rest: Stream :: Phrase(g, ls, ProgramFrom(g, ls).value, rest) && rest[0].kind == Eof
  {
    hide ConditionalFrom, Phrase;
    ConditionalReads(g, ls);
    assert Phrase(g, ls, ConditionalFrom(g, ls).value.0, ConditionalFrom(g, ls).value.1);
  }

  /** After a complete expression there is nothing but eof: a dot is refused as a member access, an opening
      parenthesis never follows one, and anything else that cannot go on is refused as unexpected. */
  lemma TrailingRefused(g: Grammar, ts: seq<Lexeme>, e: Expr, rest: Stream)
    requires Complete(g, ts, e) && Ends(rest) && rest[0].kind != Eof
    ensures ProgramFrom(g, ts + rest) == Err(if rest[0].value == PERIOD then MemberAccess else UnexpectedToken)
  {
    hide ConditionalFrom;
    assert CompleteBefore(g, ts, e, rest);
  }
}

/** What every successful parse keeps: its tree is well formed, every string literal of the tree comes
    from a string token of its own, and its numbers have numerals. */
module CelParsed {
  import opened Wrappers
  import opened CelText
  import opened CelTokenizer
  import opened CelLexing
  import opened JsonValues
  import opened CelParser
  import opened CelPrinter

  function StringTokens(ls: seq<Lexeme>): nat {
    if ls == [] then 0 else (if ls[0].kind == StringLiteral then 1 else 0) + StringTokens(ls[1..])
  }

  /** String literals and object keys in the tree. */
  function Strings(e: Expr): nat {
    match e
    case Literal(v) => if v.Str? then 1 else 0
    case Input => 0
    case Array(es) => StringsAll(es)
    case Object(es) => StringsEntries(es)
    case Unary(_, x) => Strings(x)
    case Binary(_, l, r) => Strings(l) + Strings(r)
    case Conditional(c, t, f) => Strings(c) + Strings(t) + Strings(f)
  }

  function StringsAll(es: seq<Expr>): nat {
    if es == [] then 0 else Strings(es[0]) + StringsAll(es[1..])
  }

  function StringsEntries(es: seq<Entry>): nat {
    if es == [] then 0 else 1 + Strings(es[0].value) + StringsEntries(es[1..])
  }

  ghost predicate Numerals(ls: seq<Lexeme>) {
    ls != [] ==> (ls[0].kind == NumberLiteral ==> Numeral(ls[0].value, 0, |ls[0].value|)) && Numerals(ls[1..])
  }

  /** Whatever a numeral denotes can be shown. */
  ghost predicate Faithful(nt: Notation) {
    forall t: Text :: Numeral(t, 0, |t|) ==> Shows(nt, nt.g.toNumber(t))
  }

  ghost predicate Written(nt: Notation, ls: seq<Lexeme>) {
    Faithful(nt) && Numerals(ls)
  }

  /** Reading `ls` down to `rest` has used up at least `strings` string tokens. */
  ghost predicate Uses(nt: Notation, ls: Stream, strings: nat, rest: Stream) {
    strings + StringTokens(rest) <= StringTokens(ls) && (Written(nt, ls) ==> Written(nt, rest))
  }

  ghost predicate Parsed(nt: Notation, ls: Stream, r: Reading) {
    match r
    case Err(_) => true
    case Ok((e, rest)) => Formed(e) && Uses(nt, ls, Strings(e), rest) && (Written(nt, ls) ==> Denoted(nt, e))
  }

  /** The same for a loop that goes on from a left operand. */
  ghost predicate Extended(nt: Notation, left: Expr, ls: Stream, r: Reading) {
    match r
    case Err(_) => true
    case Ok((e, rest)) =>
      && (Formed(left) ==> Formed(e))
      && Strings(e) + StringTokens(rest) <= Strings(left) + StringTokens(ls)
      && (Written(nt, ls) ==> Written(nt, rest) && (Denoted(nt, left) ==> Denoted(nt, e)))
  }

  lemma {:induction false} ConditionalParsed(nt: Notation, ls: Stream)
    ensures Parsed(nt, ls, ConditionalFrom(nt.g, ls))
    decreases |ls|, 10
  {
    LevelParsed(nt, 0, ls);
    var condition := LevelFrom(nt.g, 0, ls);
    if condition.Ok? { BranchesParsed(nt, condition.value.0, condition.value.1); }
  }

  /** What follows a condition, if anything. */
  function BranchesFrom(g: Grammar, condition: Expr, ls: Stream): Reading {
    if ls[0].value != QUESTION then Ok((condition, ls))
    else
      match ConditionalFrom(g, ls[1..])
      case Err(e) => Err(e)
      case Ok((whenTrue, rest)) =>
        if rest[0].value != COLON then Err(Expected(COLON))
        else
          match ConditionalFrom(g, rest[1..])
          case Err(e) => Err(e)
          case Ok((whenFalse, rest)) => Ok((Conditional(condition, whenTrue, whenFalse), rest))
  }

  lemma {:induction false} BranchesParsed(nt: Notation, condition: Expr, ls: Stream)
    ensures Extended(nt, condition, ls, BranchesFrom(nt.g, condition, ls))
    decreases |ls|, 11
  {
    hide ConditionalFrom;
    if ls[0].value == QUESTION {
      ConditionalParsed(nt, ls[1..]);
      var yes := ConditionalFrom(nt.g, ls[1..]);
      if yes.Ok? && yes.value.1[0].value == COLON { ConditionalParsed(nt, yes.value.1[1..]); }
    }
  }

  lemma {:induction false} LevelParsed(nt: Notation, level: nat, ls: Stream)
    requires level <= UNARY_LEVEL
    ensures Parsed(nt, ls, LevelFrom(nt.g, level, ls))
    decreases |ls|, 9 - level
  {
    if level == UNARY_LEVEL {
      UnaryParsed(nt, ls);
    } else {
      LevelParsed(nt, level + 1, ls);
      var left := LevelFrom(nt.g, level + 1, ls);
      if left.Ok? { TailParsed(nt, level, left.value.0, left.value.1); }
    }
  }

  lemma {:induction false} TailParsed(nt: Notation, level: nat, left: Expr, ls: Stream)
    requires level < UNARY_LEVEL
    ensures Extended(nt, left, ls, TailFrom(nt.g, level, left, ls))
    decreases |ls|, 0
  {
    hide LevelFrom;
    if ls[0].kind == Operator && IsBinaryAt(level, ls[0].value) {
      LevelParsed(nt, level + 1, ls[1..]);
      var right := LevelFrom(nt.g, level + 1, ls[1..]);
      if right.Ok? { TailParsed(nt, level, Binary(ls[0].value, left, right.value.0), right.value.1); }
    }
  }

  lemma {:induction false} UnaryParsed(nt: Notation, ls: Stream)
    ensures Parsed(nt, ls, UnaryFrom(nt.g, ls))
    decreases |ls|, 2
  {
    if ls[0].kind == Operator && IsUnary(ls[0].value) {
      UnaryParsed(nt, ls[1..]);
    } else {
      PrimaryParsed(nt, ls);
    }
  }

  lemma {:induction false} PrimaryParsed(nt: Notation, ls: Stream)
    ensures Parsed(nt, ls, PrimaryFrom(nt.g, ls))
    decreases |ls|, 1
  {
    if ls[0].kind == Operator || ls[0].kind == Punctuation {
      if ls[0].value == OPEN_PAREN {
        ConditionalParsed(nt, ls[1..]);
      } else if ls[0].value == OPEN_BRACKET {
        ArrayParsed(nt, ls[1..]);
      } else if ls[0].value == OPEN_BRACE {
        ObjectParsed(nt, ls[1..]);
      }
    }
  }

  lemma {:induction false} ArrayParsed(nt: Notation, ls: Stream)
    ensures Parsed(nt, ls, ArrayFrom(nt.g, ls))
    decreases |ls|, 12
  {
    if ls[0].value != CLOSE_BRACKET { ElementsParsed(nt, ls); }
  }

  lemma {:induction false} ElementsParsed(nt: Notation, ls: Stream)
    ensures
      var r := ElementsFrom(nt.g, ls);
      r.Ok? ==> FormedAll(r.value.0) && Uses(nt, ls, StringsAll(r.value.0), r.value.1)
                && (Written(nt, ls) ==> DenotedAll(nt, r.value.0))
    decreases |ls|, 11
  {
    ConditionalParsed(nt, ls);
    var first := ConditionalFrom(nt.g, ls);
    if first.Ok? && first.value.1[0].value == COMMA {
      ElementsParsed(nt, first.value.1[1..]);
      var others := ElementsFrom(nt.g, first.value.1[1..]);
      if others.Ok? { assert ([first.value.0] + others.value.0)[1..] == others.value.0; }
    }
  }

  lemma {:induction false} ObjectParsed(nt: Notation, ls: Stream)
    ensures Parsed(nt, ls, ObjectFrom(nt.g, ls))
    decreases |ls|, 13
  {
    if ls[0].value != CLOSE_BRACE { EntriesParsed(nt, {}, ls); }
  }

  lemma {:induction false} EntriesParsed(nt: Notation, keys: set<Text>, ls: Stream)
    ensures
      var r := EntriesFrom(nt.g, keys, ls);
      r.Ok? ==> FormedEntries(keys, r.value.0) && Uses(nt, ls, StringsEntries(r.value.0), r.value.1)
                && (Written(nt, ls) ==> DenotedEntries(nt, r.value.0))
    decreases |ls|, 12
  {
    EntryParsed(nt, keys, ls);
    var first := EntryFrom(nt.g, keys, ls);
    if first.Ok? && first.value.1[0].value == COMMA {
      EntriesParsed(nt, keys + {first.value.0.key}, first.value.1[1..]);
      var others := EntriesFrom(nt.g, keys + {first.value.0.key}, first.value.1[1..]);
      if others.Ok? { assert ([first.value.0] + others.value.0)[1..] == others.value.0; }
    }
  }

  lemma {:induction false} EntryParsed(nt: Notation, keys: set<Text>, ls: Stream)
    ensures
      var r := EntryFrom(nt.g, keys, ls);
      r.Ok? ==> var (entry, rest) := r.value;
                entry.key !in keys && Formed(entry.value) && Uses(nt, ls, 1 + Strings(entry.value), rest)
                && (Written(nt, ls) ==> Denoted(nt, entry.value))
    decreases |ls|, 11
  {
    if EntryFrom(nt.g, keys, ls).Ok? {
      ConditionalParsed(nt, ls[2..]);
      assert ls[2..] == ls[1..][1..];
      assert Numerals(ls) ==> Numerals(ls[1..]) && Numerals(ls[1..][1..]);
      assert StringTokens(ls) == 1 + StringTokens(ls[1..]);
    }
  }
}

/** Printing, then tokenizing and parsing, gives the same tree: exactly for the trees the parser's
    value-only comparison of closing tokens does not mislead. */
module CelRoundTrip {
  import opened Wrappers
  import opened CelText
  import opened CelTokenizer
  import opened CelLexing
  import opened JsonValues
  import opened CelParser
  import opened CelPrinter

  /** The parse of an operand of level `min`, as Print counts levels. */
  function ReadAt(g: Grammar, min: nat, ls: Stream): Reading
    requires min <= 8
  {
    if min == 0 then ConditionalFrom(g, ls) else if min < 8 then LevelFrom(g, min - 1, ls) else PrimaryFrom(g, ls)
  }

  function Before(xs: seq<Lexeme>, rest: Stream): Stream {
    xs + rest
  }

  lemma BeforeConcat(xs: seq<Lexeme>, ys: seq<Lexeme>, rest: Stream)
    ensures Before(xs + ys, rest) == Before(xs, Before(ys, rest))
  {
    assert (xs + ys) + rest == xs + (ys + rest);
  }

  lemma BeforeCons(x: Lexeme, ys: seq<Lexeme>, rest: Stream)
    ensures Before([x] + ys, rest)[0] == x && Before([x] + ys, rest)[1..] == Before(ys, rest)
  {
  }

  lemma BeforeOne(x: Lexeme, rest: Stream)
    ensures Before([x], rest)[0] == x && Before([x], rest)[1..] == rest
  {
  }

  /** A token that neither extends an expression of level `min` nor turns it into a call. */
  predicate Stops(min: nat, l: Lexeme) {
    && l.value != OPEN_PAREN
    && (min == 0 ==> l.value != QUESTION)
    && (l.kind == Operator ==> Rank(l.value) == 0 || Rank(l.value) < min)
  }

  ghost predicate Sound(nt: Notation, e: Expr) {
    Formed(e) && Denoted(nt, e) && Plain(nt, e)
  }

  lemma TailStops(g: Grammar, min: nat, e: Expr, rest: Stream)
    requires 1 <= min <= 6 && Stops(min, rest[0])
    ensures TailFrom(g, min - 1, e, rest) == Ok((e, rest))
  {
  }

  lemma TailStep(g: Grammar, k: nat, l: Expr, op: Text, ls: Stream, r: Expr, rest: Stream)
    requires 1 <= k <= 6 && ls[0] == Op(op) && Rank(op) == k && ls[1..] != []
    requires ReadAt(g, k + 1, ls[1..]) == Ok((r, rest))
    ensures TailFrom(g, k - 1, l, ls) == TailFrom(g, k - 1, Binary(op, l, r), rest)
  {
  }

  /** Distance to the construct itself, first up to the parentheses if there are any. */
  function Steps(min: nat, e: Expr): nat
    requires min <= 8
  {
    if min <= Level(e) then Level(e) - min else 100 - min
  }

  lemma {:induction false} ReadPrinted(nt: Notation, min: nat, e: Expr, rest: Stream)
    requires ValidGrammar(nt.g) && Sound(nt, e) && min <= 8 && Stops(min, rest[0])
    ensures ReadAt(nt.g, min, Before(Print(nt, min, e), rest)) == Ok((e, rest))
    decreases e, Steps(min, e), 3
  {
    if min == Level(e) {
      ReadBare(nt, e, rest);
    } else if min < 8 {
      ReadPrinted(nt, min + 1, e, rest);
      ReadNext(nt, min, e, rest);
    } else {
      ReadParenthesized(nt, e, rest);
    }
  }

  /** From one level to the next when the construct does not sit at this level. */
  lemma ReadNext(nt: Notation, min: nat, e: Expr, rest: Stream)
    requires min < 8 && min != Level(e) && Stops(min, rest[0])
    requires ReadAt(nt.g, min + 1, Before(Print(nt, min + 1, e), rest)) == Ok((e, rest))
    ensures ReadAt(nt.g, min, Before(Print(nt, min, e), rest)) == Ok((e, rest))
  {
    assert Print(nt, min, e) == Print(nt, min + 1, e);
    if 1 <= min <= 6 {
      TailStops(nt.g, min, e, rest);
    } else if min == 7 {
      PrimaryStart(nt, e);
      var ls := Before(Print(nt, 8, e), rest);
      assert ls[0] == Print(nt, 8, e)[0];
      assert LevelFrom(nt.g, 6, ls) == UnaryFrom(nt.g, ls) == PrimaryFrom(nt.g, ls);
    }
  }

  /** What is printed where a primary stands does not start with an operator. */
  lemma PrimaryStart(nt: Notation, e: Expr)
    ensures Print(nt, 8, e)[0].kind != Operator
  {
  }

  lemma {:induction false} ReadParenthesized(nt: Notation, e: Expr, rest: Stream)
    requires ValidGrammar(nt.g) && Sound(nt, e) && Level(e) < 8
    ensures ReadAt(nt.g, 8, Before(Print(nt, 8, e), rest)) == Ok((e, rest))
    decreases e, Steps(8, e), 2
  {
    var inner := Bare(nt, e) + [Mark(CLOSE_PAREN)];
    assert Print(nt, 8, e) == [Mark(OPEN_PAREN)] + inner;
    BeforeCons(Mark(OPEN_PAREN), inner, rest);
    BeforeConcat(Bare(nt, e), [Mark(CLOSE_PAREN)], rest);
    BeforeOne(Mark(CLOSE_PAREN), rest);
    ReadPrinted(nt, 0, e, Before([Mark(CLOSE_PAREN)], rest));
  }

  lemma {:induction false} ReadBare(nt: Notation, e: Expr, rest: Stream)
    requires ValidGrammar(nt.g) && Sound(nt, e) && Stops(Level(e), rest[0])
    ensures ReadAt(nt.g, Level(e), Before(Print(nt, Level(e), e), rest)) == Ok((e, rest))
    decreases e, Steps(Level(e), e), 2
  {
    match e
    case Literal(v) => BeforeOne(Scalar(nt, v), rest);
    case Input => BeforeOne(Lexeme(Identifier, nt.g.variable), rest);
    case Array(es) => ReadArray(nt, es, rest);
    case Object(es) => ReadObject(nt, es, rest);
    case Unary(op, x) =>
      BeforeCons(Op(op), Print(nt, 7, x), rest);
      ReadPrinted(nt, 7, x, rest);
      var ls := Before(Bare(nt, e), rest);
      assert LevelFrom(nt.g, 6, ls) == UnaryFrom(nt.g, ls);
      assert LevelFrom(nt.g, 6, ls[1..]) == UnaryFrom(nt.g, ls[1..]);
    case Binary(op, l, r) =>
      ReadChain(nt, Rank(op), e, rest);
      TailStops(nt.g, Rank(op), e, rest);
    case Conditional(c, t, f) => ReadConditional(nt, c, t, f, rest);
  }

  /** The left operand of a binary operator is itself read by the loop of the same level. */
  lemma {:induction false} ReadChain(nt: Notation, k: nat, e: Expr, rest: Stream)
    requires ValidGrammar(nt.g) && Sound(nt, e) && 1 <= k <= 6 && Stops(k + 1, rest[0])
    ensures ReadAt(nt.g, k, Before(Print(nt, k, e), rest)) == TailFrom(nt.g, k - 1, e, rest)
    decreases e, Steps(k, e), 1
  {
    if k == Level(e) {
      ReadJoined(nt, e.operator, e.left, e.right, rest);
    } else {
      ReadPrinted(nt, k + 1, e, rest);
      assert Print(nt, k, e) == Print(nt, k + 1, e);
    }
  }

  lemma {:induction false} ReadJoined(nt: Notation, op: Text, l: Expr, r: Expr, rest: Stream)
    requires ValidGrammar(nt.g) && Sound(nt, Binary(op, l, r)) && Stops(Rank(op) + 1, rest[0])
    ensures
      ReadAt(nt.g, Rank(op), Before(Bare(nt, Binary(op, l, r)), rest))
      == TailFrom(nt.g, Rank(op) - 1, Binary(op, l, r), rest)
    decreases Binary(op, l, r), 0, 0
  {
    hide LevelFrom, ConditionalFrom, TailFrom, UnaryFrom, PrimaryFrom, Before;
    var k := Rank(op);
    var right := [Op(op)] + Print(nt, k + 1, r);
    BeforeConcat(Print(nt, k, l), right, rest);
    BeforeCons(Op(op), Print(nt, k + 1, r), rest);
    ReadChain(nt, k, l, Before(right, rest));
    ReadPrinted(nt, k + 1, r, rest);
    TailStep(nt.g, k, l, op, Before(right, rest), r, rest);
  }

  lemma ConditionalStep(g: Grammar, ls: Stream, c: Expr, yes: Stream, t: Expr, no: Stream, f: Expr, rest: Stream)
    requires LevelFrom(g, 0, ls) == Ok((c, yes)) && yes[0] == Mark(QUESTION) && yes[1..] != []
    requires ConditionalFrom(g, yes[1..]) == Ok((t, no)) && no[0] == Mark(COLON) && no[1..] != []
    requires ConditionalFrom(g, no[1..]) == Ok((f, rest))
    ensures ConditionalFrom(g, ls) == Ok((Conditional(c, t, f), rest))
  {
  }

  lemma {:induction false} ReadConditional(nt: Notation, c: Expr, t: Expr, f: Expr, rest: Stream)
    requires ValidGrammar(nt.g) && Sound(nt, c) && Sound(nt, t) && Sound(nt, f) && Stops(0, rest[0])
    ensures ConditionalFrom(nt.g, Before(Bare(nt, Conditional(c, t, f)), rest)) == Ok((Conditional(c, t, f), rest))
    decreases Conditional(c, t, f), 0, 0
  {
    hide LevelFrom, ConditionalFrom, Print, Before, Formed, Denoted, Plain;
    var no := Before([Mark(COLON)] + Print(nt, 0, f), rest);
    var yes := Before([Mark(QUESTION)] + (Print(nt, 0, t) + ([Mark(COLON)] + Print(nt, 0, f))), rest);
    BeforeCons(Mark(COLON), Print(nt, 0, f), rest);
    BeforeCons(Mark(QUESTION), Print(nt, 0, t) + ([Mark(COLON)] + Print(nt, 0, f)), rest);
    BeforeConcat(Print(nt, 0, t), [Mark(COLON)] + Print(nt, 0, f), rest);
    BeforeConcat(Print(nt, 1, c), [Mark(QUESTION)] + (Print(nt, 0, t) + ([Mark(COLON)] + Print(nt, 0, f))), rest);
    ReadPrinted(nt, 1, c, yes);
    ReadPrinted(nt, 0, t, no);
    ReadPrinted(nt, 0, f, rest);
    ConditionalStep(nt.g, Before(Bare(nt, Conditional(c, t, f)), rest), c, yes, t, no, f, rest);
  }

  lemma BracketStep(g: Grammar, ls: Stream, es: seq<Expr>, rest: Stream)
    requires ls[0] == Mark(OPEN_BRACKET) && ls[1..] != [] && ls[1].value != CLOSE_BRACKET
    requires ElementsFrom(g, ls[1..]) == Ok((es, rest))
    ensures PrimaryFrom(g, ls) == Ok((Array(es), rest))
  {
  }

  lemma {:induction false} ReadArray(nt: Notation, es: seq<Expr>, rest: Stream)
    requires ValidGrammar(nt.g) && Sound(nt, Array(es))
    ensures PrimaryFrom(nt.g, Before(Bare(nt, Array(es)), rest)) == Ok((Array(es), rest))
    decreases es, 1, 0
  {
    hide ConditionalFrom, LevelFrom, ElementsFrom;
    BeforeCons(Mark(OPEN_BRACKET), PrintElements(nt, es), rest);
    if es == [] {
      BeforeOne(Mark(CLOSE_BRACKET), rest);
    } else {
      ReadElements(nt, es, rest);
      assert PrintElements(nt, es)[0] == Print(nt, 0, es[0])[0];
      BracketStep(nt.g, Before(Bare(nt, Array(es)), rest), es, rest);
    }
  }

  /** One more element, then the comma and the others. */
  lemma ElementsStep(g: Grammar, ls: Stream, e: Expr, after: Stream, es: seq<Expr>, rest: Stream)
    requires ConditionalFrom(g, ls) == Ok((e, after)) && after[0] == Mark(COMMA)
    requires ElementsFrom(g, after[1..]) == Ok((es, rest))
    ensures ElementsFrom(g, ls) == Ok(([e] + es, rest))
  {
  }

  lemma ElementsLast(g: Grammar, ls: Stream, e: Expr, after: Stream)
    requires ConditionalFrom(g, ls) == Ok((e, after)) && after[0] == Mark(CLOSE_BRACKET)
    ensures ElementsFrom(g, ls) == Ok(([e], after[1..]))
  {
  }

  lemma {:induction false} ReadElements(nt: Notation, es: seq<Expr>, rest: Stream)
    requires ValidGrammar(nt.g) && es != [] && FormedAll(es) && DenotedAll(nt, es) && PlainAll(nt, es)
    ensures ElementsFrom(nt.g, Before(PrintElements(nt, es), rest)) == Ok((es, rest))
    decreases es, 0, 0
  {
    hide ConditionalFrom, ElementsFrom, Print, Bare, Before, Formed, Denoted, Plain;
    var tail := if |es| == 1 then [Mark(CLOSE_BRACKET)] else [Mark(COMMA)] + PrintElements(nt, es[1..]);
    var after := Before(tail, rest);
    var ls := Before(Print(nt, 0, es[0]), after);
    BeforeConcat(Print(nt, 0, es[0]), tail, rest);
    if |es| == 1 {
      BeforeOne(Mark(CLOSE_BRACKET), rest);
      ReadPrinted(nt, 0, es[0], after);
      ElementsLast(nt.g, ls, es[0], after);
      assert es == [es[0]];
    } else {
      BeforeCons(Mark(COMMA), PrintElements(nt, es[1..]), rest);
      ReadPrinted(nt, 0, es[0], after);
      ReadElements(nt, es[1..], rest);
      ElementsStep(nt.g, ls, es[0], after, es[1..], rest);
      assert es == [es[0]] + es[1..];
    }
  }

  lemma {:induction false} ReadObject(nt: Notation, es: seq<Entry>, rest: Stream)
    requires ValidGrammar(nt.g) && Sound(nt, Object(es))
    ensures PrimaryFrom(nt.g, Before(Bare(nt, Object(es)), rest)) == Ok((Object(es), rest))
    decreases es, 1, 0
  {
    hide ConditionalFrom, LevelFrom, EntriesFrom;
    BeforeCons(Mark(OPEN_BRACE), PrintEntries(nt, es), rest);
    if es == [] {
      BeforeOne(Mark(CLOSE_BRACE), rest);
    } else {
      ReadEntries(nt, {}, es, rest);
      assert PrintEntries(nt, es)[0] == PrintEntry(nt, es[0])[0];
      BraceStep(nt.g, Before(Bare(nt, Object(es)), rest), es, rest);
    }
  }

  lemma BraceStep(g: Grammar, ls: Stream, es: seq<Entry>, rest: Stream)
    requires ls[0] == Mark(OPEN_BRACE) && ls[1..] != [] && ls[1].value != CLOSE_BRACE
    requires EntriesFrom(g, {}, ls[1..]) == Ok((es, rest))
    ensures PrimaryFrom(g, ls) == Ok((Object(es), rest))
  {
  }

  lemma EntriesStep(g: Grammar, keys: set<Text>, ls: Stream, e: Entry, after: Stream, es: seq<Entry>, rest: Stream)
    requires EntryFrom(g, keys, ls) == Ok((e, after)) && after[0] == Mark(COMMA)
    requires EntriesFrom(g, keys + {e.key}, after[1..]) == Ok((es, rest))
    ensures EntriesFrom(g, keys, ls) == Ok(([e] + es, rest))
  {
  }

  lemma EntriesLast(g: Grammar, keys: set<Text>, ls: Stream, e: Entry, after: Stream)
    requires EntryFrom(g, keys, ls) == Ok((e, after)) && after[0] == Mark(CLOSE_BRACE)
    ensures EntriesFrom(g, keys, ls) == Ok(([e], after[1..]))
  {
  }

  ghost predicate SoundEntries(nt: Notation, keys: set<Text>, es: seq<Entry>) {
    FormedEntries(keys, es) && DenotedEntries(nt, es) && PlainEntries(nt, es)
  }

  lemma SoundFirst(nt: Notation, keys: set<Text>, es: seq<Entry>)
    requires SoundEntries(nt, keys, es) && es != []
    ensures Sound(nt, es[0].value) && es[0].key !in keys
    ensures SoundEntries(nt, keys + {es[0].key}, es[1..])
  {
  }

  /** A closing brace or a comma ends an entry. */
  lemma EntriesTail(nt: Notation, es: seq<Entry>, tail: seq<Lexeme>, rest: Stream)
    requires es != []
    requires tail == if |es| == 1 then [Mark(CLOSE_BRACE)] else [Mark(COMMA)] + PrintEntries(nt, es[1..])
    ensures PrintEntries(nt, es) == PrintEntry(nt, es[0]) + tail && Stops(0, Before(tail, rest)[0])
    ensures Before(tail, rest)[0] == if |es| == 1 then Mark(CLOSE_BRACE) else Mark(COMMA)
    ensures Before(tail, rest)[1..] == if |es| == 1 then rest else Before(PrintEntries(nt, es[1..]), rest)
  {
    if |es| == 1 {
      BeforeOne(Mark(CLOSE_BRACE), rest);
    } else {
      BeforeCons(Mark(COMMA), PrintEntries(nt, es[1..]), rest);
    }
  }

  lemma {:induction false} ReadEntries(nt: Notation, keys: set<Text>, es: seq<Entry>, rest: Stream)
    requires ValidGrammar(nt.g) && es != [] && SoundEntries(nt, keys, es)
    ensures EntriesFrom(nt.g, keys, Before(PrintEntries(nt, es), rest)) == Ok((es, rest))
    decreases es, 0, 0
  {
    hide EntryFrom, EntriesFrom, PrintEntries, PrintEntry, Before, Sound, SoundEntries, Stops;
    var tail := if |es| == 1 then [Mark(CLOSE_BRACE)] else [Mark(COMMA)] + PrintEntries(nt, es[1..]);
    var after := Before(tail, rest);
    var ls := Before(PrintEntry(nt, es[0]), after);
    SoundFirst(nt, keys, es);
    EntriesTail(nt, es, tail, rest);
    BeforeConcat(PrintEntry(nt, es[0]), tail, rest);
    ReadEntry(nt, keys, es[0], after);
    if |es| == 1 {
      EntriesLast(nt.g, keys, ls, es[0], after);
      assert es == [es[0]];
    } else {
      ReadEntries(nt, keys + {es[0].key}, es[1..], rest);
      EntriesStep(nt.g, keys, ls, es[0], after, es[1..], rest);
      assert es == [es[0]] + es[1..];
    }
  }

  lemma {:induction false} ReadEntry(nt: Notation, keys: set<Text>, entry: Entry, rest: Stream)
    requires ValidGrammar(nt.g) && Sound(nt, entry.value) && entry.key !in keys && Stops(0, rest[0])
    ensures EntryFrom(nt.g, keys, Before(PrintEntry(nt, entry), rest)) == Ok((entry, rest))
    decreases entry, 0, 0
  {
    var value := Print(nt, 0, entry.value);
    BeforeCons(Lexeme(StringLiteral, entry.key), [Mark(COLON)] + value, rest);
    BeforeCons(Mark(COLON), value, rest);
    ReadPrinted(nt, 0, entry.value, rest);
    EntryStep(nt.g, keys, Before(PrintEntry(nt, entry), rest), entry, rest);
  }

  lemma EntryStep(g: Grammar, keys: set<Text>, ls: Stream, entry: Entry, rest: Stream)
    requires |ls| > 2 && ls[0] == Lexeme(StringLiteral, entry.key) && ls[1..][0] == Mark(COLON) && entry.key !in keys
    requires ConditionalFrom(g, ls[1..][1..]) == Ok((entry.value, rest))
    ensures EntryFrom(g, keys, ls) == Ok((entry, rest))
  {
    assert ls[2..] == ls[1..][1..];
  }
}

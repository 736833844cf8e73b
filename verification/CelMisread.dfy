/** What happens to the trees that are not plain: some string token passes for a closing bracket or
    brace, so fewer string literals come back than were printed. */
module CelMisread {
  import opened Wrappers
  import opened CelText
  import opened CelTokenizer
  import opened CelLexing
  import opened JsonValues
  import opened CelParser
  import opened CelPrinter
  import opened CelParsed
  import opened CelRoundTrip

  lemma {:induction false} StringTokensConcat(xs: seq<Lexeme>, ys: seq<Lexeme>)
    ensures StringTokens(xs + ys) == StringTokens(xs) + StringTokens(ys)
    decreases |xs|
  {
    if xs == [] {
      assert xs + ys == ys;
    } else {
      StringTokensConcat(xs[1..], ys);
      assert (xs + ys)[1..] == xs[1..] + ys;
    }
  }

  lemma CountBefore(xs: seq<Lexeme>, rest: Stream)
    ensures StringTokens(Before(xs, rest)) == StringTokens(xs) + StringTokens(rest)
  {
    StringTokensConcat(xs, rest);
  }

  /** Printing writes one string token for each string of the tree. */
  lemma {:induction false} PrintStrings(nt: Notation, min: nat, e: Expr)
    requires Formed(e)
    ensures StringTokens(Print(nt, min, e)) == Strings(e)
    decreases e, 1
  {
    BareStrings(nt, e);
    StringTokensConcat([Mark(OPEN_PAREN)], Bare(nt, e));
    StringTokensConcat([Mark(OPEN_PAREN)] + Bare(nt, e), [Mark(CLOSE_PAREN)]);
  }

  lemma {:induction false} BareStrings(nt: Notation, e: Expr)
    requires Formed(e)
    ensures StringTokens(Bare(nt, e)) == Strings(e)
    decreases e, 0
  {
    hide Print;
    match e
    case Literal(_) =>
    case Input =>
    case Array(es) =>
      ElementsStrings(nt, es);
      StringTokensConcat([Mark(OPEN_BRACKET)], PrintElements(nt, es));
    case Object(es) =>
      EntriesStrings(nt, {}, es);
      StringTokensConcat([Mark(OPEN_BRACE)], PrintEntries(nt, es));
    case Unary(op, x) =>
      PrintStrings(nt, 7, x);
      StringTokensConcat([Op(op)], Print(nt, 7, x));
    case Binary(op, l, r) =>
      PrintStrings(nt, Rank(op), l);
      PrintStrings(nt, Rank(op) + 1, r);
      StringTokensConcat([Op(op)], Print(nt, Rank(op) + 1, r));
      StringTokensConcat(Print(nt, Rank(op), l), [Op(op)] + Print(nt, Rank(op) + 1, r));
    case Conditional(c, t, f) =>
      PrintStrings(nt, 1, c);
      PrintStrings(nt, 0, t);
      PrintStrings(nt, 0, f);
      ConditionalTokens(Print(nt, 1, c), Print(nt, 0, t), Print(nt, 0, f));
  }

  lemma ConditionalTokens(c: seq<Lexeme>, t: seq<Lexeme>, f: seq<Lexeme>)
    ensures
      StringTokens(c + ([Mark(QUESTION)] + (t + ([Mark(COLON)] + f))))
      == StringTokens(c) + StringTokens(t) + StringTokens(f)
  {
    var last := [Mark(COLON)] + f;
    StringTokensConcat([Mark(COLON)], f);
    StringTokensConcat(t, last);
    StringTokensConcat([Mark(QUESTION)], t + last);
    StringTokensConcat(c, [Mark(QUESTION)] + (t + last));
  }

  lemma {:induction false} ElementsStrings(nt: Notation, es: seq<Expr>)
    requires FormedAll(es)
    ensures StringTokens(PrintElements(nt, es)) == StringsAll(es)
    decreases es, 2
  {
    if es != [] {
      PrintStrings(nt, 0, es[0]);
      if |es| == 1 {
        StringTokensConcat(Print(nt, 0, es[0]), [Mark(CLOSE_BRACKET)]);
      } else {
        ElementsStrings(nt, es[1..]);
        StringTokensConcat([Mark(COMMA)], PrintElements(nt, es[1..]));
        StringTokensConcat(Print(nt, 0, es[0]), [Mark(COMMA)] + PrintElements(nt, es[1..]));
      }
    }
  }

  lemma {:induction false} EntriesStrings(nt: Notation, keys: set<Text>, es: seq<Entry>)
    requires FormedEntries(keys, es)
    ensures StringTokens(PrintEntries(nt, es)) == StringsEntries(es)
    decreases es, 2
  {
    if es != [] {
      EntryStrings(nt, es[0]);
      if |es| == 1 {
        StringTokensConcat(PrintEntry(nt, es[0]), [Mark(CLOSE_BRACE)]);
      } else {
        EntriesStrings(nt, keys + {es[0].key}, es[1..]);
        StringTokensConcat([Mark(COMMA)], PrintEntries(nt, es[1..]));
        StringTokensConcat(PrintEntry(nt, es[0]), [Mark(COMMA)] + PrintEntries(nt, es[1..]));
      }
    }
  }

  lemma {:induction false} EntryStrings(nt: Notation, entry: Entry)
    requires Formed(entry.value)
    ensures StringTokens(PrintEntry(nt, entry)) == 1 + Strings(entry.value)
    decreases entry, 2
  {
    var value := Print(nt, 0, entry.value);
    PrintStrings(nt, 0, entry.value);
    StringTokensConcat([Mark(COLON)], value);
    StringTokensConcat([Lexeme(StringLiteral, entry.key)], [Mark(COLON)] + value);
  }

  // ---------- a token lost is never found again ----------

  /** Fewer strings are left, in the tree and unread, than there were to read. */
  ghost predicate Lossy(ls: Stream, r: Reading) {
    r.Ok? ==> Strings(r.value.0) + StringTokens(r.value.1) < StringTokens(ls)
  }

  ghost predicate Tangled(nt: Notation, e: Expr) {
    Formed(e) && Denoted(nt, e) && !Plain(nt, e)
  }

  lemma {:induction false} Misread(nt: Notation, min: nat, e: Expr, rest: Stream)
    requires ValidGrammar(nt.g) && Tangled(nt, e) && min <= 8
    ensures Lossy(Before(Print(nt, min, e), rest), ReadAt(nt.g, min, Before(Print(nt, min, e), rest)))
    decreases e, Steps(min, e), 3
  {
    if min == Level(e) {
      MisreadBare(nt, e, rest);
    } else if min < 8 {
      Misread(nt, min + 1, e, rest);
      assert Print(nt, min, e) == Print(nt, min + 1, e);
      if min == 7 { PrimaryStart(nt, e); }
      LossyNext(nt, min, Before(Print(nt, min, e), rest));
    } else {
      MisreadParenthesized(nt, e, rest);
    }
  }

  lemma LossyNext(nt: Notation, min: nat, ls: Stream)
    requires min < 8 && Lossy(ls, ReadAt(nt.g, min + 1, ls))
    requires min == 7 ==> ls[0].kind != Operator
    ensures Lossy(ls, ReadAt(nt.g, min, ls))
  {
    var first := ReadAt(nt.g, min + 1, ls);
    if first.Ok? {
      var (e, rest) := first.value;
      if min == 0 {
        BranchesParsed(nt, e, rest);
        assert ConditionalFrom(nt.g, ls) == BranchesFrom(nt.g, e, rest);
      } else if min < 7 {
        TailParsed(nt, min - 1, e, rest);
      }
    }
    if min == 7 { assert LevelFrom(nt.g, 6, ls) == UnaryFrom(nt.g, ls) == PrimaryFrom(nt.g, ls); }
  }

  lemma {:induction false} MisreadParenthesized(nt: Notation, e: Expr, rest: Stream)
    requires ValidGrammar(nt.g) && Tangled(nt, e) && Level(e) < 8
    ensures Lossy(Before(Print(nt, 8, e), rest), PrimaryFrom(nt.g, Before(Print(nt, 8, e), rest)))
    decreases e, Steps(8, e), 2
  {
    var inner := Bare(nt, e) + [Mark(CLOSE_PAREN)];
    assert Print(nt, 8, e) == [Mark(OPEN_PAREN)] + inner;
    BeforeCons(Mark(OPEN_PAREN), inner, rest);
    BeforeConcat(Bare(nt, e), [Mark(CLOSE_PAREN)], rest);
    Misread(nt, 0, e, Before([Mark(CLOSE_PAREN)], rest));
  }

  lemma {:induction false} MisreadBare(nt: Notation, e: Expr, rest: Stream)
    requires ValidGrammar(nt.g) && Tangled(nt, e)
    ensures Lossy(Before(Print(nt, Level(e), e), rest), ReadAt(nt.g, Level(e), Before(Print(nt, Level(e), e), rest)))
    decreases e, Steps(Level(e), e), 2
  {
    match e
    case Array(es) => MisreadArray(nt, es, rest);
    case Object(es) => MisreadObject(nt, es, rest);
    case Unary(op, x) =>
      BeforeCons(Op(op), Print(nt, 7, x), rest);
      Misread(nt, 7, x, rest);
      var ls := Before(Bare(nt, e), rest);
      assert LevelFrom(nt.g, 6, ls) == UnaryFrom(nt.g, ls);
      assert LevelFrom(nt.g, 6, ls[1..]) == UnaryFrom(nt.g, ls[1..]);
    case Binary(op, l, r) => MisreadBinary(nt, op, l, r, rest);
    case Conditional(c, t, f) => MisreadConditional(nt, c, t, f, rest);
  }

  lemma {:induction false} MisreadBinary(nt: Notation, op: Text, l: Expr, r: Expr, rest: Stream)
    requires ValidGrammar(nt.g) && Tangled(nt, Binary(op, l, r))
    ensures
      var ls := Before(Bare(nt, Binary(op, l, r)), rest);
      Lossy(ls, ReadAt(nt.g, Rank(op), ls))
    decreases Binary(op, l, r), 0, 1
  {
    var k := Rank(op);
    var right := [Op(op)] + Print(nt, k + 1, r);
    var after := Before(right, rest);
    BeforeConcat(Print(nt, k, l), right, rest);
    if !Plain(nt, l) {
      Misread(nt, k, l, after);
    } else {
      BeforeCons(Op(op), Print(nt, k + 1, r), rest);
      ReadChain(nt, k, l, after);
      Misread(nt, k + 1, r, rest);
      LossyTail(nt, k, op, l, after);
      PrintStrings(nt, k, l);
      CountBefore(Print(nt, k, l), after);
    }
  }

  lemma LossyTail(nt: Notation, k: nat, op: Text, l: Expr, ls: Stream)
    requires 1 <= k <= 6 && ls[0] == Op(op) && Rank(op) == k && ls[1..] != []
    requires Lossy(ls[1..], ReadAt(nt.g, k + 1, ls[1..]))
    ensures
      var r := TailFrom(nt.g, k - 1, l, ls);
      r.Ok? ==> Strings(r.value.0) + StringTokens(r.value.1) < Strings(l) + StringTokens(ls)
  {
    var right := ReadAt(nt.g, k + 1, ls[1..]);
    if right.Ok? {
      TailParsed(nt, k - 1, Binary(op, l, right.value.0), right.value.1);
    }
  }

  lemma {:induction false} MisreadConditional(nt: Notation, c: Expr, t: Expr, f: Expr, rest: Stream)
    requires ValidGrammar(nt.g) && Tangled(nt, Conditional(c, t, f))
    ensures
      var ls := Before(Bare(nt, Conditional(c, t, f)), rest);
      Lossy(ls, ConditionalFrom(nt.g, ls))
    decreases Conditional(c, t, f), 0, 1
  {
    hide LevelFrom, ConditionalFrom, BranchesFrom, Print, Before;
    var branches := [Mark(QUESTION)] + (Print(nt, 0, t) + ([Mark(COLON)] + Print(nt, 0, f)));
    var yes := Before(branches, rest);
    BeforeCons(Mark(QUESTION), Print(nt, 0, t) + ([Mark(COLON)] + Print(nt, 0, f)), rest);
    BeforeConcat(Print(nt, 1, c), branches, rest);
    var ls := Before(Print(nt, 1, c), yes);
    assert Before(Bare(nt, Conditional(c, t, f)), rest) == ls;
    if !Plain(nt, c) {
      Misread(nt, 1, c, yes);
      LossyNext(nt, 0, ls);
    } else {
      ReadPrinted(nt, 1, c, yes);
      PrintStrings(nt, 1, c);
      CountBefore(Print(nt, 1, c), yes);
      MisreadBranches(nt, c, t, f, rest);
      ConditionalIsBranches(nt.g, ls, c, yes);
    }
  }

  lemma ConditionalIsBranches(g: Grammar, ls: Stream, c: Expr, yes: Stream)
    requires LevelFrom(g, 0, ls) == Ok((c, yes))
    ensures ConditionalFrom(g, ls) == BranchesFrom(g, c, yes)
  {
    hide LevelFrom;
  }

  lemma {:induction false} MisreadBranches(nt: Notation, c: Expr, t: Expr, f: Expr, rest: Stream)
    requires ValidGrammar(nt.g) && Formed(t) && Denoted(nt, t) && Formed(f) && Denoted(nt, f)
    requires !Plain(nt, t) || !Plain(nt, f)
    ensures
      var ls := Before([Mark(QUESTION)] + (Print(nt, 0, t) + ([Mark(COLON)] + Print(nt, 0, f))), rest);
      var r := BranchesFrom(nt.g, c, ls);
      r.Ok? ==> Strings(r.value.0) + StringTokens(r.value.1) < Strings(c) + StringTokens(ls)
    decreases Conditional(c, t, f), 0, 0
  {
    hide ConditionalFrom, BranchesFrom, Print, Before, Strings, StringTokens, Plain, Formed, Denoted;
    var no := Before([Mark(COLON)] + Print(nt, 0, f), rest);
    BeforeCons(Mark(COLON), Print(nt, 0, f), rest);
    BeforeCons(Mark(QUESTION), Print(nt, 0, t) + ([Mark(COLON)] + Print(nt, 0, f)), rest);
    BeforeConcat(Print(nt, 0, t), [Mark(COLON)] + Print(nt, 0, f), rest);
    if !Plain(nt, t) {
      Misread(nt, 0, t, no);
      LossyThen(nt, c, Before([Mark(QUESTION)] + (Print(nt, 0, t) + ([Mark(COLON)] + Print(nt, 0, f))), rest));
    } else {
      ReadPrinted(nt, 0, t, no);
      PrintStrings(nt, 0, t);
      CountBefore(Print(nt, 0, t), no);
      Misread(nt, 0, f, rest);
      LossyElse(nt, c, t, no, Before([Mark(QUESTION)] + (Print(nt, 0, t) + ([Mark(COLON)] + Print(nt, 0, f))), rest));
    }
  }

  lemma LossyElse(nt: Notation, c: Expr, t: Expr, no: Stream, ls: Stream)
    requires ls[0] == Mark(QUESTION) && ls[1..] != [] && ConditionalFrom(nt.g, ls[1..]) == Ok((t, no))
    requires StringTokens(ls[1..]) == Strings(t) + StringTokens(no)
    requires no[0] == Mark(COLON) && no[1..] != [] && Lossy(no[1..], ConditionalFrom(nt.g, no[1..]))
    ensures
      var r := BranchesFrom(nt.g, c, ls);
      r.Ok? ==> Strings(r.value.0) + StringTokens(r.value.1) < Strings(c) + StringTokens(ls)
  {
    hide ConditionalFrom;
  }

  lemma LossyThen(nt: Notation, c: Expr, ls: Stream)
    requires ls[0] == Mark(QUESTION) && Lossy(ls[1..], ConditionalFrom(nt.g, ls[1..]))
    ensures
      var r := BranchesFrom(nt.g, c, ls);
      r.Ok? ==> Strings(r.value.0) + StringTokens(r.value.1) < Strings(c) + StringTokens(ls)
  {
    var yes := ConditionalFrom(nt.g, ls[1..]);
    if yes.Ok? && yes.value.1[0].value == COLON { ConditionalParsed(nt, yes.value.1[1..]); }
  }

  /** The string "]" at the front of an array closes it. */
  lemma {:induction false} MisreadArray(nt: Notation, es: seq<Expr>, rest: Stream)
    requires ValidGrammar(nt.g) && Tangled(nt, Array(es))
    ensures
      var ls := Before(Bare(nt, Array(es)), rest);
      Lossy(ls, PrimaryFrom(nt.g, ls))
    decreases es, 1, 0
  {
    assert es != [] by { assert PlainAll(nt, []); }
    var ls := Before(PrintElements(nt, es), rest);
    BeforeCons(Mark(OPEN_BRACKET), PrintElements(nt, es), rest);
    assert PrintElements(nt, es)[0] == Print(nt, 0, es[0])[0];
    if ls[0].value == CLOSE_BRACKET {
      assert FormedAll(es) && DenotedAll(nt, es);
      FirstIsString(nt, 0, es[0]);
    } else {
      MisreadElements(nt, es, rest);
    }
  }

  /** Only a string token at the front of a printed expression can have the value "]". */
  lemma {:induction false} FirstIsString(nt: Notation, min: nat, e: Expr)
    requires ValidGrammar(nt.g) && Formed(e) && Denoted(nt, e) && Print(nt, min, e)[0].value == CLOSE_BRACKET
    ensures Print(nt, min, e)[0].kind == StringLiteral
    decreases e
  {
    if Level(e) >= min {
      match e
      case Literal(v) => if v.Num? { NumeralUnits(nt.show(v.n), 0, |nt.show(v.n)|, 0); }
      case Binary(op, l, _) => FirstIsString(nt, Rank(op), l);
      case Conditional(c, _, _) => FirstIsString(nt, 1, c);
      case _ =>
    }
  }

  ghost predicate LossyElements(ls: Stream, r: Listing<Expr>) {
    r.Ok? ==> StringsAll(r.value.0) + StringTokens(r.value.1) < StringTokens(ls)
  }

  lemma {:induction false} MisreadElements(nt: Notation, es: seq<Expr>, rest: Stream)
    requires ValidGrammar(nt.g) && FormedAll(es) && DenotedAll(nt, es) && !PlainAll(nt, es)
    ensures
      var ls := Before(PrintElements(nt, es), rest);
      LossyElements(ls, ElementsFrom(nt.g, ls))
    decreases es, 0, 0
  {
    var tail := if |es| == 1 then [Mark(CLOSE_BRACKET)] else [Mark(COMMA)] + PrintElements(nt, es[1..]);
    var after := Before(tail, rest);
    BeforeConcat(Print(nt, 0, es[0]), tail, rest);
    if !Plain(nt, es[0]) {
      Misread(nt, 0, es[0], after);
      LossyFirst(nt, Before(Print(nt, 0, es[0]), after));
    } else {
      BeforeCons(Mark(COMMA), PrintElements(nt, es[1..]), rest);
      ReadPrinted(nt, 0, es[0], after);
      MisreadElements(nt, es[1..], rest);
      PrintStrings(nt, 0, es[0]);
      CountBefore(Print(nt, 0, es[0]), after);
      LossyOthers(nt, Before(Print(nt, 0, es[0]), after), es[0], after);
    }
  }

  lemma LossyFirst(nt: Notation, ls: Stream)
    requires Lossy(ls, ConditionalFrom(nt.g, ls))
    ensures LossyElements(ls, ElementsFrom(nt.g, ls))
  {
    var first := ConditionalFrom(nt.g, ls);
    if first.Ok? && first.value.1[0].value == COMMA {
      ElementsParsed(nt, first.value.1[1..]);
      var others := ElementsFrom(nt.g, first.value.1[1..]);
      if others.Ok? { assert ([first.value.0] + others.value.0)[1..] == others.value.0; }
    }
  }

  lemma LossyOthers(nt: Notation, ls: Stream, e: Expr, after: Stream)
    requires ConditionalFrom(nt.g, ls) == Ok((e, after)) && after[0] == Mark(COMMA)
    requires StringTokens(ls) == Strings(e) + StringTokens(after)
    requires LossyElements(after[1..], ElementsFrom(nt.g, after[1..]))
    ensures LossyElements(ls, ElementsFrom(nt.g, ls))
  {
    var others := ElementsFrom(nt.g, after[1..]);
    if others.Ok? { assert ([e] + others.value.0)[1..] == others.value.0; }
  }

  ghost predicate LossyEntries(ls: Stream, r: Listing<Entry>) {
    r.Ok? ==> StringsEntries(r.value.0) + StringTokens(r.value.1) < StringTokens(ls)
  }

  lemma {:induction false} MisreadObject(nt: Notation, es: seq<Entry>, rest: Stream)
    requires ValidGrammar(nt.g) && Tangled(nt, Object(es))
    ensures
      var ls := Before(Bare(nt, Object(es)), rest);
      Lossy(ls, PrimaryFrom(nt.g, ls))
    decreases es, 1, 0
  {
    assert es != [] by { assert PlainEntries(nt, []); }
    BeforeCons(Mark(OPEN_BRACE), PrintEntries(nt, es), rest);
    assert PrintEntries(nt, es)[0] == PrintEntry(nt, es[0])[0];
    if es[0].key != CLOSE_BRACE { MisreadEntries(nt, {}, es, rest); }
  }

  lemma {:induction false} MisreadEntries(nt: Notation, keys: set<Text>, es: seq<Entry>, rest: Stream)
    requires ValidGrammar(nt.g) && FormedEntries(keys, es) && DenotedEntries(nt, es) && !PlainEntries(nt, es)
    ensures
      var ls := Before(PrintEntries(nt, es), rest);
      LossyEntries(ls, EntriesFrom(nt.g, keys, ls))
    decreases es, 0, 0
  {
    var tail := if |es| == 1 then [Mark(CLOSE_BRACE)] else [Mark(COMMA)] + PrintEntries(nt, es[1..]);
    var after := Before(tail, rest);
    var ls := Before(PrintEntry(nt, es[0]), after);
    BeforeConcat(PrintEntry(nt, es[0]), tail, rest);
    if !Plain(nt, es[0].value) {
      MisreadEntry(nt, keys, es[0], after);
      LossyFirstEntry(nt, keys, ls);
    } else {
      BeforeCons(Mark(COMMA), PrintEntries(nt, es[1..]), rest);
      ReadEntry(nt, keys, es[0], after);
      MisreadEntries(nt, keys + {es[0].key}, es[1..], rest);
      EntryStrings(nt, es[0]);
      CountBefore(PrintEntry(nt, es[0]), after);
      LossyOtherEntries(nt, keys, ls, es[0], after);
    }
  }

  ghost predicate LossyEntry(ls: Stream, r: Result<(Entry, Stream), ParseError>) {
    r.Ok? ==> 1 + Strings(r.value.0.value) + StringTokens(r.value.1) < StringTokens(ls)
  }

  lemma {:induction false} MisreadEntry(nt: Notation, keys: set<Text>, entry: Entry, rest: Stream)
    requires ValidGrammar(nt.g) && Tangled(nt, entry.value) && entry.key !in keys
    ensures
      var ls := Before(PrintEntry(nt, entry), rest);
      LossyEntry(ls, EntryFrom(nt.g, keys, ls))
    decreases entry, 0, 0
  {
    var value := Print(nt, 0, entry.value);
    var ls := Before(PrintEntry(nt, entry), rest);
    BeforeCons(Lexeme(StringLiteral, entry.key), [Mark(COLON)] + value, rest);
    BeforeCons(Mark(COLON), value, rest);
    Misread(nt, 0, entry.value, rest);
    assert ls[2..] == ls[1..][1..];
  }

  lemma LossyFirstEntry(nt: Notation, keys: set<Text>, ls: Stream)
    requires LossyEntry(ls, EntryFrom(nt.g, keys, ls))
    ensures LossyEntries(ls, EntriesFrom(nt.g, keys, ls))
  {
    var first := EntryFrom(nt.g, keys, ls);
    if first.Ok? && first.value.1[0].value == COMMA {
      EntriesParsed(nt, keys + {first.value.0.key}, first.value.1[1..]);
      var others := EntriesFrom(nt.g, keys + {first.value.0.key}, first.value.1[1..]);
      if others.Ok? { assert ([first.value.0] + others.value.0)[1..] == others.value.0; }
    }
  }

  lemma LossyOtherEntries(nt: Notation, keys: set<Text>, ls: Stream, e: Entry, after: Stream)
    requires EntryFrom(nt.g, keys, ls) == Ok((e, after)) && after[0] == Mark(COMMA)
    requires StringTokens(ls) == 1 + Strings(e.value) + StringTokens(after)
    requires LossyEntries(after[1..], EntriesFrom(nt.g, keys + {e.key}, after[1..]))
    ensures LossyEntries(ls, EntriesFrom(nt.g, keys, ls))
  {
    var others := EntriesFrom(nt.g, keys + {e.key}, after[1..]);
    if others.Ok? { assert ([e] + others.value.0)[1..] == others.value.0; }
  }

  // ---------- the law ----------

  /** Parsing the tokens of a tree printed with minimal parentheses gives the same tree: if and only if
      no array starts with the string "]" and no object with the key "}". */
  lemma ParsePrinted(nt: Notation, e: Expr)
    requires ValidGrammar(nt.g) && Formed(e) && Denoted(nt, e)
    ensures ProgramFrom(nt.g, Before(Print(nt, 0, e), [EOF])) == Ok(e) <==> Plain(nt, e)
  {
    if Plain(nt, e) {
      ReadPrinted(nt, 0, e, [EOF]);
    } else {
      Misread(nt, 0, e, [EOF]);
      PrintStrings(nt, 0, e);
      CountBefore(Print(nt, 0, e), [EOF]);
    }
  }
}

/** Printing expressions with as few parentheses as precedence allows. */
module CelPrinter {
  import opened Wrappers
  import opened CelText
  import opened CelTokenizer
  import opened CelLexing
  import opened JsonValues
  import opened CelParser

  /** How expressions are written: the grammar, and a numeral for each number. */
  datatype Notation = Notation(g: Grammar, show: Number -> Text)

  /** The variable is an identifier and none of the keywords. */
  ghost predicate ValidGrammar(g: Grammar) {
    Printable(Lexeme(Identifier, g.variable)) && g.variable != TRUE && g.variable != FALSE && g.variable != NULL
  }

  /** The numeral shown for `n` reads back as `n`. */
  ghost predicate Shows(nt: Notation, n: Number) {
    var t := nt.show(n);
    Numeral(t, 0, |t|) && nt.g.toNumber(t) == n
  }

  /** 1 for the loosest binary operators to 6 for the tightest; 0 for anything else. */
  function Rank(op: Text): (rank: nat)
    ensures rank <= 6
    ensures forall level: nat :: IsBinaryAt(level, op) <==> rank == level + 1
  {
    if IsBinaryAt(0, op) then 1
    else if IsBinaryAt(1, op) then 2
    else if IsBinaryAt(2, op) then 3
    else if IsBinaryAt(3, op) then 4
    else if IsBinaryAt(4, op) then 5
    else if IsBinaryAt(5, op) then 6
    else 0
  }

  /** How tightly the outermost construct binds: 0 conditional, 1 to 6 binary, 7 unary, 8 primary. */
  function Level(e: Expr): (level: nat)
    ensures level <= 8
  {
    match e
    case Conditional(_, _, _) => 0
    case Binary(op, _, _) => Rank(op)
    case Unary(_, _) => 7
    case _ => 8
  }

  function Scalar(nt: Notation, v: Json): Lexeme {
    match v
    case Num(n) => Lexeme(NumberLiteral, nt.show(n))
    case Str(t) => Lexeme(StringLiteral, t)
    case Bool(b) => Lexeme(Identifier, if b then TRUE else FALSE)
    case _ => Lexeme(Identifier, NULL)
  }

  /** `e` where an operand of level `min` stands: in parentheses only if it binds less tightly. */
  function Print(nt: Notation, min: nat, e: Expr): (ls: seq<Lexeme>)
    ensures ls != []
    decreases e, 1
  {
    if Level(e) < min then [Mark(OPEN_PAREN)] + Bare(nt, e) + [Mark(CLOSE_PAREN)] else Bare(nt, e)
  }

  function Bare(nt: Notation, e: Expr): (ls: seq<Lexeme>)
    ensures ls != []
    decreases e, 0
  {
    match e
    case Literal(v) => [Scalar(nt, v)]
    case Input => [Lexeme(Identifier, nt.g.variable)]
    case Array(es) => [Mark(OPEN_BRACKET)] + PrintElements(nt, es)
    case Object(es) => [Mark(OPEN_BRACE)] + PrintEntries(nt, es)
    case Unary(op, x) => [Op(op)] + Print(nt, 7, x)
    case Binary(op, l, r) => Print(nt, Rank(op), l) + ([Op(op)] + Print(nt, Rank(op) + 1, r))
    case Conditional(c, t, f) =>
      Print(nt, 1, c) + ([Mark(QUESTION)] + (Print(nt, 0, t) + ([Mark(COLON)] + Print(nt, 0, f))))
  }

  /** Elements separated by commas, and the closing bracket. */
  function PrintElements(nt: Notation, es: seq<Expr>): (ls: seq<Lexeme>)
    ensures ls != []
    decreases es, 2
  {
    if es == [] then [Mark(CLOSE_BRACKET)]
    else Print(nt, 0, es[0]) + if |es| == 1 then [Mark(CLOSE_BRACKET)] else [Mark(COMMA)] + PrintElements(nt, es[1..])
  }

  function PrintEntries(nt: Notation, es: seq<Entry>): (ls: seq<Lexeme>)
    ensures ls != []
    decreases es, 2
  {
    if es == [] then [Mark(CLOSE_BRACE)]
    else PrintEntry(nt, es[0]) + if |es| == 1 then [Mark(CLOSE_BRACE)] else [Mark(COMMA)] + PrintEntries(nt, es[1..])
  }

  function PrintEntry(nt: Notation, entry: Entry): (ls: seq<Lexeme>)
    ensures ls != []
    decreases entry, 2
  {
    [Lexeme(StringLiteral, entry.key)] + ([Mark(COLON)] + Print(nt, 0, entry.value))
  }

  /** Every number literal in `e` has a numeral. */
  ghost predicate Denoted(nt: Notation, e: Expr) {
    match e
    case Literal(v) => v.Num? ==> Shows(nt, v.n)
    case Input => true
    case Array(es) => DenotedAll(nt, es)
    case Object(es) => DenotedEntries(nt, es)
    case Unary(_, x) => Denoted(nt, x)
    case Binary(_, l, r) => Denoted(nt, l) && Denoted(nt, r)
    case Conditional(c, t, f) => Denoted(nt, c) && Denoted(nt, t) && Denoted(nt, f)
  }

  ghost predicate DenotedAll(nt: Notation, es: seq<Expr>) {
    es != [] ==> Denoted(nt, es[0]) && DenotedAll(nt, es[1..])
  }

  ghost predicate DenotedEntries(nt: Notation, es: seq<Entry>) {
    es != [] ==> Denoted(nt, es[0].value) && DenotedEntries(nt, es[1..])
  }

  /** No array is printed with the string "]" as its first token, no object has "}" as its first key:
      the parser takes either for the closing token. */
  predicate Plain(nt: Notation, e: Expr) {
    match e
    case Literal(_) => true
    case Input => true
    case Array(es) => (es != [] ==> Print(nt, 0, es[0])[0].value != CLOSE_BRACKET) && PlainAll(nt, es)
    case Object(es) => (es != [] ==> es[0].key != CLOSE_BRACE) && PlainEntries(nt, es)
    case Unary(_, x) => Plain(nt, x)
    case Binary(_, l, r) => Plain(nt, l) && Plain(nt, r)
    case Conditional(c, t, f) => Plain(nt, c) && Plain(nt, t) && Plain(nt, f)
  }

  predicate PlainAll(nt: Notation, es: seq<Expr>) {
    es != [] ==> Plain(nt, es[0]) && PlainAll(nt, es[1..])
  }

  predicate PlainEntries(nt: Notation, es: seq<Entry>) {
    es != [] ==> Plain(nt, es[0].value) && PlainEntries(nt, es[1..])
  }

  // ---------- printed tokens can be written ----------

  lemma {:induction false} PrintableConcat(xs: seq<Lexeme>, ys: seq<Lexeme>)
    requires AllPrintable(xs) && AllPrintable(ys)
    ensures AllPrintable(xs + ys)
    decreases |xs|
  {
    if xs == [] {
      assert xs + ys == ys;
    } else {
      PrintableConcat(xs[1..], ys);
      assert (xs + ys)[1..] == xs[1..] + ys;
    }
  }

  lemma OperatorPrintable(op: Text)
    requires IsBinary(op) || IsUnary(op)
    ensures AllPrintable([Op(op)])
  {
  }

  lemma {:induction false} PrintPrintable(nt: Notation, min: nat, e: Expr)
    requires ValidGrammar(nt.g) && Formed(e) && Denoted(nt, e)
    ensures AllPrintable(Print(nt, min, e))
    decreases e, 1
  {
    BarePrintable(nt, e);
    PrintableConcat([Mark(OPEN_PAREN)], Bare(nt, e));
    PrintableConcat([Mark(OPEN_PAREN)] + Bare(nt, e), [Mark(CLOSE_PAREN)]);
  }

  lemma {:induction false} BarePrintable(nt: Notation, e: Expr)
    requires ValidGrammar(nt.g) && Formed(e) && Denoted(nt, e)
    ensures AllPrintable(Bare(nt, e))
    decreases e, 0
  {
    match e
    case Literal(_) =>
    case Input =>
    case Array(es) =>
      ElementsPrintable(nt, es);
      PrintableConcat([Mark(OPEN_BRACKET)], PrintElements(nt, es));
    case Object(es) =>
      EntriesPrintable(nt, {}, es);
      PrintableConcat([Mark(OPEN_BRACE)], PrintEntries(nt, es));
    case Unary(op, x) =>
      OperatorPrintable(op);
      PrintPrintable(nt, 7, x);
      PrintableConcat([Op(op)], Print(nt, 7, x));
    case Binary(op, l, r) =>
      OperatorPrintable(op);
      PrintPrintable(nt, Rank(op), l);
      PrintPrintable(nt, Rank(op) + 1, r);
      PrintableConcat([Op(op)], Print(nt, Rank(op) + 1, r));
      PrintableConcat(Print(nt, Rank(op), l), [Op(op)] + Print(nt, Rank(op) + 1, r));
    case Conditional(c, t, f) =>
      PrintPrintable(nt, 1, c);
      PrintPrintable(nt, 0, t);
      PrintPrintable(nt, 0, f);
      var last := [Mark(COLON)] + Print(nt, 0, f);
      PrintableConcat([Mark(COLON)], Print(nt, 0, f));
      PrintableConcat(Print(nt, 0, t), last);
      PrintableConcat([Mark(QUESTION)], Print(nt, 0, t) + last);
      PrintableConcat(Print(nt, 1, c), [Mark(QUESTION)] + (Print(nt, 0, t) + last));
  }

  lemma {:induction false} ElementsPrintable(nt: Notation, es: seq<Expr>)
    requires ValidGrammar(nt.g) && FormedAll(es) && DenotedAll(nt, es)
    ensures AllPrintable(PrintElements(nt, es))
    decreases es, 2
  {
    if es != [] {
      PrintPrintable(nt, 0, es[0]);
      if |es| == 1 {
        PrintableConcat(Print(nt, 0, es[0]), [Mark(CLOSE_BRACKET)]);
      } else {
        ElementsPrintable(nt, es[1..]);
        PrintableConcat([Mark(COMMA)], PrintElements(nt, es[1..]));
        PrintableConcat(Print(nt, 0, es[0]), [Mark(COMMA)] + PrintElements(nt, es[1..]));
      }
    }
  }

  lemma {:induction false} EntriesPrintable(nt: Notation, keys: set<Text>, es: seq<Entry>)
    requires ValidGrammar(nt.g) && FormedEntries(keys, es) && DenotedEntries(nt, es)
    ensures AllPrintable(PrintEntries(nt, es))
    decreases es, 2
  {
    if es != [] {
      PrintPrintable(nt, 0, es[0].value);
      PrintableConcat([Mark(COLON)], Print(nt, 0, es[0].value));
      PrintableConcat([Lexeme(StringLiteral, es[0].key)], [Mark(COLON)] + Print(nt, 0, es[0].value));
      if |es| == 1 {
        PrintableConcat(PrintEntry(nt, es[0]), [Mark(CLOSE_BRACE)]);
      } else {
        EntriesPrintable(nt, keys + {es[0].key}, es[1..]);
        PrintableConcat([Mark(COMMA)], PrintEntries(nt, es[1..]));
        PrintableConcat(PrintEntry(nt, es[0]), [Mark(COMMA)] + PrintEntries(nt, es[1..]));
      }
    }
  }
}

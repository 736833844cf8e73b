/** What the tokenizer does to a source: where tokens lie, which numbers and strings it reads, and
    that rendered tokens are read back. */
module CelLexing {
  import opened Wrappers
  import opened CelText
  import opened CelTokenizer

  // ---------- spans ----------

  ghost predicate OnlySpace(s: Text, from: nat, to: nat) {
    from <= to <= |s| && forall k :: from <= k < to ==> IsSpace(s[k])
  }

  /** Tokens lie in order from index `from` on, separated by white space only, and end with eof. */
  ghost predicate Laid(s: Text, from: nat, ts: seq<Token>)
    decreases |ts|
  {
    && ts != []
    && OnlySpace(s, from, ts[0].offset)
    && if |ts| == 1 then ts[0] == EofAt(s)
       else
         && ts[0].lexeme.kind != Eof
         && ts[0].offset < ts[0].end <= |s|
         && TokenAt(s, ts[0].offset) == Ok(ts[0])
         && Laid(s, ts[0].end, ts[1..])
  }

  lemma {:induction false} TokensLaid(s: Text, i: nat)
    requires i <= |s| && TokensFrom(s, i).Ok?
    ensures Laid(s, i, TokensFrom(s, i).value)
    decreases |s| - i
  {
    hide TokenAt;
    if i == |s| {
    } else if IsSpace(s[i]) {
      TokensLaid(s, i + 1);
    } else {
      var t := TokenAt(s, i).value;
      TokensLaid(s, t.end);
      var rest := TokensFrom(s, t.end).value;
      assert ([t] + rest)[1..] == rest;
    }
  }

  /** Token j is the source's own token at its offset, and only white space separates it from the next. */
  ghost predicate SpanAt(s: Text, ts: seq<Token>, j: nat) {
    && j + 1 < |ts|
    && ts[j].lexeme.kind != Eof
    && ts[j].offset < ts[j].end <= |s|
    && TokenAt(s, ts[j].offset) == Ok(ts[j])
    && OnlySpace(s, ts[j].end, ts[j + 1].offset)
  }

  lemma {:induction false} LaidOrdered(s: Text, from: nat, ts: seq<Token>, j: nat)
    requires Laid(s, from, ts) && j < |ts|
    ensures if j + 1 == |ts| then ts[j] == EofAt(s) else SpanAt(s, ts, j)
    decreases j
  {
    if j > 0 {
      LaidOrdered(s, ts[0].end, ts[1..], j - 1);
    }
  }

  /** Spans are ordered and disjoint, only white space lies outside them, and the one eof sits at the
      source length. */
  lemma TokenSpans(s: Text)
    requires TokensFrom(s, 0).Ok?
    ensures
      var ts := TokensFrom(s, 0).value;
      && ts != [] && ts[|ts| - 1] == EofAt(s)
      && OnlySpace(s, 0, ts[0].offset)
      && (forall j: nat :: j + 1 < |ts| ==> SpanAt(s, ts, j))
  {
    var ts := TokensFrom(s, 0).value;
    TokensLaid(s, 0);
    LaidOrdered(s, 0, ts, |ts| - 1);
    forall j: nat | j + 1 < |ts|
      ensures SpanAt(s, ts, j)
    {
      LaidOrdered(s, 0, ts, j);
    }
  }

  // ---------- numbers ----------

  ghost predicate AllDigits(s: Text, i: nat, j: nat) {
    i <= j <= |s| && forall k :: i <= k < j ==> IsDigit(s[k])
  }

  ghost predicate IntegerText(s: Text, i: nat, j: nat) {
    AllDigits(s, i, j) && i < j && (s[i] == 48 ==> j == i + 1)
  }

  ghost predicate FractionText(s: Text, i: nat, j: nat) {
    i == j || (i + 1 < j <= |s| && s[i] == DOT && AllDigits(s, i + 1, j))
  }

  ghost predicate ExponentText(s: Text, i: nat, j: nat) {
    || i == j
    || (i + 1 < j <= |s| && IsExponentMark(s[i]) && AllDigits(s, i + 1, j))
    || (i + 2 < j <= |s| && IsExponentMark(s[i]) && IsSign(s[i + 1]) && AllDigits(s, i + 2, j))
  }

  ghost predicate NumeralParts(s: Text, i: nat, a: nat, b: nat, j: nat) {
    i < a <= b <= j <= |s| && IntegerText(s, i, a) && FractionText(s, a, b) && ExponentText(s, b, j)
  }

  /** s[i..j] is a decimal numeral: an integer without leading zeros, an optional fraction, an
      optional exponent. */
  ghost predicate Numeral(s: Text, i: nat, j: nat) {
    exists a: nat, b: nat :: NumeralParts(s, i, a, b, j)
  }

  lemma {:induction false} DigitsCover(s: Text, i: nat, j: nat)
    requires AllDigits(s, i, j)
    ensures j <= DigitsEnd(s, i)
    decreases j - i
  {
    if i < j { DigitsCover(s, i + 1, j); }
  }

  lemma {:induction false} DigitsTaken(s: Text, i: nat)
    requires i <= |s|
    ensures AllDigits(s, i, DigitsEnd(s, i))
    decreases |s| - i
  {
    if i < |s| && IsDigit(s[i]) { DigitsTaken(s, i + 1); }
  }

  lemma {:induction false} WordTaken(s: Text, i: nat, j: nat)
    requires i <= j <= |s| && (forall k :: i <= k < j ==> IsWordPart(s[k])) && (j < |s| ==> !IsWordPart(s[j]))
    ensures WordEnd(s, i) == j
    decreases j - i
  {
    if i < j { WordTaken(s, i + 1, j); }
  }

  lemma NumberEndIsNumeral(s: Text, i: nat)
    requires i < |s| && IsDigit(s[i])
    ensures Numeral(s, i, NumberEnd(s, i))
  {
    var a := IntegerEnd(s, i);
    var b := FractionEnd(s, a);
    DigitsTaken(s, i + 1);
    DigitsTaken(s, a);
    if a + 1 <= |s| { DigitsTaken(s, a + 1); }
    if b + 1 <= |s| { DigitsTaken(s, b + 1); }
    if b + 2 <= |s| { DigitsTaken(s, b + 2); }
    assert NumeralParts(s, i, a, b, NumberEnd(s, i));
  }

  lemma IntegerCovers(s: Text, i: nat, a: nat, b: nat, j: nat)
    requires NumeralParts(s, i, a, b, j)
    ensures a == IntegerEnd(s, i) || (a == j && j <= IntegerEnd(s, i))
  {
    DigitsTaken(s, i + 1);
    if s[i] != 48 { DigitsCover(s, i + 1, a); }
  }

  lemma FractionCovers(s: Text, i: nat, b: nat, j: nat)
    requires i <= b <= j <= |s| && FractionText(s, i, b) && ExponentText(s, b, j)
    ensures b == FractionEnd(s, i) || (b == j && j <= FractionEnd(s, i))
  {
    if i < b {
      DigitsTaken(s, i + 1);
      DigitsCover(s, i + 1, b);
    }
  }

  lemma ExponentCovers(s: Text, i: nat, j: nat)
    requires i <= j <= |s| && ExponentText(s, i, j)
    ensures j <= ExponentEnd(s, i)
  {
    if i < j {
      if AllDigits(s, i + 1, j) { DigitsCover(s, i + 1, j); } else { DigitsCover(s, i + 2, j); }
    }
  }

  /** A number token is a numeral and the longest one there is. */
  lemma NumberIsLongest(s: Text, i: nat, j: nat)
    requires i < |s| && IsDigit(s[i])
    ensures Numeral(s, i, NumberEnd(s, i))
    ensures Numeral(s, i, j) ==> j <= NumberEnd(s, i)
  {
    NumberEndIsNumeral(s, i);
    if Numeral(s, i, j) {
      var a: nat, b: nat :| NumeralParts(s, i, a, b, j);
      IntegerCovers(s, i, a, b, j);
      if a == IntegerEnd(s, i) {
        FractionCovers(s, a, b, j);
        if b == FractionEnd(s, a) { ExponentCovers(s, b, j); }
      }
    }
  }

  // ---------- strings ----------

  /** Quotes and the backslash stand for themselves after a backslash; b, f, n, r and t stand for
      backspace, form feed, line feed, carriage return and tab. */
  predicate Escapes(c: Unit, u: Unit) {
    || (u == c && (c == SINGLE_QUOTE || c == DOUBLE_QUOTE || c == BACKSLASH))
    || (c == 98 && u == 8) || (c == 102 && u == 12) || (c == 110 && u == 10) || (c == 114 && u == 13)
    || (c == 116 && u == 9)
  }

  /** The digit 0 to 9, a to f or A to F of value `d`. */
  predicate IsHexOf(c: Unit, d: int) {
    (0 <= d <= 9 && c == 48 + d) || (10 <= d <= 15 && (c == 55 + d || c == 87 + d))
  }

  /** Four hexadecimal digits, most significant first. */
  ghost predicate Digits(w: Text, u: Unit)
    requires |w| == 4
  {
    exists a: int, b: int, c: int, d: int ::
      && IsHexOf(w[0], a) && IsHexOf(w[1], b) && IsHexOf(w[2], c) && IsHexOf(w[3], d)
      && u == ((a * 16 + b) * 16 + c) * 16 + d
  }

  /** `w` is a way to write the unit `u` inside a literal quoted by `quote`. */
  ghost predicate Spells(w: Text, u: Unit, quote: Unit) {
    || (w == [u] && u != quote && u != BACKSLASH && u != LF && u != CR)
    || (|w| == 2 && w[0] == BACKSLASH && Escapes(w[1], u))
    || (|w| == 6 && w[0] == BACKSLASH && w[1] == LOWER_U && Digits(w[2..], u))
  }

  lemma HexDigitIs(c: Unit)
    ensures forall d: int :: IsHexOf(c, d) <==> IsHex(c) && d == HexDigit(c)
  {
  }

  lemma DigitsAre(w: Text, u: Unit)
    requires |w| == 4
    ensures
      Digits(w, u) <==>
      IsHex(w[0]) && IsHex(w[1]) && IsHex(w[2]) && IsHex(w[3]) && HexUnit(w[0], w[1], w[2], w[3]) == u
  {
    hide IsHexOf, IsHex, HexDigit;
    HexDigitIs(w[0]);
    HexDigitIs(w[1]);
    HexDigitIs(w[2]);
    HexDigitIs(w[3]);
    if IsHex(w[0]) && IsHex(w[1]) && IsHex(w[2]) && IsHex(w[3]) {
      assert forall k :: 0 <= k < 4 ==> IsHexOf(w[k], HexDigit(w[k]));
    }
  }

  ghost predicate SpellsAll(ws: seq<Text>, value: Text, quote: Unit) {
    |ws| == |value| && forall k :: 0 <= k < |ws| ==> Spells(ws[k], value[k], quote)
  }

  function Concat(ws: seq<Text>): Text {
    if ws == [] then [] else ws[0] + Concat(ws[1..])
  }

  /** `text` stands in `s` from index `i` on. */
  ghost predicate Stands(s: Text, i: nat, text: Text) {
    i + |text| <= |s| && s[i..i + |text|] == text
  }

  lemma StandsAt(s: Text, i: nat, t: Text)
    requires Stands(s, i, t)
    ensures forall k :: i <= k < i + |t| ==> s[k] == t[k - i]
  {
    assert forall k :: i <= k < i + |t| ==> s[k] == s[i..i + |t|][k - i];
  }

  lemma StandsSplit(s: Text, i: nat, head: Text, tail: Text)
    requires Stands(s, i, head + tail)
    ensures Stands(s, i, head) && Stands(s, i + |head|, tail)
  {
    var whole := s[i..i + |head + tail|];
    assert s[i..i + |head|] == whole[..|head|];
    assert s[i + |head|..i + |head| + |tail|] == whole[|head|..];
  }

  /** One spelled unit is read as that unit. */
  lemma ReadUnit(s: Text, i: nat, w: Text, u: Unit, quote: Unit)
    requires Stands(s, i, w) && Spells(w, u, quote) && IsQuote(quote)
    ensures i < |s| && i + |w| <= |s|
    ensures StringFrom(s, i, quote) == Cons(u, StringFrom(s, i + |w|, quote))
  {
    StandsAt(s, i, w);
    if w[0] == BACKSLASH {
      assert s[i] == BACKSLASH;
      if |w| == 6 { DigitsAre(w[2..], u); }
      assert EscapeAt(s, i) == Ok((u, i + |w|));
    }
  }

  /** The words stand one after the other from `i` on, followed by the quote. */
  ghost predicate WordsStand(s: Text, i: nat, ws: seq<Text>, quote: Unit)
    decreases |ws|
  {
    if ws == [] then i < |s| && s[i] == quote
    else Stands(s, i, ws[0]) && WordsStand(s, i + |ws[0]|, ws[1..], quote)
  }

  lemma {:induction false} ConcatStands(s: Text, i: nat, ws: seq<Text>, quote: Unit)
    requires Stands(s, i, Concat(ws) + [quote])
    ensures WordsStand(s, i, ws, quote)
    decreases |ws|
  {
    if ws == [] {
      assert s[i..i + 1] == [quote];
    } else {
      assert Concat(ws) + [quote] == ws[0] + (Concat(ws[1..]) + [quote]);
      StandsSplit(s, i, ws[0], Concat(ws[1..]) + [quote]);
      ConcatStands(s, i + |ws[0]|, ws[1..], quote);
    }
  }

  /** Any spelling of a unit sequence is read back as exactly that sequence, up to just after the
      closing quote. */
  lemma {:induction false} ReadSpelled(s: Text, i: nat, ws: seq<Text>, value: Text, quote: Unit)
    requires IsQuote(quote) && SpellsAll(ws, value, quote) && WordsStand(s, i, ws, quote)
    ensures StringFrom(s, i, quote) == Ok((value, i + |Concat(ws)| + 1))
    decreases |ws|
  {
    if ws != [] {
      SpellsTail(ws, value, quote);
      ReadSpelled(s, i + |ws[0]|, ws[1..], value[1..], quote);
      ReadUnit(s, i, ws[0], value[0], quote);
    }
  }

  lemma SpellsTail(ws: seq<Text>, value: Text, quote: Unit)
    requires ws != [] && SpellsAll(ws, value, quote)
    ensures Spells(ws[0], value[0], quote) && SpellsAll(ws[1..], value[1..], quote)
    ensures [value[0]] + value[1..] == value
  {
  }

  /** Conversely, a literal that is read is a spelling of the value it is read as. */
  lemma {:induction false} ReadIsSpelled(s: Text, i: nat, quote: Unit) returns (ws: seq<Text>)
    requires i <= |s| && IsQuote(quote) && StringFrom(s, i, quote).Ok?
    ensures SpellsAll(ws, StringFrom(s, i, quote).value.0, quote) && WordsStand(s, i, ws, quote)
    ensures StringFrom(s, i, quote).value.1 == i + |Concat(ws)| + 1
    decreases |s| - i
  {
    if s[i] == quote {
      return [];
    }
    var next := if s[i] == BACKSLASH then EscapeAt(s, i).value.1 else i + 1;
    var rest := ReadIsSpelled(s, next, quote);
    var w := s[i..next];
    UnitSpelled(s, i, quote);
    ws := [w] + rest;
    assert ws[1..] == rest;
  }

  lemma UnitSpelled(s: Text, i: nat, quote: Unit)
    requires i < |s| && IsQuote(quote) && s[i] != quote && StringFrom(s, i, quote).Ok?
    ensures
      if s[i] == BACKSLASH then
        EscapeAt(s, i).Ok? && Spells(s[i..EscapeAt(s, i).value.1], EscapeAt(s, i).value.0, quote)
      else Spells(s[i..i + 1], s[i], quote)
  {
    if s[i] == BACKSLASH {
      var (u, next) := EscapeAt(s, i).value;
      var w := s[i..next];
      assert forall k :: 0 <= k < |w| ==> w[k] == s[i + k];
      if |w| == 6 { DigitsAre(w[2..], u); }
    }
  }

  /** The escaped form of a unit: quotes of this kind, backslashes and line ends are escaped. */
  function EscapedUnit(u: Unit, quote: Unit): (w: Text)
    requires IsQuote(quote)
    ensures Spells(w, u, quote)
  {
    if u == quote || u == BACKSLASH then [BACKSLASH, u]
    else if u == LF then [BACKSLASH, 110]
    else if u == CR then [BACKSLASH, 114]
    else [u]
  }

  function EscapedUnits(value: Text, quote: Unit): (ws: seq<Text>)
    requires IsQuote(quote)
    ensures SpellsAll(ws, value, quote)
  {
    seq(|value|, k requires 0 <= k < |value| => EscapedUnit(value[k], quote))
  }

  function Quoted(value: Text, quote: Unit): Text
    requires IsQuote(quote)
  {
    [quote] + Concat(EscapedUnits(value, quote)) + [quote]
  }

  /** The quote, then the words of the escaped value, then the quote again. */
  lemma QuotedStands(s: Text, i: nat, value: Text, quote: Unit)
    requires IsQuote(quote) && Stands(s, i, Quoted(value, quote))
    ensures i < |s| && s[i] == quote && WordsStand(s, i + 1, EscapedUnits(value, quote), quote)
    ensures |Quoted(value, quote)| == |Concat(EscapedUnits(value, quote))| + 2
  {
    hide EscapedUnits, Concat, WordsStand;
    var ws := EscapedUnits(value, quote);
    assert Quoted(value, quote) == [quote] + (Concat(ws) + [quote]);
    StandsSplit(s, i, [quote], Concat(ws) + [quote]);
    assert s[i..i + 1] == [quote];
    ConcatStands(s, i + 1, ws, quote);
  }

  /** Reading back the escaped literal of any unit sequence gives that sequence. */
  lemma ReadQuoted(s: Text, i: nat, value: Text, quote: Unit)
    requires IsQuote(quote) && Stands(s, i, Quoted(value, quote))
    ensures TokenAt(s, i) == Ok(Token(Lexeme(StringLiteral, value), i, i + |Quoted(value, quote)|))
  {
    hide EscapedUnits, Concat, Quoted;
    var ws := EscapedUnits(value, quote);
    QuotedStands(s, i, value, quote);
    ReadSpelled(s, i + 1, ws, value, quote);
  }

  // ---------- trimming ----------

  /** What trimming takes away is white space, and none is left at either end. */
  lemma {:induction false} TrimIs(s: Text) returns (from: nat, to: nat)
    ensures from <= to <= |s| && Trim(s) == s[from..to]
    ensures OnlySpace(s, 0, from) && OnlySpace(s, to, |s|)
    ensures from < to ==> !IsSpace(s[from]) && !IsSpace(s[to - 1])
    decreases |s|
  {
    if s != [] && IsSpace(s[0]) {
      var i, j := TrimIs(s[1..]);
      from, to := i + 1, j + 1;
      assert forall k :: 0 <= k < |s| - 1 ==> s[1..][k] == s[k + 1];
    } else if s != [] && IsSpace(s[|s| - 1]) {
      from, to := TrimIs(s[..|s| - 1]);
    } else {
      from, to := 0, |s|;
    }
  }

  // ---------- rendering ----------

  /** A lexeme some source text denotes. */
  ghost predicate Printable(l: Lexeme) {
    match l.kind
    case Identifier => l.value != [] && IsLetter(l.value[0]) && forall u <- l.value :: IsWordPart(u)
    case StringLiteral => true
    case NumberLiteral => Numeral(l.value, 0, |l.value|)
    case Operator =>
      if |l.value| == 2 then IsPair(l.value[0], l.value[1]) else |l.value| == 1 && IsOperatorUnit(l.value[0])
    case Punctuation => |l.value| == 1 && IsPunctuationUnit(l.value[0])
    case Eof => false
  }

  ghost predicate AllPrintable(ls: seq<Lexeme>) {
    ls != [] ==> Printable(ls[0]) && AllPrintable(ls[1..])
  }

  function Spelling(l: Lexeme, quote: Unit): Text
    requires IsQuote(quote)
  {
    if l.kind == StringLiteral then Quoted(l.value, quote) else l.value
  }

  /** The lexemes one after the other, separated by spaces. */
  function Render(ls: seq<Lexeme>, quote: Unit): Text
    requires IsQuote(quote)
  {
    if ls == [] then []
    else if |ls| == 1 then Spelling(ls[0], quote)
    else Spelling(ls[0], quote) + [SPACE] + Render(ls[1..], quote)
  }

  /** A word that ends at `end` is followed by a space or by nothing. */
  ghost predicate EndsAt(s: Text, end: nat) {
    end == |s| || (end < |s| && s[end] == SPACE)
  }

  function Resume(s: Text, end: nat): nat {
    if end == |s| then end else end + 1
  }

  lemma NumeralUnits(s: Text, i: nat, j: nat, k: nat)
    requires Numeral(s, i, j) && i <= k < j
    ensures !IsSpace(s[k]) && IsDigit(s[i])
  {
    var a: nat, b: nat :| NumeralParts(s, i, a, b, j);
  }

  lemma NumeralStands(s: Text, i: nat, t: Text)
    requires Stands(s, i, t) && Numeral(t, 0, |t|)
    ensures Numeral(s, i, i + |t|)
  {
    var a: nat, b: nat :| NumeralParts(t, 0, a, b, |t|);
    StandsAt(s, i, t);
    assert NumeralParts(s, i, i + a, i + b, i + |t|);
  }

  lemma ReadNumeral(s: Text, i: nat, t: Text)
    requires Stands(s, i, t) && EndsAt(s, i + |t|) && Numeral(t, 0, |t|)
    ensures TokenAt(s, i) == Ok(Token(Lexeme(NumberLiteral, t), i, i + |t|))
  {
    NumeralStands(s, i, t);
    NumeralUnits(s, i, i + |t|, i);
    NumberIsLongest(s, i, i + |t|);
    if i + |t| < NumberEnd(s, i) { NumeralUnits(s, i, NumberEnd(s, i), i + |t|); }
  }

  lemma ReadIdentifier(s: Text, i: nat, t: Text)
    requires Stands(s, i, t) && EndsAt(s, i + |t|) && Printable(Lexeme(Identifier, t))
    ensures TokenAt(s, i) == Ok(Token(Lexeme(Identifier, t), i, i + |t|))
  {
    StandsAt(s, i, t);
    WordTaken(s, i + 1, i + |t|);
  }

  lemma ReadSymbol(s: Text, i: nat, l: Lexeme)
    requires Printable(l) && (l.kind == Operator || l.kind == Punctuation)
    requires Stands(s, i, l.value) && EndsAt(s, i + |l.value|)
    ensures TokenAt(s, i) == Ok(Token(l, i, i + |l.value|))
  {
    StandsAt(s, i, l.value);
  }

  lemma ReadLexeme(s: Text, i: nat, l: Lexeme, quote: Unit)
    requires IsQuote(quote) && Printable(l) && Stands(s, i, Spelling(l, quote))
    requires EndsAt(s, i + |Spelling(l, quote)|)
    ensures i < |s| && !IsSpace(s[i])
    ensures TokenAt(s, i) == Ok(Token(l, i, i + |Spelling(l, quote)|))
  {
    hide TokenAt, Stands;
    StandsAt(s, i, Spelling(l, quote));
    match l.kind
    case StringLiteral => ReadQuoted(s, i, l.value, quote);
    case NumberLiteral =>
      ReadNumeral(s, i, l.value);
      NumeralUnits(l.value, 0, |l.value|, 0);
    case Identifier => ReadIdentifier(s, i, l.value);
    case Operator => ReadSymbol(s, i, l);
    case Punctuation => ReadSymbol(s, i, l);
  }

  /** The lexemes stand one after the other from `i` to the end. */
  ghost predicate RenderedAt(s: Text, i: nat, ls: seq<Lexeme>, quote: Unit)
    requires IsQuote(quote)
    decreases |ls|
  {
    if ls == [] then i == |s|
    else
      var after := i + |Spelling(ls[0], quote)|;
      Stands(s, i, Spelling(ls[0], quote)) && EndsAt(s, after) && RenderedAt(s, Resume(s, after), ls[1..], quote)
  }

  lemma {:induction false} RenderStands(s: Text, i: nat, ls: seq<Lexeme>, quote: Unit)
    requires IsQuote(quote) && Stands(s, i, Render(ls, quote)) && i + |Render(ls, quote)| == |s|
    ensures RenderedAt(s, i, ls, quote)
    decreases |ls|
  {
    if |ls| > 1 {
      var w, rest := Spelling(ls[0], quote), Render(ls[1..], quote);
      WordStands(s, i, w, rest);
      RenderStands(s, i + |w| + 1, ls[1..], quote);
    }
  }

  lemma WordStands(s: Text, i: nat, w: Text, rest: Text)
    requires Stands(s, i, w + [SPACE] + rest)
    ensures Stands(s, i, w) && s[i + |w|] == SPACE && Stands(s, i + |w| + 1, rest)
  {
    StandsSplit(s, i, w + [SPACE], rest);
    StandsSplit(s, i, w, [SPACE]);
    assert s[i + |w|..i + |w| + 1] == [SPACE];
  }

  /** Tokenizing rendered lexemes gives the lexemes back. */
  lemma {:induction false} TokenizeRendered(s: Text, i: nat, ls: seq<Lexeme>, quote: Unit) returns (ts: seq<Token>)
    requires IsQuote(quote) && AllPrintable(ls) && i <= |s| && RenderedAt(s, i, ls, quote)
    ensures TokensFrom(s, i) == Ok(ts) && Lexemes(ts) == ls + [EOF]
    decreases |ls|
  {
    hide TokenAt, Spelling, Printable;
    if ls == [] {
      ts := [EofAt(s)];
    } else {
      var rest := TokenizeRendered(s, Resume(s, i + |Spelling(ls[0], quote)|), ls[1..], quote);
      ts := ReadNext(s, i, ls[0], quote, rest);
      ConsEof(ls);
    }
  }

  lemma ConsEof(ls: seq<Lexeme>)
    requires ls != []
    ensures [ls[0]] + (ls[1..] + [EOF]) == ls + [EOF]
  {
  }

  lemma ReadNext(s: Text, i: nat, l: Lexeme, quote: Unit, rest: seq<Token>) returns (ts: seq<Token>)
    requires IsQuote(quote) && Printable(l) && Stands(s, i, Spelling(l, quote))
    requires EndsAt(s, i + |Spelling(l, quote)|)
    requires TokensFrom(s, Resume(s, i + |Spelling(l, quote)|)) == Ok(rest)
    ensures TokensFrom(s, i) == Ok(ts) && Lexemes(ts) == [l] + Lexemes(rest)
  {
    hide TokenAt, Stands, Spelling, Printable;
    ReadLexeme(s, i, l, quote);
    ts := [Token(l, i, i + |Spelling(l, quote)|)] + rest;
    assert TokensFrom(s, i + |Spelling(l, quote)|) == Ok(rest);
    assert ts[1..] == rest;
  }

  lemma SpellingEdges(l: Lexeme, quote: Unit)
    requires IsQuote(quote) && Printable(l)
    ensures var w := Spelling(l, quote); w != [] && !IsSpace(w[0]) && !IsSpace(w[|w| - 1])
  {
    if l.kind == NumberLiteral {
      NumeralUnits(l.value, 0, |l.value|, 0);
      NumeralUnits(l.value, 0, |l.value|, |l.value| - 1);
    } else if l.kind == Identifier {
      assert l.value[|l.value| - 1] in l.value;
    }
  }

  /** Rendered text neither starts nor ends with white space. */
  lemma {:induction false} RenderEdges(ls: seq<Lexeme>, quote: Unit)
    requires IsQuote(quote) && AllPrintable(ls) && ls != []
    ensures var s := Render(ls, quote); s != [] && !IsSpace(s[0]) && !IsSpace(s[|s| - 1])
  {
    SpellingEdges(ls[0], quote);
    if |ls| > 1 { RenderEdges(ls[1..], quote); }
  }

  /** Tokenizing rendered lexemes gives the lexemes back, then eof. */
  lemma RoundTripLexemes(ls: seq<Lexeme>, quote: Unit)
    requires IsQuote(quote) && AllPrintable(ls)
    ensures
      var read := TokensFrom(Render(ls, quote), 0);
      read.Ok? && Lexemes(read.value) == ls + [EOF]
  {
    var s := Render(ls, quote);
    assert s[0..|s|] == s;
    RenderStands(s, 0, ls, quote);
    var _ := TokenizeRendered(s, 0, ls, quote);
  }

  /** What the tokenizer delivers ends with eof, and has no other. */
  lemma TokensTerminated(s: Text)
    requires TokensFrom(s, 0).Ok?
    ensures
      var ts := TokensFrom(s, 0).value;
      && ts != [] && ts[|ts| - 1].lexeme == EOF
      && forall k :: 0 <= k < |ts| - 1 ==> ts[k].lexeme.kind != Eof
  {
    var ts := TokensFrom(s, 0).value;
    TokenSpans(s);
    forall k | 0 <= k < |ts| - 1
      ensures ts[k].lexeme.kind != Eof
    {
      assert SpanAt(s, ts, k);
    }
  }
}

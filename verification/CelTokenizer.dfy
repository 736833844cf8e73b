/** The tokenizer: what it accepts as a function of the source, and the loops that compute it. */
module CelTokenizer {
  import opened Wrappers
  import opened CelText

  datatype Kind = Identifier | StringLiteral | NumberLiteral | Operator | Punctuation | Eof

  /** A token without its place in the source. */
  datatype Lexeme = Lexeme(kind: Kind, value: Text)

  /** A token spans the source units offset .. end. */
  datatype Token = Token(lexeme: Lexeme, offset: nat, end: nat)

  function Lexemes(ts: seq<Token>): seq<Lexeme> {
    seq(|ts|, k requires 0 <= k < |ts| => ts[k].lexeme)
  }

  const EOF := Lexeme(Eof, [])

  function Op(op: Text): Lexeme { Lexeme(Operator, op) }

  function Mark(value: Text): Lexeme { Lexeme(Punctuation, value) }

  datatype LexError =
    | UnsupportedToken | UnterminatedString | UnterminatedEscape | InvalidUnicodeEscape | UnsupportedEscape

  // ---------- specification ----------

  /** Where the word parts from `i` on end. */
  function WordEnd(s: Text, i: nat): (end: nat)
    requires i <= |s|
    ensures i <= end <= |s|
    decreases |s| - i
  {
    if i < |s| && IsWordPart(s[i]) then WordEnd(s, i + 1) else i
  }

  function DigitsEnd(s: Text, i: nat): (end: nat)
    requires i <= |s|
    ensures i <= end <= |s|
    decreases |s| - i
  {
    if i < |s| && IsDigit(s[i]) then DigitsEnd(s, i + 1) else i
  }

  /** 0, or digits without a leading zero; at `i` there is a digit. */
  function IntegerEnd(s: Text, i: nat): (end: nat)
    requires i < |s| && IsDigit(s[i])
    ensures i < end <= |s|
  {
    if s[i] == 48 then i + 1 else DigitsEnd(s, i + 1)
  }

  /** An optional fraction: a dot and at least one digit. */
  function FractionEnd(s: Text, i: nat): (end: nat)
    requires i <= |s|
    ensures i <= end <= |s|
  {
    if i + 1 < |s| && s[i] == DOT && IsDigit(s[i + 1]) then DigitsEnd(s, i + 1) else i
  }

  predicate IsExponentMark(u: Unit) { u == 101 || u == 69 }

  predicate IsSign(u: Unit) { u == 43 || u == 45 }

  /** An optional exponent: the mark, an optional sign, at least one digit. */
  function ExponentEnd(s: Text, i: nat): (end: nat)
    requires i <= |s|
    ensures i <= end <= |s|
  {
    if i + 1 < |s| && IsExponentMark(s[i]) && IsDigit(s[i + 1]) then DigitsEnd(s, i + 1)
    else if i + 2 < |s| && IsExponentMark(s[i]) && IsSign(s[i + 1]) && IsDigit(s[i + 2]) then DigitsEnd(s, i + 2)
    else i
  }

  function NumberEnd(s: Text, i: nat): (end: nat)
    requires i < |s| && IsDigit(s[i])
    ensures i < end <= |s|
  {
    ExponentEnd(s, FractionEnd(s, IntegerEnd(s, i)))
  }

  function SimpleEscape(u: Unit): Option<Unit> {
    if u == SINGLE_QUOTE || u == DOUBLE_QUOTE || u == BACKSLASH then Some(u)
    else if u == 98 then Some(8)
    else if u == 102 then Some(12)
    else if u == 110 then Some(10)
    else if u == 114 then Some(13)
    else if u == 116 then Some(9)
    else None
  }

  predicate IsUnicodeEscape(s: Text, i: nat) {
    i + 6 <= |s| && s[i] == BACKSLASH && s[i + 1] == LOWER_U
    && IsHex(s[i + 2]) && IsHex(s[i + 3]) && IsHex(s[i + 4]) && IsHex(s[i + 5])
  }

  /** One escape, starting at the backslash: the unit it denotes and where it ends. */
  function EscapeAt(s: Text, i: nat): (r: Result<(Unit, nat), LexError>)
    requires i < |s| && s[i] == BACKSLASH
    ensures r.Ok? ==> i + 1 < r.value.1 <= |s|
  {
    if i + 1 == |s| then Err(UnterminatedEscape)
    else if SimpleEscape(s[i + 1]).Some? then Ok((SimpleEscape(s[i + 1]).value, i + 2))
    else if s[i + 1] != LOWER_U then Err(UnsupportedEscape)
    else if IsUnicodeEscape(s, i) then Ok((HexUnit(s[i + 2], s[i + 3], s[i + 4], s[i + 5]), i + 6))
    else Err(InvalidUnicodeEscape)
  }

  function Cons(u: Unit, r: Result<(Text, nat), LexError>): Result<(Text, nat), LexError> {
    match r
    case Ok((t, end)) => Ok(([u] + t, end))
    case Err(e) => Err(e)
  }

  /** The rest of a string literal from `i` on: its value and the index just after the closing quote. */
  function StringFrom(s: Text, i: nat, quote: Unit): (r: Result<(Text, nat), LexError>)
    requires i <= |s|
    ensures r.Ok? ==> i < r.value.1 <= |s| && s[r.value.1 - 1] == quote
    decreases |s| - i
  {
    if i == |s| then Err(UnterminatedString)
    else if s[i] == quote then Ok(([], i + 1))
    else if s[i] == LF || s[i] == CR then Err(UnterminatedString)
    else if s[i] != BACKSLASH then Cons(s[i], StringFrom(s, i + 1, quote))
    else
      match EscapeAt(s, i)
      case Err(e) => Err(e)
      case Ok((u, next)) => Cons(u, StringFrom(s, next, quote))
  }

  function Spanning(kind: Kind, s: Text, i: nat, end: nat): Token
    requires i <= end <= |s|
  {
    Token(Lexeme(kind, s[i..end]), i, end)
  }

  /** The token that starts at `i`, where the source has no white space. */
  function TokenAt(s: Text, i: nat): (r: Result<Token, LexError>)
    requires i < |s|
    ensures r.Ok? ==> r.value.offset == i < r.value.end <= |s| && r.value.lexeme.kind != Eof
  {
    if IsQuote(s[i]) then
      match StringFrom(s, i + 1, s[i])
      case Err(e) => Err(e)
      case Ok((value, end)) => Ok(Token(Lexeme(StringLiteral, value), i, end))
    else if IsDigit(s[i]) then Ok(Spanning(NumberLiteral, s, i, NumberEnd(s, i)))
    else if IsLetter(s[i]) then Ok(Spanning(Identifier, s, i, WordEnd(s, i + 1)))
    else if i + 1 < |s| && IsPair(s[i], s[i + 1]) then Ok(Spanning(Operator, s, i, i + 2))
    else if IsOperatorUnit(s[i]) then Ok(Spanning(Operator, s, i, i + 1))
    else if IsPunctuationUnit(s[i]) then Ok(Spanning(Punctuation, s, i, i + 1))
    else Err(UnsupportedToken)
  }

  function EofAt(s: Text): Token {
    Token(Lexeme(Eof, []), |s|, |s|)
  }

  function Prepend(t: Token, r: Result<seq<Token>, LexError>): Result<seq<Token>, LexError> {
    match r
    case Ok(ts) => Ok([t] + ts)
    case Err(e) => Err(e)
  }

  /** The tokens from index `i` on, ending with eof. */
  function TokensFrom(s: Text, i: nat): Result<seq<Token>, LexError>
    requires i <= |s|
    decreases |s| - i
  {
    if i == |s| then Ok([EofAt(s)])
    else if IsSpace(s[i]) then TokensFrom(s, i + 1)
    else
      match TokenAt(s, i)
      case Err(e) => Err(e)
      case Ok(t) => Prepend(t, TokensFrom(s, t.end))
  }

  // ---------- the loops ----------

  method ReadWord(s: Text, offset: nat) returns (cursor: nat)
    requires offset <= |s|
    ensures cursor == WordEnd(s, offset)
  {
    cursor := offset;
    while cursor < |s| && IsWordPart(s[cursor])
      invariant offset <= cursor <= |s|
      invariant WordEnd(s, offset) == WordEnd(s, cursor)
    {
      cursor := cursor + 1;
    }
  }

  function After(read: Text, r: Result<(Text, nat), LexError>): (whole: Result<(Text, nat), LexError>)
    ensures read == [] ==> whole == r
  {
    match r
    case Ok((t, end)) => assert [] + t == t; Ok((read + t, end))
    case Err(e) => Err(e)
  }

  lemma AfterCons(read: Text, u: Unit, r: Result<(Text, nat), LexError>)
    ensures After(read, Cons(u, r)) == After(read + [u], r)
  {
    match r
    case Err(_) =>
    case Ok((t, _)) => assert read + ([u] + t) == (read + [u]) + t;
  }

  method ReadString(s: Text, offset: nat, quote: Unit) returns (r: Result<Token, LexError>)
    requires offset < |s| && s[offset] == quote && IsQuote(quote)
    ensures r == TokenAt(s, offset)
  {
    var cursor, value := offset + 1, [];
    while cursor < |s|
      invariant offset < cursor <= |s|
      invariant After(value, StringFrom(s, cursor, quote)) == StringFrom(s, offset + 1, quote)
    {
      var character := s[cursor];
      if character == quote {
        assert value + [] == value;
        return Ok(Token(Lexeme(StringLiteral, value), offset, cursor + 1));
      }
      if character == LF || character == CR {
        return Err(UnterminatedString);
      }
      if character != BACKSLASH {
        AfterCons(value, character, StringFrom(s, cursor + 1, quote));
        value, cursor := value + [character], cursor + 1;
        continue;
      }
      var escape := EscapeAt(s, cursor);
      if escape.Err? {
        return Err(escape.error);
      }
      AfterCons(value, escape.value.0, StringFrom(s, escape.value.1, quote));
      value, cursor := value + [escape.value.0], escape.value.1;
    }
    return Err(UnterminatedString);
  }

  method Tokenize(s: Text) returns (r: Result<seq<Token>, LexError>)
    ensures r == TokensFrom(s, 0)
  {
    var tokens: seq<Token> := [];
    var offset := 0;
    while offset < |s|
      invariant offset <= |s|
      invariant Following(tokens, TokensFrom(s, offset)) == TokensFrom(s, 0)
    {
      if IsSpace(s[offset]) {
        offset := offset + 1;
        continue;
      }
      var token;
      if IsQuote(s[offset]) {
        token := ReadString(s, offset, s[offset]);
      } else if IsLetter(s[offset]) {
        var end := ReadWord(s, offset + 1);
        token := Ok(Spanning(Identifier, s, offset, end));
      } else {
        token := TokenAt(s, offset);
      }
      if token.Err? {
        return Err(token.error);
      }
      FollowingPrepend(tokens, token.value, TokensFrom(s, token.value.end));
      tokens, offset := tokens + [token.value], token.value.end;
    }
    return Ok(tokens + [EofAt(s)]);
  }

  function Following(tokens: seq<Token>, r: Result<seq<Token>, LexError>): (whole: Result<seq<Token>, LexError>)
    ensures tokens == [] ==> whole == r
  {
    match r
    case Ok(ts) => assert [] + ts == ts; Ok(tokens + ts)
    case Err(e) => Err(e)
  }

  lemma FollowingPrepend(tokens: seq<Token>, t: Token, r: Result<seq<Token>, LexError>)
    ensures Following(tokens, Prepend(t, r)) == Following(tokens + [t], r)
  {
    match r
    case Err(_) =>
    case Ok(ts) => assert tokens + ([t] + ts) == (tokens + [t]) + ts;
  }
}

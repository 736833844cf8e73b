/** Text as the program sees it: a sequence of UTF-16 code units, any of which may be an unpaired
    surrogate; and the units the option map language is written in. */
module CelText {
  type Unit = x: int | 0 <= x < 0x10000
  type Text = seq<Unit>

  const DOUBLE_QUOTE: Unit := 34
  const SINGLE_QUOTE: Unit := 39
  const BACKSLASH: Unit := 92
  const SPACE: Unit := 32
  const LF: Unit := 10
  const CR: Unit := 13
  const DOT: Unit := 46
  const LOWER_U: Unit := 117

  /** The pattern \s of regular expressions, unit by unit. */
  predicate IsSpace(u: Unit) {
    || 9 <= u <= 13 || u == SPACE || u == 0xA0 || u == 0x1680 || 0x2000 <= u <= 0x200A
    || u == 0x2028 || u == 0x2029 || u == 0x202F || u == 0x205F || u == 0x3000 || u == 0xFEFF
  }

  predicate IsDigit(u: Unit) { 48 <= u <= 57 }

  predicate IsLetter(u: Unit) { 65 <= u <= 90 || 97 <= u <= 122 || u == 95 }

  predicate IsWordPart(u: Unit) { IsLetter(u) || IsDigit(u) }

  predicate IsQuote(u: Unit) { u == SINGLE_QUOTE || u == DOUBLE_QUOTE }

  predicate IsHex(u: Unit) { IsDigit(u) || 65 <= u <= 70 || 97 <= u <= 102 }

  function HexDigit(u: Unit): (d: nat)
    requires IsHex(u)
    ensures d < 16
  {
    if u <= 57 then u - 48 else if u <= 70 then u - 55 else u - 87
  }

  /** Number.parseInt(digits, 16) of four hexadecimal digits. */
  function HexUnit(a: Unit, b: Unit, c: Unit, d: Unit): Unit
    requires IsHex(a) && IsHex(b) && IsHex(c) && IsHex(d)
  {
    HexDigit(a) * 4096 + HexDigit(b) * 256 + HexDigit(c) * 16 + HexDigit(d)
  }

  const OR: Text := [124, 124]
  const AND: Text := [38, 38]
  const EQUALS: Text := [61, 61]
  const DIFFERS: Text := [33, 61]
  const AT_MOST: Text := [60, 61]
  const AT_LEAST: Text := [62, 61]
  const LESS: Text := [60]
  const GREATER: Text := [62]
  const PLUS: Text := [43]
  const MINUS: Text := [45]
  const TIMES: Text := [42]
  const DIVIDE: Text := [47]
  const REMAINDER: Text := [37]
  const NOT: Text := [33]

  const OPEN_BRACE: Text := [123]
  const CLOSE_BRACE: Text := [125]
  const OPEN_BRACKET: Text := [91]
  const CLOSE_BRACKET: Text := [93]
  const OPEN_PAREN: Text := [40]
  const CLOSE_PAREN: Text := [41]
  const COMMA: Text := [44]
  const COLON: Text := [58]
  const QUESTION: Text := [63]
  const PERIOD: Text := [46]

  /** && || == != <= >= */
  predicate IsPair(u: Unit, v: Unit) {
    (u == 38 && v == 38) || (u == 124 && v == 124) || (v == 61 && (u == 61 || u == 33 || u == 60 || u == 62))
  }

  /** + - * / % ! < > */
  predicate IsOperatorUnit(u: Unit) {
    u == 43 || u == 45 || u == 42 || u == 47 || u == 37 || u == 33 || u == 60 || u == 62
  }

  /** { } [ ] ( ) , : ? . */
  predicate IsPunctuationUnit(u: Unit) {
    || u == 123 || u == 125 || u == 91 || u == 93 || u == 40 || u == 41 || u == 44 || u == 58 || u == 63 || u == 46
  }

  /** String.trim. */
  function Trim(s: Text): (t: Text)
    decreases |s|
  {
    if s != [] && IsSpace(s[0]) then Trim(s[1..])
    else if s != [] && IsSpace(s[|s| - 1]) then Trim(s[..|s| - 1])
    else s
  }
}

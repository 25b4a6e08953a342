/** JSON texts as UTF-16 code units, their tokens and a lexer (RFC 8259, sections 2, 6 and 7; numbers are
    integers). */
module JsonText {
  import opened Wrappers

  type CodeUnit = x: int | 0 <= x < 0x1_0000 witness 0

  type Text = seq<CodeUnit>

  datatype Token =
    | LBrace | RBrace | LBracket | RBracket | Colon | Comma
    | TNull | TTrue | TFalse
    | TNum(n: int)
    | TStr(s: Text)

  const QUOTE: CodeUnit := 34
  const BACKSLASH: CodeUnit := 92
  const MINUS: CodeUnit := 45
  const ZERO: CodeUnit := 48
  const LETTER_U: CodeUnit := 117
  const NULL_TEXT: Text := [110, 117, 108, 108]
  const TRUE_TEXT: Text := [116, 114, 117, 101]
  const FALSE_TEXT: Text := [102, 97, 108, 115, 101]

  // ---- integers ----

  predicate IsDigit(c: CodeUnit) { 48 <= c <= 57 }

  function Digits(n: nat): (t: Text)
    ensures |t| > 0 && forall i | 0 <= i < |t| :: IsDigit(t[i])
    ensures n > 0 ==> t[0] != ZERO
    ensures n == 0 ==> t == [ZERO]
  {
    if n < 10 then [ZERO + n] else Digits(n / 10) + [ZERO + n % 10]
  }

  function NumberText(n: int): Text {
    if n < 0 then [MINUS] + Digits(-n) else Digits(n)
  }

  function ValueOf(ds: Text): nat
    requires forall i | 0 <= i < |ds| :: IsDigit(ds[i])
  {
    if ds == [] then 0
    else
      assert IsDigit(ds[|ds| - 1]);
      ValueOf(ds[..|ds| - 1]) * 10 + (ds[|ds| - 1] - ZERO)
  }

  lemma {:induction false} DigitsValue(n: nat)
    ensures ValueOf(Digits(n)) == n
  {
    if n < 10 {
      assert Digits(n)[..0] == [];
    } else {
      DigitsValue(n / 10);
      assert Digits(n)[..|Digits(n)| - 1] == Digits(n / 10);
    }
  }

  /** The length of the longest prefix of digits. */
  function DigitRun(t: Text): (k: nat)
    ensures k <= |t| && (forall i | 0 <= i < k :: IsDigit(t[i])) && (k < |t| ==> !IsDigit(t[k]))
  {
    if t == [] || !IsDigit(t[0]) then 0
    else
      var k := DigitRun(t[1..]);
      assert forall i | 0 < i < k + 1 :: t[i] == t[1..][i - 1];
      k + 1
  }

  /** An unsigned integer without leading zeros, and what follows it. */
  function ReadNat(t: Text): (r: Option<(nat, Text)>)
    ensures r.Some? ==> |r.value.1| < |t|
  {
    var k := DigitRun(t);
    if k == 0 then None
    else if t[0] == ZERO then Some((0, t[1..]))
    else Some((ValueOf(t[..k]), t[k..]))
  }

  function ReadInt(t: Text): (r: Option<(int, Text)>)
    ensures r.Some? ==> |r.value.1| < |t|
  {
    if t != [] && t[0] == MINUS then
      var r := ReadNat(t[1..]);
      if r.None? then None
      else
        var m: int := r.value.0;
        Some((0 - m, r.value.1))
    else
      var r := ReadNat(t);
      if r.None? then None
      else
        var m: int := r.value.0;
        Some((m, r.value.1))
  }

  /** What may follow a number without being read as part of it. */
  predicate EndsNumber(rest: Text) {
    rest == [] || !IsDigit(rest[0])
  }

  lemma {:induction false} DigitRunBack(d: Text, rest: Text)
    requires EndsNumber(rest) && forall i | 0 <= i < |d| :: IsDigit(d[i])
    ensures DigitRun(d + rest) == |d|
    decreases |d|
  {
    if d == [] {
      assert d + rest == rest;
    } else {
      assert (d + rest)[0] == d[0] && (d + rest)[1..] == d[1..] + rest;
      DigitRunBack(d[1..], rest);
    }
  }

  lemma ReadNatBack(n: nat, rest: Text)
    requires EndsNumber(rest)
    ensures ReadNat(Digits(n) + rest) == Some((n, rest))
  {
    var t, d := Digits(n) + rest, Digits(n);
    DigitRunBack(d, rest);
    assert t[0] == d[0] && t[..|d|] == d && t[|d|..] == rest;
    DigitsValue(n);
  }

  lemma ReadIntBack(n: int, rest: Text)
    requires EndsNumber(rest)
    ensures ReadInt(NumberText(n) + rest) == Some((n, rest))
  {
    var d := if n < 0 then Digits(-n) else Digits(n);
    ReadNatBack(if n < 0 then -n else n, rest);
    assert IsDigit(d[0]);
    var t := NumberText(n) + rest;
    assert NumberText(n) == if n < 0 then [MINUS] + d else d;
    hide ReadNat, Digits, NumberText;
    if n < 0 {
      assert t[0] == MINUS && t[1..] == d + rest;
    } else {
      assert t[0] == d[0];
    }
  }

  // ---- strings ----

  predicate IsHigh(c: CodeUnit) { 0xD800 <= c <= 0xDBFF }

  predicate IsLow(c: CodeUnit) { 0xDC00 <= c <= 0xDFFF }

  function HexDigit(d: int): CodeUnit
    requires 0 <= d < 16
  {
    if d < 10 then 48 + d else 87 + d
  }

  function HexValue(c: CodeUnit): (r: Option<int>)
    ensures r.Some? ==> 0 <= r.value < 16
  {
    if 48 <= c <= 57 then Some(c - 48)
    else if 97 <= c <= 102 then Some(c - 87)
    else if 65 <= c <= 70 then Some(c - 55)
    else None
  }

  /** `\uXXXX` with lower-case digits. */
  function UnicodeEscape(c: CodeUnit): Text {
    [BACKSLASH, LETTER_U, HexDigit(c / 4096), HexDigit(c / 256 % 16), HexDigit(c / 16 % 16), HexDigit(c % 16)]
  }

  /** The letter of a two-character escape, if the unit has one. */
  function ShortEscape(c: CodeUnit): Option<CodeUnit> {
    if c == 8 then Some(98)
    else if c == 9 then Some(116)
    else if c == 10 then Some(110)
    else if c == 12 then Some(102)
    else if c == 13 then Some(114)
    else if c == QUOTE || c == BACKSLASH then Some(c)
    else None
  }

  function EscapeUnit(c: CodeUnit): Text {
    if ShortEscape(c).Some? then [BACKSLASH, ShortEscape(c).value]
    else if c < 32 || IsHigh(c) || IsLow(c) then UnicodeEscape(c)
    else [c]
  }

  /** JSON.stringify on strings: control characters, quotes, backslashes and lone surrogates are escaped,
      surrogate pairs are kept. */
  function Escape(s: Text): Text {
    if s == [] then []
    else if |s| > 1 && IsHigh(s[0]) && IsLow(s[1]) then [s[0], s[1]] + Escape(s[2..])
    else EscapeUnit(s[0]) + Escape(s[1..])
  }

  function Quoted(s: Text): Text {
    [QUOTE] + Escape(s) + [QUOTE]
  }

  function UnescapeLetter(c: CodeUnit): Option<CodeUnit> {
    if c == 98 then Some(8)
    else if c == 116 then Some(9)
    else if c == 110 then Some(10)
    else if c == 102 then Some(12)
    else if c == 114 then Some(13)
    else if c == QUOTE || c == BACKSLASH || c == 47 then Some(c)
    else None
  }

  /** One possibly escaped unit, and what follows it. */
  function ReadUnit(t: Text): (r: Option<(CodeUnit, Text)>)
    ensures r.Some? ==> |r.value.1| < |t|
  {
    if t == [] || t[0] < 32 || t[0] == QUOTE then None
    else if t[0] != BACKSLASH then Some((t[0], t[1..]))
    else if |t| < 2 then None
    else if t[1] == LETTER_U then
      if |t| < 6 then None
      else
        var a, b, c, d := HexValue(t[2]), HexValue(t[3]), HexValue(t[4]), HexValue(t[5]);
        if a.None? || b.None? || c.None? || d.None? then None
        else Some((a.value * 4096 + b.value * 256 + c.value * 16 + d.value, t[6..]))
    else if UnescapeLetter(t[1]).None? then None
    else Some((UnescapeLetter(t[1]).value, t[2..]))
  }

  /** The string up to the closing quote, and what follows that quote. */
  function ReadString(t: Text): (r: Option<(Text, Text)>)
    ensures r.Some? ==> |r.value.1| < |t|
    decreases |t|
  {
    if t == [] then None
    else if t[0] == QUOTE then Some(([], t[1..]))
    else
      var u := ReadUnit(t);
      if u.None? then None
      else
        var r := ReadString(u.value.1);
        if r.None? then None else Some(([u.value.0] + r.value.0, r.value.1))
  }

  lemma ReadUnitBack(c: CodeUnit, rest: Text)
    ensures ReadUnit(EscapeUnit(c) + rest) == Some((c, rest))
    ensures (EscapeUnit(c) + rest)[0] != QUOTE
  {
    var t := EscapeUnit(c) + rest;
    if ShortEscape(c).Some? {
      assert t[0] == BACKSLASH && t[1] == ShortEscape(c).value && t[2..] == rest;
    } else if c < 32 || IsHigh(c) || IsLow(c) {
      UnicodeBack(c, rest);
    } else {
      assert t[1..] == rest;
    }
  }

  lemma UnicodeBack(c: CodeUnit, rest: Text)
    ensures ReadUnit(UnicodeEscape(c) + rest) == Some((c, rest))
  {
    hide ReadUnit, HexDigit;
    var x, y, z, w := c / 4096, c / 256 % 16, c / 16 % 16, c % 16;
    HexDigitsOf(c);
    FourDigits(x, y, z, w, rest);
  }

  lemma HexDigitsOf(c: CodeUnit)
    ensures c / 4096 < 16 && c == c / 4096 * 4096 + c / 256 % 16 * 256 + c / 16 % 16 * 16 + c % 16
  {
  }

  lemma FourDigits(x: int, y: int, z: int, w: int, rest: Text)
    requires 0 <= x < 16 && 0 <= y < 16 && 0 <= z < 16 && 0 <= w < 16
    ensures ReadUnit([BACKSLASH, LETTER_U, HexDigit(x), HexDigit(y), HexDigit(z), HexDigit(w)] + rest)
            == Some((x * 4096 + y * 256 + z * 16 + w, rest))
  {
  }

  lemma {:induction false} ReadStringBack(s: Text, rest: Text)
    ensures ReadString(Escape(s) + [QUOTE] + rest) == Some((s, rest))
    decreases |s|
  {
    hide Escape, ReadString;
    if s == [] {
      NothingLeft(rest);
    } else if |s| > 1 && IsHigh(s[0]) && IsLow(s[1]) {
      var u := Escape(s[2..]) + [QUOTE] + rest;
      ReadStringBack(s[2..], rest);
      PlainUnit(s[1], u, s[2..], rest);
      PlainUnit(s[0], [s[1]] + u, [s[1]] + s[2..], rest);
      EscapedPair(s, rest);
      assert s == [s[0]] + ([s[1]] + s[2..]);
    } else {
      ReadStringBack(s[1..], rest);
      EscapedUnit(s, rest);
      AnyUnit(s[0], Escape(s[1..]) + [QUOTE] + rest, s[1..], rest);
      assert s == [s[0]] + s[1..];
    }
  }

  lemma NothingLeft(rest: Text)
    ensures ReadString(Escape([]) + [QUOTE] + rest) == Some(([], rest))
  {
  }

  lemma EscapedPair(s: Text, rest: Text)
    requires |s| > 1 && IsHigh(s[0]) && IsLow(s[1])
    ensures Escape(s) + [QUOTE] + rest == [s[0]] + ([s[1]] + (Escape(s[2..]) + [QUOTE] + rest))
  {
    assert Escape(s) == [s[0], s[1]] + Escape(s[2..]);
    Ungroup(s[0], s[1], Escape(s[2..]), rest);
  }

  lemma Ungroup(a: CodeUnit, b: CodeUnit, t: Text, rest: Text)
    ensures [a, b] + t + [QUOTE] + rest == [a] + ([b] + (t + [QUOTE] + rest))
  {
  }

  lemma EscapedUnit(s: Text, rest: Text)
    requires s != [] && !(|s| > 1 && IsHigh(s[0]) && IsLow(s[1]))
    ensures Escape(s) + [QUOTE] + rest == EscapeUnit(s[0]) + (Escape(s[1..]) + [QUOTE] + rest)
  {
    hide EscapeUnit;
    assert Escape(s) == EscapeUnit(s[0]) + Escape(s[1..]);
    UngroupUnit(EscapeUnit(s[0]), Escape(s[1..]), rest);
  }

  lemma UngroupUnit(a: Text, t: Text, rest: Text)
    ensures a + t + [QUOTE] + rest == a + (t + [QUOTE] + rest)
  {
  }

  /** A unit that needs no escape is read as itself. */
  lemma PlainUnit(c: CodeUnit, u: Text, s: Text, rest: Text)
    requires c >= 32 && c != QUOTE && c != BACKSLASH && ReadString(u) == Some((s, rest))
    ensures ReadString([c] + u) == Some(([c] + s, rest))
  {
  }

  lemma AnyUnit(c: CodeUnit, u: Text, s: Text, rest: Text)
    requires ReadString(u) == Some((s, rest))
    ensures ReadString(EscapeUnit(c) + u) == Some(([c] + s, rest))
  {
    hide EscapeUnit, ReadUnit;
    ReadUnitBack(c, u);
  }

  // ---- tokens ----

  predicate IsSpace(c: CodeUnit) { c == 32 || c == 9 || c == 10 || c == 13 }

  predicate AllSpace(w: Text) {
    forall i | 0 <= i < |w| :: IsSpace(w[i])
  }

  function TokenText(tok: Token): Text {
    match tok
    case LBrace => [123]
    case RBrace => [125]
    case LBracket => [91]
    case RBracket => [93]
    case Colon => [58]
    case Comma => [44]
    case TNull => NULL_TEXT
    case TTrue => TRUE_TEXT
    case TFalse => FALSE_TEXT
    case TNum(n) => NumberText(n)
    case TStr(s) => Quoted(s)
  }

  function Punctuation(c: CodeUnit): Option<Token> {
    if c == 123 then Some(LBrace)
    else if c == 125 then Some(RBrace)
    else if c == 91 then Some(LBracket)
    else if c == 93 then Some(RBracket)
    else if c == 58 then Some(Colon)
    else if c == 44 then Some(Comma)
    else None
  }

  function LexOne(t: Text): (r: Option<(Token, Text)>)
    requires t != []
    ensures r.Some? ==> |r.value.1| < |t|
  {
    if Punctuation(t[0]).Some? then Some((Punctuation(t[0]).value, t[1..]))
    else if NULL_TEXT <= t then Some((TNull, t[4..]))
    else if TRUE_TEXT <= t then Some((TTrue, t[4..]))
    else if FALSE_TEXT <= t then Some((TFalse, t[5..]))
    else if t[0] == QUOTE then
      var r := ReadString(t[1..]);
      if r.None? then None else Some((TStr(r.value.0), r.value.1))
    else
      var r := ReadInt(t);
      if r.None? then None else Some((TNum(r.value.0), r.value.1))
  }

  function Before(ts: seq<Token>, r: Option<seq<Token>>): Option<seq<Token>> {
    if r.None? then None else Some(ts + r.value)
  }

  /** The tokens of a text, white space dropped; `None` when some part is not a token. */
  function Lex(t: Text): Option<seq<Token>>
    decreases |t|
  {
    if t == [] then Some([])
    else if IsSpace(t[0]) then Lex(t[1..])
    else
      var r := LexOne(t);
      if r.None? then None else Before([r.value.0], Lex(r.value.1))
  }

  lemma LexKeyword(tok: Token, rest: Text)
    requires tok == TNull || tok == TTrue || tok == TFalse
    ensures LexOne(TokenText(tok) + rest) == Some((tok, rest)) && !IsSpace((TokenText(tok) + rest)[0])
  {
  }

  lemma LexNumber(n: int, rest: Text)
    requires EndsNumber(rest)
    ensures LexOne(NumberText(n) + rest) == Some((TNum(n), rest)) && !IsSpace((NumberText(n) + rest)[0])
  {
    var t := NumberText(n) + rest;
    ReadIntBack(n, rest);
    assert t[0] == NumberText(n)[0] && (t[0] == MINUS || IsDigit(t[0]));
    hide ReadInt, NumberText;
    assert NULL_TEXT[0] == 110 && TRUE_TEXT[0] == 116 && FALSE_TEXT[0] == 102;
  }

  lemma LexString(s: Text, rest: Text)
    ensures LexOne(Quoted(s) + rest) == Some((TStr(s), rest)) && !IsSpace((Quoted(s) + rest)[0])
  {
    var t := Quoted(s) + rest;
    ReadStringBack(s, rest);
    assert t[0] == QUOTE && t[1..] == Escape(s) + [QUOTE] + rest;
    hide ReadString, Escape, Quoted;
    assert NULL_TEXT[0] == 110 && TRUE_TEXT[0] == 116 && FALSE_TEXT[0] == 102;
  }

  lemma LexOneBack(tok: Token, rest: Text)
    requires tok.TNum? ==> EndsNumber(rest)
    ensures TokenText(tok) + rest != [] && !IsSpace((TokenText(tok) + rest)[0])
    ensures LexOne(TokenText(tok) + rest) == Some((tok, rest))
  {
    match tok
    case TNum(n) => LexNumber(n, rest);
    case TStr(s) => LexString(s, rest);
    case TNull => LexKeyword(tok, rest);
    case TTrue => LexKeyword(tok, rest);
    case TFalse => LexKeyword(tok, rest);
    case _ => assert (TokenText(tok) + rest)[1..] == rest;
  }

  /** Lexing one printed token, then the rest. */
  lemma LexToken(tok: Token, rest: Text)
    requires tok.TNum? ==> EndsNumber(rest)
    ensures Lex(TokenText(tok) + rest) == Before([tok], Lex(rest))
  {
    LexOneBack(tok, rest);
  }

  /** White space in front of a text does not change its tokens. */
  lemma {:induction false} LexSpace(w: Text, rest: Text)
    requires AllSpace(w)
    ensures Lex(w + rest) == Lex(rest)
    decreases |w|
  {
    if w == [] {
      assert w + rest == rest;
    } else {
      assert (w + rest)[0] == w[0] && (w + rest)[1..] == w[1..] + rest;
      LexSpace(w[1..], rest);
    }
  }

  lemma BeforeTwice(a: seq<Token>, b: seq<Token>, r: Option<seq<Token>>)
    ensures Before(a, Before(b, r)) == Before(a + b, r)
  {
    if r.Some? {
      assert a + (b + r.value) == (a + b) + r.value;
    }
  }
}

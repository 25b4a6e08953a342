/** Layouts of a value: texts that differ from each other only in insignificant white space. Every printer
    builds its texts with `Join`, so one lemma per container shape covers them all. */
module JsonLayout {
  import opened Wrappers
  import opened JsonText
  import opened JsonParser

  const COMMA: CodeUnit := 44
  const COLON: CodeUnit := 58
  const OPEN_BRACKET: CodeUnit := 91
  const CLOSE_BRACKET: CodeUnit := 93
  const OPEN_BRACE: CodeUnit := 123
  const CLOSE_BRACE: CodeUnit := 125
  const NEWLINE: CodeUnit := 10
  const SPACE: CodeUnit := 32

  function Join(ts: seq<Text>, sep: Text): Text {
    if ts == [] then []
    else if |ts| == 1 then ts[0]
    else ts[0] + sep + Join(ts[1..], sep)
  }

  ghost predicate Gives(t: Text, ts: seq<Token>) {
    forall rest: Text | EndsNumber(rest) :: Lex(t + rest) == Before(ts, Lex(rest))
  }

  /** `t` is a text of `v` that may be followed by anything but a digit. */
  ghost predicate Lays(v: Json, t: Text) {
    Plain(v) && Gives(t, Tokens(v))
  }

  lemma GivesAt(t: Text, ts: seq<Token>, rest: Text)
    requires Gives(t, ts) && EndsNumber(rest)
    ensures Lex(t + rest) == Before(ts, Lex(rest))
  {
  }

  lemma TokenGives(tok: Token)
    ensures Gives(TokenText(tok), [tok])
  {
    forall rest: Text | EndsNumber(rest) ensures Lex(TokenText(tok) + rest) == Before([tok], Lex(rest)) {
      LexToken(tok, rest);
    }
  }

  /** Texts in sequence give tokens in sequence when the second does not start with a digit. */
  lemma GivesConcat(a: Text, s: seq<Token>, b: Text, t: seq<Token>)
    requires Gives(a, s) && Gives(b, t) && b != [] && !IsDigit(b[0])
    ensures Gives(a + b, s + t)
  {
    hide Lex;
    forall rest: Text | EndsNumber(rest) ensures Lex(a + b + rest) == Before(s + t, Lex(rest)) {
      assert (b + rest)[0] == b[0];
      assert a + b + rest == a + (b + rest);
      GivesAt(a, s, b + rest);
      GivesAt(b, t, rest);
      BeforeTwice(s, t, Lex(rest));
    }
  }

  /** A token that is not a number may be followed by any text. */
  lemma GivesAfter(tok: Token, b: Text, t: seq<Token>)
    requires !tok.TNum? && Gives(b, t)
    ensures Gives(TokenText(tok) + b, [tok] + t)
  {
    hide Lex;
    forall rest: Text | EndsNumber(rest) ensures Lex(TokenText(tok) + b + rest) == Before([tok] + t, Lex(rest)) {
      assert TokenText(tok) + b + rest == TokenText(tok) + (b + rest);
      LexToken(tok, b + rest);
      GivesAt(b, t, rest);
      BeforeTwice([tok], t, Lex(rest));
    }
  }

  lemma GivesSpace(w: Text, b: Text, t: seq<Token>)
    requires AllSpace(w) && Gives(b, t)
    ensures Gives(w + b, t)
  {
    hide Lex;
    forall rest: Text | EndsNumber(rest) ensures Lex(w + b + rest) == Before(t, Lex(rest)) {
      assert w + b + rest == w + (b + rest);
      LexSpace(w, b + rest);
      GivesAt(b, t, rest);
    }
  }

  lemma SpaceGivesNothing(w: Text)
    requires AllSpace(w)
    ensures Gives(w, [])
  {
    forall rest: Text | EndsNumber(rest) ensures Lex(w + rest) == Before([], Lex(rest)) {
      LexSpace(w, rest);
      assert Lex(rest).Some? ==> [] + Lex(rest).value == Lex(rest).value;
    }
  }

  // ---- scalars ----

  function ScalarText(v: Json): Text
    requires !v.Undef? && !v.Arr? && !v.Obj?
  {
    match v
    case Null => NULL_TEXT
    case Bool(b) => if b then TRUE_TEXT else FALSE_TEXT
    case Num(n) => NumberText(n)
    case Str(s) => Quoted(s)
  }

  function ScalarToken(v: Json): Token
    requires !v.Undef? && !v.Arr? && !v.Obj?
  {
    match v
    case Null => TNull
    case Bool(b) => if b then TTrue else TFalse
    case Num(n) => TNum(n)
    case Str(s) => TStr(s)
  }

  lemma LaysScalar(v: Json)
    requires !v.Undef? && !v.Arr? && !v.Obj?
    ensures Lays(v, ScalarText(v))
  {
    hide Gives, TokenText, ScalarText;
    TokenGives(ScalarToken(v));
    ScalarTokenText(v);
  }

  lemma ScalarTokenText(v: Json)
    requires !v.Undef? && !v.Arr? && !v.Obj?
    ensures TokenText(ScalarToken(v)) == ScalarText(v)
  {
    hide NumberText, Quoted;
  }

  // ---- containers ----

  lemma {:induction false} JoinItems(items: seq<Json>, ts: seq<Text>, gap: Text)
    requires |items| == |ts| > 0 && AllSpace(gap)
    requires forall i | 0 <= i < |items| :: Lays(items[i], ts[i])
    ensures forall i | 0 <= i < |items| :: Plain(items[i])
    ensures Gives(Join(ts, [COMMA] + gap), ItemTokens(items))
    decreases |items|
  {
    hide Gives;
    if |items| > 1 {
      var more := Join(ts[1..], [COMMA] + gap);
      JoinItems(items[1..], ts[1..], gap);
      GivesSpace(gap, more, ItemTokens(items[1..]));
      GivesAfter(Comma, gap + more, ItemTokens(items[1..]));
      GivesConcat(ts[0], Tokens(items[0]), TokenText(Comma) + (gap + more), [Comma] + ItemTokens(items[1..]));
      assert ts[0] + (TokenText(Comma) + (gap + more)) == Join(ts, [COMMA] + gap);
      assert Tokens(items[0]) + ([Comma] + ItemTokens(items[1..])) == ItemTokens(items);
    }
  }

  lemma ItemsBody(items: seq<Json>, ts: seq<Text>, gap: Text)
    requires |items| == |ts| && AllSpace(gap)
    requires forall i | 0 <= i < |items| :: Lays(items[i], ts[i])
    ensures forall i | 0 <= i < |items| :: Plain(items[i])
    ensures Gives(Join(ts, [COMMA] + gap), ItemTokens(items))
  {
    hide Gives;
    if items == [] {
      SpaceGivesNothing([]);
    } else {
      JoinItems(items, ts, gap);
    }
  }

  lemma LaysArr(items: seq<Json>, ts: seq<Text>, start: Text, gap: Text, end: Text)
    requires |items| == |ts| && AllSpace(start) && AllSpace(gap) && AllSpace(end)
    requires forall i | 0 <= i < |items| :: Lays(items[i], ts[i])
    ensures Lays(Arr(items), [OPEN_BRACKET] + start + Join(ts, [COMMA] + gap) + end + [CLOSE_BRACKET])
  {
    var body := Join(ts, [COMMA] + gap);
    ItemsBody(items, ts, gap);
    hide Gives, Join, ItemTokens, AllSpace, Lays;
    assert Plain(Arr(items));
    Wrap(LBracket, start, body, ItemTokens(items), end, RBracket);
    assert Tokens(Arr(items)) == [LBracket] + ItemTokens(items) + [RBracket];
    MakeLays(Arr(items), TokenText(LBracket) + start + body + end + TokenText(RBracket));
  }

  lemma MakeLays(v: Json, t: Text)
    requires Plain(v) && Gives(t, Tokens(v))
    ensures Lays(v, t)
  {
  }

  /** Brackets and white space around a body. */
  lemma Wrap(left: Token, start: Text, body: Text, inner: seq<Token>, end: Text, right: Token)
    requires AllSpace(start) && AllSpace(end) && Gives(body, inner)
    requires (left == LBracket || left == LBrace) && (right == RBracket || right == RBrace)
    ensures Gives(TokenText(left) + start + body + end + TokenText(right), [left] + inner + [right])
  {
    hide Gives, AllSpace;
    Close(start, body, inner, end, right);
    var closed := start + body + end + TokenText(right);
    GivesAfter(left, closed, inner + [right]);
    assert TokenText(left) + closed == TokenText(left) + start + body + end + TokenText(right);
    assert [left] + (inner + [right]) == [left] + inner + [right];
  }

  lemma Close(start: Text, body: Text, inner: seq<Token>, end: Text, tok: Token)
    requires AllSpace(start) && AllSpace(end) && Gives(body, inner) && (tok == RBracket || tok == RBrace)
    ensures Gives(start + body + end + TokenText(tok), inner + [tok])
  {
    TokenGives(tok);
    hide Gives;
    GivesSpace(end, TokenText(tok), [tok]);
    assert !IsDigit((end + TokenText(tok))[0]);
    GivesConcat(body, inner, end + TokenText(tok), [tok]);
    GivesSpace(start, body + (end + TokenText(tok)), inner + [tok]);
    assert start + (body + (end + TokenText(tok))) == start + body + end + TokenText(tok);
  }

  function MemberText(k: Text, gap: Text, t: Text): Text {
    Quoted(k) + [COLON] + gap + t
  }

  lemma MemberGives(m: Member, gap: Text, t: Text)
    requires Lays(m.value, t) && AllSpace(gap)
    ensures Gives(MemberText(m.key, gap, t), [TStr(m.key), Colon] + Tokens(m.value))
  {
    hide Gives;
    GivesSpace(gap, t, Tokens(m.value));
    GivesAfter(Colon, gap + t, Tokens(m.value));
    GivesAfter(TStr(m.key), TokenText(Colon) + (gap + t), [Colon] + Tokens(m.value));
    assert TokenText(TStr(m.key)) + (TokenText(Colon) + (gap + t)) == MemberText(m.key, gap, t);
    assert [TStr(m.key)] + ([Colon] + Tokens(m.value)) == [TStr(m.key), Colon] + Tokens(m.value);
  }

  lemma {:induction false} JoinMembers(ms: seq<Member>, ts: seq<Text>, colonGap: Text, gap: Text, pad: Text, parts: seq<Text>)
    requires |ms| == |ts| == |parts| > 0 && AllSpace(gap) && AllSpace(colonGap) && AllSpace(pad)
    requires forall i | 0 <= i < |ms| :: Lays(ms[i].value, ts[i])
    requires forall i | 0 <= i < |ms| :: parts[i] == pad + MemberText(ms[i].key, colonGap, ts[i])
    ensures forall i | 0 <= i < |ms| :: Plain(ms[i].value)
    ensures Gives(Join(parts, [COMMA] + gap), MemberTokens(ms))
    decreases |ms|
  {
    hide Gives;
    var first := [TStr(ms[0].key), Colon] + Tokens(ms[0].value);
    MemberGives(ms[0], colonGap, ts[0]);
    GivesSpace(pad, MemberText(ms[0].key, colonGap, ts[0]), first);
    if |ms| > 1 {
      var more := Join(parts[1..], [COMMA] + gap);
      JoinMembers(ms[1..], ts[1..], colonGap, gap, pad, parts[1..]);
      GivesSpace(gap, more, MemberTokens(ms[1..]));
      GivesAfter(Comma, gap + more, MemberTokens(ms[1..]));
      GivesConcat(parts[0], first, TokenText(Comma) + (gap + more), [Comma] + MemberTokens(ms[1..]));
      assert parts[0] + (TokenText(Comma) + (gap + more)) == Join(parts, [COMMA] + gap);
      assert first + ([Comma] + MemberTokens(ms[1..])) == MemberTokens(ms);
    }
  }

  lemma MembersBody(ms: seq<Member>, ts: seq<Text>, colonGap: Text, gap: Text, pad: Text, parts: seq<Text>)
    requires |ms| == |ts| == |parts| && AllSpace(gap) && AllSpace(colonGap) && AllSpace(pad)
    requires forall i | 0 <= i < |ms| :: Lays(ms[i].value, ts[i])
    requires forall i | 0 <= i < |ms| :: parts[i] == pad + MemberText(ms[i].key, colonGap, ts[i])
    ensures forall i | 0 <= i < |ms| :: Plain(ms[i].value)
    ensures Gives(Join(parts, [COMMA] + gap), MemberTokens(ms))
  {
    hide Gives;
    if ms == [] {
      SpaceGivesNothing([]);
    } else {
      JoinMembers(ms, ts, colonGap, gap, pad, parts);
    }
  }

  lemma LaysObj(ms: seq<Member>, ts: seq<Text>, colonGap: Text, start: Text, gap: Text, pad: Text, end: Text, parts: seq<Text>)
    requires |ms| == |ts| == |parts| && DistinctKeys(ms)
    requires AllSpace(start) && AllSpace(gap) && AllSpace(end) && AllSpace(colonGap) && AllSpace(pad)
    requires forall i | 0 <= i < |ms| :: Lays(ms[i].value, ts[i])
    requires forall i | 0 <= i < |ms| :: parts[i] == pad + MemberText(ms[i].key, colonGap, ts[i])
    ensures Lays(Obj(ms), [OPEN_BRACE] + start + Join(parts, [COMMA] + gap) + end + [CLOSE_BRACE])
  {
    var body := Join(parts, [COMMA] + gap);
    MembersBody(ms, ts, colonGap, gap, pad, parts);
    hide Gives, Join, MemberTokens, AllSpace, Lays;
    assert Plain(Obj(ms));
    Wrap(LBrace, start, body, MemberTokens(ms), end, RBrace);
    assert Tokens(Obj(ms)) == [LBrace] + MemberTokens(ms) + [RBrace];
    MakeLays(Obj(ms), TokenText(LBrace) + start + body + end + TokenText(RBrace));
  }

  /** A layout is read back as the value it lays out, alone or inside surrounding white space. */
  lemma ReadLayout(v: Json, t: Text, after: Text)
    requires Lays(v, t) && AllSpace(after)
    ensures Lex(t + after) == Some(Tokens(v)) && Parse(t + after) == Some(v)
  {
    assert EndsNumber(after);
    GivesAt(t, Tokens(v), after);
    LexSpace(after, []);
    assert after + [] == after;
    assert Tokens(v) + [] == Tokens(v);
    ParseBack(v, []);
  }

  // ---- JSON.stringify without white space ----

  function Compact(v: Json): Text
    requires Plain(v)
    decreases v
  {
    match v
    case Undef => []
    case Arr(items) =>
      [OPEN_BRACKET] + Join(seq(|items|, i requires 0 <= i < |items| => Compact(items[i])), [COMMA]) + [CLOSE_BRACKET]
    case Obj(ms) =>
      [OPEN_BRACE] + Join(seq(|ms|, i requires 0 <= i < |ms| => MemberText(ms[i].key, [], Compact(ms[i].value))), [COMMA])
      + [CLOSE_BRACE]
    case Null => ScalarText(v)
    case Bool(_) => ScalarText(v)
    case Num(_) => ScalarText(v)
    case Str(_) => ScalarText(v)
  }

  lemma LaysTightArr(items: seq<Json>, ts: seq<Text>)
    requires |items| == |ts| && forall i | 0 <= i < |items| :: Lays(items[i], ts[i])
    ensures Lays(Arr(items), [OPEN_BRACKET] + Join(ts, [COMMA]) + [CLOSE_BRACKET])
  {
    hide Lays, Join;
    LaysArr(items, ts, [], [], []);
    assert [COMMA] + [] == [COMMA];
    assert [OPEN_BRACKET] + [] + Join(ts, [COMMA]) + [] + [CLOSE_BRACKET] == [OPEN_BRACKET] + Join(ts, [COMMA]) + [CLOSE_BRACKET];
  }

  lemma LaysTightObj(ms: seq<Member>, ts: seq<Text>, parts: seq<Text>)
    requires |ms| == |ts| == |parts| && DistinctKeys(ms)
    requires forall i | 0 <= i < |ms| :: Lays(ms[i].value, ts[i]) && parts[i] == MemberText(ms[i].key, [], ts[i])
    ensures Lays(Obj(ms), [OPEN_BRACE] + Join(parts, [COMMA]) + [CLOSE_BRACE])
  {
    hide Lays, Join, MemberText;
    assert forall i | 0 <= i < |ms| :: parts[i] == [] + MemberText(ms[i].key, [], ts[i]);
    LaysObj(ms, ts, [], [], [], [], [], parts);
    assert [COMMA] + [] == [COMMA];
    assert [OPEN_BRACE] + [] + Join(parts, [COMMA]) + [] + [CLOSE_BRACE] == [OPEN_BRACE] + Join(parts, [COMMA]) + [CLOSE_BRACE];
  }

  lemma {:induction false} CompactLays(v: Json)
    requires Plain(v)
    ensures Lays(v, Compact(v))
    decreases v
  {
    hide Lays, Join, MemberText, ScalarText;
    match v
    case Arr(items) =>
      var ts := seq(|items|, i requires 0 <= i < |items| => Compact(items[i]));
      forall i | 0 <= i < |items| ensures Lays(items[i], ts[i]) {
        CompactLays(items[i]);
      }
      LaysTightArr(items, ts);
    case Obj(ms) =>
      var ts := seq(|ms|, i requires 0 <= i < |ms| => Compact(ms[i].value));
      forall i | 0 <= i < |ms| ensures Lays(ms[i].value, ts[i]) {
        CompactLays(ms[i].value);
      }
      LaysTightObj(ms, ts, seq(|ms|, i requires 0 <= i < |ms| => MemberText(ms[i].key, [], Compact(ms[i].value))));
    case Undef =>
    case Null => LaysScalar(v);
    case Bool(_) => LaysScalar(v);
    case Num(_) => LaysScalar(v);
    case Str(_) => LaysScalar(v);
  }
}

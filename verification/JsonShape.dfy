/** The bytes of the house format: where spaces stand on one line, and exactly when and how a value is broken over
    several. */
module JsonShape {
  import opened JsonText
  import opened JsonParser
  import opened JsonLayout
  import opened JsonFormat

  // ---- one line ----

  /** The white space between two neighbouring tokens on one line: after a comma and a colon, and inside the braces
      of an object that is not empty. */
  function Gap(a: Token, b: Token): Text {
    if a == Comma || a == Colon || (a == LBrace && b != RBrace) || (b == RBrace && a != LBrace) then [SPACE] else []
  }

  function OnOneLine(ts: seq<Token>): Text {
    if ts == [] then []
    else if |ts| == 1 then TokenText(ts[0])
    else TokenText(ts[0]) + Gap(ts[0], ts[1]) + OnOneLine(ts[1..])
  }

  lemma OneLineStep(t: Token, rest: seq<Token>)
    requires rest != []
    ensures OnOneLine([t] + rest) == TokenText(t) + Gap(t, rest[0]) + OnOneLine(rest)
  {
    hide Gap, TokenText;
    assert ([t] + rest)[1..] == rest;
  }

  lemma {:induction false} OneLineConcat(a: seq<Token>, b: seq<Token>)
    requires a != [] && b != []
    ensures OnOneLine(a + b) == OnOneLine(a) + Gap(a[|a| - 1], b[0]) + OnOneLine(b)
    decreases |a|
  {
    hide Gap, TokenText;
    if |a| == 1 {
      assert a == [a[0]];
      OneLineStep(a[0], b);
    } else {
      assert a == [a[0]] + a[1..] && a + b == [a[0]] + (a[1..] + b);
      OneLineStep(a[0], a[1..]);
      OneLineStep(a[0], a[1..] + b);
      OneLineConcat(a[1..], b);
      Regroup(TokenText(a[0]) + Gap(a[0], a[1]), OnOneLine(a[1..]), Gap(a[|a| - 1], b[0]), OnOneLine(b));
    }
  }

  lemma Regroup(x: Text, a: Text, g: Text, b: Text)
    ensures x + (a + g + b) == x + a + g + b
  {
  }

  /** The last token of a value closes it. */
  predicate Closes(t: Token) {
    t != LBrace && t != LBracket && t != Comma && t != Colon
  }

  lemma {:induction false} LastCloses(v: Json)
    requires Plain(v)
    ensures Closes(Tokens(v)[|Tokens(v)| - 1])
    ensures Tokens(v)[0] != Comma && Tokens(v)[0] != Colon
  {
  }

  lemma {:induction false} ItemsClose(items: seq<Json>)
    requires items != [] && forall i | 0 <= i < |items| :: Plain(items[i])
    ensures ItemTokens(items)[|ItemTokens(items)| - 1] != Comma && ItemTokens(items)[|ItemTokens(items)| - 1] != Colon
    ensures ItemTokens(items)[|ItemTokens(items)| - 1] != LBrace
    decreases |items|
  {
    hide Tokens;
    if |items| == 1 {
      LastCloses(items[0]);
    } else {
      ItemsClose(items[1..]);
    }
  }

  lemma {:induction false} MembersClose(ms: seq<Member>)
    requires ms != [] && forall i | 0 <= i < |ms| :: Plain(ms[i].value)
    ensures MemberTokens(ms)[|MemberTokens(ms)| - 1] != LBrace
    decreases |ms|
  {
    hide Tokens;
    if |ms| == 1 {
      LastCloses(ms[0].value);
    } else {
      MembersClose(ms[1..]);
    }
  }

  /** The one-line form is the value's tokens with exactly those spaces between them. */
  lemma {:induction false} InlineIsOnOneLine(v: Json)
    requires Plain(v)
    ensures Inline(v) == OnOneLine(Tokens(v))
    decreases v, 1
  {
    hide Join, TokenText, ScalarText, MemberText;
    match v
    case Arr(items) =>
      var parts := seq(|items|, i requires 0 <= i < |items| => Inline(items[i]));
      forall i | 0 <= i < |items| ensures parts[i] == OnOneLine(Tokens(items[i])) {
        InlineIsOnOneLine(items[i]);
      }
      ArrOnOneLine(items, parts);
    case Obj(ms) =>
      EmptyOnOneLine();
      var parts := seq(|ms|, i requires 0 <= i < |ms| => MemberText(ms[i].key, [SPACE], Inline(ms[i].value)));
      forall i | 0 <= i < |ms| ensures parts[i] == MemberText(ms[i].key, [SPACE], OnOneLine(Tokens(ms[i].value))) {
        InlineIsOnOneLine(ms[i].value);
      }
      if ms != [] {
        ObjOnOneLine(ms, parts);
      }
    case Null => ScalarTokenText(v);
    case Bool(_) => ScalarTokenText(v);
    case Num(_) => ScalarTokenText(v);
    case Str(_) => ScalarTokenText(v);
  }

  lemma ArrOnOneLine(items: seq<Json>, parts: seq<Text>)
    requires Plain(Arr(items)) && |parts| == |items| && forall i | 0 <= i < |items| :: parts[i] == OnOneLine(Tokens(items[i]))
    ensures [OPEN_BRACKET] + Join(parts, [COMMA, SPACE]) + [CLOSE_BRACKET] == OnOneLine(Tokens(Arr(items)))
  {
    hide Join, OnOneLine, ItemTokens;
    var inner := ItemTokens(items);
    assert OnOneLine([LBracket]) == [OPEN_BRACKET] && OnOneLine([RBracket]) == [CLOSE_BRACKET] by { Brackets(); }
    assert Tokens(Arr(items)) == [LBracket] + inner + [RBracket];
    if items == [] {
      NoItems(parts);
      assert [LBracket] + [] + [RBracket] == [LBracket] + [RBracket];
      OneLineConcat([LBracket], [RBracket]);
    } else {
      ItemsOnOneLine(items, parts);
      ItemsClose(items);
      OneLineConcat([LBracket], inner);
      OneLineConcat([LBracket] + inner, [RBracket]);
      FirstItemToken(items);
    }
  }

  lemma FirstItemToken(items: seq<Json>)
    requires items != [] && forall i | 0 <= i < |items| :: Plain(items[i])
    ensures ItemTokens(items) != [] && ItemTokens(items)[0] != RBrace && ItemTokens(items)[0] != RBracket
  {
    hide Tokens;
  }

  lemma NoItems(parts: seq<Text>)
    requires parts == []
    ensures Join(parts, [COMMA, SPACE]) == [] && ItemTokens([]) == []
  {
  }

  lemma Brackets()
    ensures OnOneLine([LBracket]) == [OPEN_BRACKET] && OnOneLine([RBracket]) == [CLOSE_BRACKET]
    ensures OnOneLine([LBrace]) == [OPEN_BRACE] && OnOneLine([RBrace]) == [CLOSE_BRACE]
    ensures OnOneLine([Comma]) == [COMMA] && OnOneLine([Colon]) == [COLON]
  {
  }

  lemma {:induction false} ItemsOnOneLine(items: seq<Json>, parts: seq<Text>)
    requires items != [] && |parts| == |items|
    requires forall i | 0 <= i < |items| :: Plain(items[i]) && parts[i] == OnOneLine(Tokens(items[i]))
    ensures Join(parts, [COMMA, SPACE]) == OnOneLine(ItemTokens(items))
    decreases |items|
  {
    hide OnOneLine, Tokens;
    if |items| > 1 {
      var rest := ItemTokens(items[1..]);
      ItemsOnOneLine(items[1..], parts[1..]);
      Brackets();
      LastCloses(items[0]);
      FirstItemToken(items[1..]);
      OneLineConcat(Tokens(items[0]), [Comma]);
      OneLineConcat(Tokens(items[0]) + [Comma], rest);
      assert ItemTokens(items) == Tokens(items[0]) + [Comma] + rest;
      CommaGap(parts[0], OnOneLine(rest));
    }
  }

  lemma CommaGap(a: Text, b: Text)
    ensures a + [] + [COMMA] + [SPACE] + b == a + [COMMA, SPACE] + b
  {
    assert [COMMA] + [SPACE] == [COMMA, SPACE];
  }

  lemma ObjOnOneLine(ms: seq<Member>, parts: seq<Text>)
    requires Plain(Obj(ms)) && ms != [] && |parts| == |ms|
    requires forall i | 0 <= i < |ms| :: parts[i] == MemberText(ms[i].key, [SPACE], OnOneLine(Tokens(ms[i].value)))
    ensures [OPEN_BRACE, SPACE] + Join(parts, [COMMA, SPACE]) + [SPACE, CLOSE_BRACE] == OnOneLine(Tokens(Obj(ms)))
  {
    hide Join, OnOneLine, MemberTokens, MemberText;
    MembersOnOneLine(ms, parts);
    MembersClose(ms);
    Braced(MemberTokens(ms), Join(parts, [COMMA, SPACE]));
    assert Tokens(Obj(ms)) == [LBrace] + MemberTokens(ms) + [RBrace];
  }

  lemma Braced(inner: seq<Token>, body: Text)
    requires inner != [] && inner[0] != RBrace && inner[|inner| - 1] != LBrace && body == OnOneLine(inner)
    ensures [OPEN_BRACE, SPACE] + body + [SPACE, CLOSE_BRACE] == OnOneLine([LBrace] + inner + [RBrace])
  {
    hide OnOneLine;
    Brackets();
    OneLineConcat([LBrace], inner);
    OneLineConcat([LBrace] + inner, [RBrace]);
    BraceGaps(body);
  }

  lemma EmptyOnOneLine()
    ensures [OPEN_BRACE, CLOSE_BRACE] == OnOneLine(Tokens(Obj([])))
  {
    Brackets();
    OneLineConcat([LBrace], [RBrace]);
    NoMembersTokens();
    assert Tokens(Obj([])) == [LBrace] + [] + [RBrace] == [LBrace] + [RBrace];
    hide OnOneLine;
  }

  lemma NoMembersTokens()
    ensures MemberTokens([]) == []
  {
  }

  lemma BraceGaps(body: Text)
    ensures [OPEN_BRACE] + [SPACE] + body + [SPACE] + [CLOSE_BRACE] == [OPEN_BRACE, SPACE] + body + [SPACE, CLOSE_BRACE]
  {
    assert [OPEN_BRACE] + [SPACE] == [OPEN_BRACE, SPACE] && [SPACE] + [CLOSE_BRACE] == [SPACE, CLOSE_BRACE];
  }

  lemma MemberOnOneLine(k: Text, v: Json)
    requires Plain(v)
    ensures MemberText(k, [SPACE], OnOneLine(Tokens(v))) == OnOneLine([TStr(k), Colon] + Tokens(v))
  {
    hide OnOneLine, Tokens;
    Brackets();
    KeyToken(k);
    LastCloses(v);
    OneLineConcat([TStr(k)], [Colon]);
    OneLineConcat([TStr(k)] + [Colon], Tokens(v));
    assert [TStr(k)] + [Colon] == [TStr(k), Colon];
    assert Quoted(k) + [] + [COLON] == Quoted(k) + [COLON];
  }

  lemma KeyToken(k: Text)
    ensures OnOneLine([TStr(k)]) == Quoted(k)
  {
    hide Quoted;
  }

  lemma {:induction false} MembersOnOneLine(ms: seq<Member>, parts: seq<Text>)
    requires ms != [] && |parts| == |ms| && forall i | 0 <= i < |ms| :: Plain(ms[i].value)
    requires forall i | 0 <= i < |ms| :: parts[i] == MemberText(ms[i].key, [SPACE], OnOneLine(Tokens(ms[i].value)))
    ensures Join(parts, [COMMA, SPACE]) == OnOneLine(MemberTokens(ms))
    decreases |ms|
  {
    hide OnOneLine, Tokens, MemberText;
    var first := [TStr(ms[0].key), Colon] + Tokens(ms[0].value);
    MemberOnOneLine(ms[0].key, ms[0].value);
    if |ms| > 1 {
      var rest := MemberTokens(ms[1..]);
      MembersOnOneLine(ms[1..], parts[1..]);
      Brackets();
      LastCloses(ms[0].value);
      assert first[|first| - 1] == Tokens(ms[0].value)[|Tokens(ms[0].value)| - 1];
      OneLineConcat(first, [Comma]);
      OneLineConcat(first + [Comma], rest);
      assert MemberTokens(ms) == first + [Comma] + rest;
      CommaGap(parts[0], OnOneLine(rest));
    }
  }

  // ---- several lines ----

  predicate IsEmptyContainer(v: Json) {
    v == Arr([]) || v == Obj([])
  }

  /** The value stays on one line: nothing to break, or it fits the 120 columns together with its indentation. */
  predicate Fits(v: Json, indent: nat)
    requires Plain(v)
  {
    !IsContainer(v) || IsEmptyContainer(v) || 2 * indent + |Inline(v)| <= 120
  }

  function ItemCount(v: Json): nat {
    if v.Arr? then |v.items| else if v.Obj? then |v.members| else 0
  }

  function ItemOf(v: Json, i: nat): (item: Json)
    requires Plain(v) && i < ItemCount(v)
    ensures Plain(item)
  {
    if v.Arr? then v.items[i] else v.members[i].value
  }

  /** An item, written as `t`, on its line: two columns further in, under its key in an object. */
  function ItemLine(v: Json, indent: nat, i: nat, t: Text): Text
    requires i < ItemCount(v)
  {
    seq(2 * (indent + 1), _ => SPACE) + (if v.Obj? then Quoted(v.members[i].key) + [COLON, SPACE] else []) + t
  }

  /** The first `n` items, written as `ts`, each starting a line, with a comma after all but the last. */
  function ItemLines(v: Json, indent: nat, ts: seq<Text>, n: nat): Text
    requires n <= ItemCount(v) == |ts|
  {
    if n == 0 then []
    else ItemLines(v, indent, ts, n - 1) + [NEWLINE] + ItemLine(v, indent, n - 1, ts[n - 1]) + if n < |ts| then [COMMA] else []
  }

  /** The opening bracket, the items, each starting a line, and the closing bracket on its own line under the
      indentation. */
  function Broken(v: Json, indent: nat, ts: seq<Text>): Text
    requires IsContainer(v) && ItemCount(v) == |ts|
  {
    [if v.Arr? then OPEN_BRACKET else OPEN_BRACE] + ItemLines(v, indent, ts, |ts|) + [NEWLINE]
    + seq(2 * indent, _ => SPACE) + [if v.Arr? then CLOSE_BRACKET else CLOSE_BRACE]
  }

  function RenderedItems(v: Json, indent: nat): (ts: seq<Text>)
    requires Plain(v)
    ensures |ts| == ItemCount(v)
  {
    seq(ItemCount(v), i requires 0 <= i < ItemCount(v) => Render(ItemOf(v, i), indent))
  }

  function PrettyItems(v: Json, indent: nat): (ts: seq<Text>)
    requires Plain(v)
    ensures |ts| == ItemCount(v)
  {
    seq(ItemCount(v), i requires 0 <= i < ItemCount(v) => Pretty(ItemOf(v, i), indent))
  }

  lemma SpacesAre(n: nat)
    ensures Spaces(n) == seq(n, _ => SPACE)
  {
  }

  lemma {:induction false} JoinSnoc(ts: seq<Text>, sep: Text, t: Text)
    ensures Join(ts + [t], sep) == if ts == [] then t else Join(ts, sep) + sep + t
    decreases |ts|
  {
    if ts == [] {
      assert ts + [t] == [t];
    } else {
      assert (ts + [t])[0] == ts[0] && (ts + [t])[1..] == ts[1..] + [t];
      JoinSnoc(ts[1..], sep, t);
    }
  }

  /** The lines of the items as the printers join them. */
  lemma {:induction false} LinesAreJoined(v: Json, indent: nat, ts: seq<Text>, parts: seq<Text>, n: nat)
    requires 0 < n <= ItemCount(v) == |ts| == |parts| && forall i | 0 <= i < |parts| :: parts[i] == ItemLine(v, indent, i, ts[i])
    ensures ItemLines(v, indent, ts, n) == [NEWLINE] + Join(parts[..n], [COMMA, NEWLINE]) + if n < |parts| then [COMMA] else []
    decreases n
  {
    hide Join, ItemLine;
    assert parts[..n] == parts[..n - 1] + [parts[n - 1]];
    JoinSnoc(parts[..n - 1], [COMMA, NEWLINE], parts[n - 1]);
    var comma := if n < |parts| then [COMMA] else [];
    if n == 1 {
      assert ItemLines(v, indent, ts, 0) == [];
      assert [] + [NEWLINE] + parts[0] + comma == [NEWLINE] + parts[0] + comma;
    } else {
      LinesAreJoined(v, indent, ts, parts, n - 1);
      NextLine(Join(parts[..n - 1], [COMMA, NEWLINE]), parts[n - 1], comma);
    }
  }

  lemma NextLine(before: Text, line: Text, comma: Text)
    ensures [NEWLINE] + before + [COMMA] + [NEWLINE] + line + comma == [NEWLINE] + (before + [COMMA, NEWLINE] + line) + comma
  {
    assert [COMMA] + [NEWLINE] == [COMMA, NEWLINE];
  }

  lemma LinesOfArr(items: seq<Json>, indent: nat, ts: seq<Text>, parts: seq<Text>)
    requires items != [] && |items| == |ts| == |parts| && forall i | 0 <= i < |items| :: parts[i] == Pad(indent + 1) + ts[i]
    ensures LinesArr(parts, indent) == Broken(Arr(items), indent, ts)
  {
    hide Join, Quoted;
    SpacesAre(2 * (indent + 1));
    SpacesAre(2 * indent);
    forall i | 0 <= i < |parts| ensures parts[i] == ItemLine(Arr(items), indent, i, ts[i]) {
      assert Pad(indent + 1) + [] == Pad(indent + 1);
    }
    LinesAreJoined(Arr(items), indent, ts, parts, |items|);
    assert parts[..|items|] == parts;
    Bracketed([OPEN_BRACKET], Join(parts, [COMMA, NEWLINE]), Pad(indent), [CLOSE_BRACKET]);
  }

  lemma Bracketed(open: Text, body: Text, pad: Text, close: Text)
    requires |open| == 1
    ensures [open[0], NEWLINE] + body + [NEWLINE] + pad + close == open + ([NEWLINE] + body + []) + [NEWLINE] + pad + close
  {
    assert open == [open[0]] && [open[0], NEWLINE] == [open[0]] + [NEWLINE];
  }

  lemma LinesOfObj(ms: seq<Member>, indent: nat, ts: seq<Text>, parts: seq<Text>)
    requires ms != [] && |ms| == |ts| == |parts|
    requires forall i | 0 <= i < |ms| :: parts[i] == Pad(indent + 1) + MemberText(ms[i].key, [SPACE], ts[i])
    ensures LinesObj(parts, indent) == Broken(Obj(ms), indent, ts)
  {
    hide Join, Quoted;
    SpacesAre(2 * (indent + 1));
    SpacesAre(2 * indent);
    forall i | 0 <= i < |parts| ensures parts[i] == ItemLine(Obj(ms), indent, i, ts[i]) {
      KeyThenValue(Pad(indent + 1), ms[i].key, ts[i]);
    }
    LinesAreJoined(Obj(ms), indent, ts, parts, |ms|);
    assert parts[..|ms|] == parts;
    Bracketed([OPEN_BRACE], Join(parts, [COMMA, NEWLINE]), Pad(indent), [CLOSE_BRACE]);
  }

  lemma KeyThenValue(pad: Text, k: Text, t: Text)
    ensures pad + MemberText(k, [SPACE], t) == pad + (Quoted(k) + [COLON, SPACE]) + t
  {
    hide Quoted;
    assert [COLON] + [SPACE] == [COLON, SPACE];
  }

  // ---- no line breaks on one line ----

  lemma {:induction false} EscapedHasNoNewline(s: Text)
    ensures NEWLINE !in Escape(s)
    decreases |s|
  {
    if s == [] {
    } else if |s| > 1 && IsHigh(s[0]) && IsLow(s[1]) {
      EscapedHasNoNewline(s[2..]);
    } else {
      EscapedHasNoNewline(s[1..]);
    }
  }

  lemma {:induction false} NumberHasNoNewline(n: int)
    ensures NEWLINE !in NumberText(n)
  {
    var d := Digits(if n < 0 then -n else n);
    forall i | 0 <= i < |d| ensures d[i] != NEWLINE {
      assert IsDigit(d[i]);
    }
  }

  lemma TokenHasNoNewline(t: Token)
    ensures NEWLINE !in TokenText(t)
  {
    hide Escape, NumberText;
    match t
    case TNum(n) => NumberHasNoNewline(n);
    case TStr(s) => EscapedHasNoNewline(s);
    case _ =>
  }

  lemma {:induction false} OneLineHasNoNewline(ts: seq<Token>)
    ensures NEWLINE !in OnOneLine(ts)
  {
    hide TokenText;
    if ts != [] {
      TokenHasNoNewline(ts[0]);
      OneLineHasNoNewline(ts[1..]);
    }
  }

  // ---- when and how a value is broken ----

  /** A rendering holds a line break exactly when the value can be broken and does not fit its line; without one it
      is the one-line form, and otherwise it is broken, its items rendered one level further in. */
  lemma RenderBreaksIff(v: Json, indent: nat)
    requires Plain(v)
    ensures NEWLINE in Render(v, indent) <==> !Fits(v, indent)
    ensures Render(v, indent) == if Fits(v, indent) then Inline(v) else Broken(v, indent, RenderedItems(v, indent + 1))
  {
    hide Inline, Broken;
    if Fits(v, indent) {
      if IsEmptyContainer(v) {
        EmptyInline(v);
      }
      assert Render(v, indent) == Inline(v);
      InlineIsOnOneLine(v);
      OneLineHasNoNewline(Tokens(v));
    } else {
      RenderIsBroken(v, indent);
      BrokenHasNewline(v, indent, RenderedItems(v, indent + 1));
    }
  }

  lemma RenderIsBroken(v: Json, indent: nat)
    requires Plain(v) && !Fits(v, indent)
    ensures Render(v, indent) == Broken(v, indent, RenderedItems(v, indent + 1))
  {
    hide Inline, Broken, MemberText, LinesArr, LinesObj, Pad;
    assert |Pad(indent)| == 2 * indent;
    if v.Arr? {
      var items := v.items;
      var parts := seq(|items|, i requires 0 <= i < |items| => Pad(indent + 1) + Render(items[i], indent + 1));
      assert Render(v, indent) == LinesArr(parts, indent);
      hide Render;
      LinesOfArr(items, indent, RenderedItems(v, indent + 1), parts);
    } else {
      var ms := v.members;
      var parts := seq(|ms|, i requires 0 <= i < |ms| =>
                         Pad(indent + 1) + MemberText(ms[i].key, [SPACE], Render(ms[i].value, indent + 1)));
      assert Render(v, indent) == LinesObj(parts, indent);
      hide Render;
      LinesOfObj(ms, indent, RenderedItems(v, indent + 1), parts);
    }
  }

  /** JSON.stringify with a two-space indent breaks every container that is not empty. */
  lemma PrettyBreaks(v: Json, indent: nat)
    requires Plain(v)
    ensures Pretty(v, indent)
            == if IsContainer(v) && !IsEmptyContainer(v) then Broken(v, indent, PrettyItems(v, indent + 1)) else Inline(v)
  {
    hide Broken, MemberText, LinesArr, LinesObj, Pad, ScalarText;
    if v.Arr? && v.items != [] {
      var items := v.items;
      var parts := seq(|items|, i requires 0 <= i < |items| => Pad(indent + 1) + Pretty(items[i], indent + 1));
      assert Pretty(v, indent) == LinesArr(parts, indent);
      hide Pretty;
      LinesOfArr(items, indent, PrettyItems(v, indent + 1), parts);
    } else if v.Obj? && v.members != [] {
      var ms := v.members;
      var parts := seq(|ms|, i requires 0 <= i < |ms| =>
                         Pad(indent + 1) + MemberText(ms[i].key, [SPACE], Pretty(ms[i].value, indent + 1)));
      assert Pretty(v, indent) == LinesObj(parts, indent);
      hide Pretty;
      LinesOfObj(ms, indent, PrettyItems(v, indent + 1), parts);
    } else if IsEmptyContainer(v) {
      EmptyInline(v);
    }
  }

  lemma EmptyInline(v: Json)
    requires IsEmptyContainer(v)
    ensures Inline(v) == if v.Arr? then [OPEN_BRACKET, CLOSE_BRACKET] else [OPEN_BRACE, CLOSE_BRACE]
  {
  }

  lemma BrokenHasNewline(v: Json, indent: nat, ts: seq<Text>)
    requires IsContainer(v) && ItemCount(v) == |ts|
    ensures NEWLINE in Broken(v, indent, ts)
  {
    hide ItemLines;
    assert Broken(v, indent, ts)[1 + |ItemLines(v, indent, ts, |ts|)|] == NEWLINE;
  }
}

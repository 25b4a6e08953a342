/** The house formatter for composition files, and JSON.stringify with a two-space indent. */
module JsonFormat {
  import opened Wrappers
  import opened JsonText
  import opened JsonParser
  import opened JsonLayout

  const FORMAT_WIDTH := 120

  function Spaces(n: nat): (w: Text)
    ensures |w| == n && AllSpace(w) && forall i | 0 <= i < n :: w[i] == SPACE
  {
    if n == 0 then [] else [SPACE] + Spaces(n - 1)
  }

  /** Two spaces per level. */
  function Pad(indent: nat): (w: Text)
    ensures AllSpace(w) && |w| == 2 * indent && forall i | 0 <= i < |w| :: w[i] == SPACE
  {
    Spaces(2 * indent)
  }

  predicate IsContainer(v: Json) {
    v.Arr? || v.Obj?
  }

  // ---- one line ----

  function Inline(v: Json): Text
    requires Plain(v)
    decreases v
  {
    match v
    case Undef => []
    case Arr(items) =>
      [OPEN_BRACKET] + Join(seq(|items|, i requires 0 <= i < |items| => Inline(items[i])), [COMMA, SPACE]) + [CLOSE_BRACKET]
    case Obj(ms) =>
      if ms == [] then [OPEN_BRACE, CLOSE_BRACE]
      else
        [OPEN_BRACE, SPACE]
        + Join(seq(|ms|, i requires 0 <= i < |ms| => MemberText(ms[i].key, [SPACE], Inline(ms[i].value))), [COMMA, SPACE])
        + [SPACE, CLOSE_BRACE]
    case Null => ScalarText(v)
    case Bool(_) => ScalarText(v)
    case Num(_) => ScalarText(v)
    case Str(_) => ScalarText(v)
  }

  // ---- several lines ----

  function LinesArr(parts: seq<Text>, indent: nat): Text {
    [OPEN_BRACKET, NEWLINE] + Join(parts, [COMMA, NEWLINE]) + [NEWLINE] + Pad(indent) + [CLOSE_BRACKET]
  }

  function LinesObj(parts: seq<Text>, indent: nat): Text {
    [OPEN_BRACE, NEWLINE] + Join(parts, [COMMA, NEWLINE]) + [NEWLINE] + Pad(indent) + [CLOSE_BRACE]
  }

  /** Inline when the line fits the width or the value is a scalar, otherwise one item per line. */
  function Render(v: Json, indent: nat): Text
    requires Plain(v)
    decreases v
  {
    var one := Inline(v);
    if |Pad(indent)| + |one| <= FORMAT_WIDTH || !IsContainer(v) then one
    else
      match v
      case Arr(items) =>
        if items == [] then [OPEN_BRACKET, CLOSE_BRACKET]
        else LinesArr(seq(|items|, i requires 0 <= i < |items| => Pad(indent + 1) + Render(items[i], indent + 1)), indent)
      case Obj(ms) =>
        if ms == [] then [OPEN_BRACE, CLOSE_BRACE]
        else
          LinesObj(seq(|ms|, i requires 0 <= i < |ms| =>
                         Pad(indent + 1) + MemberText(ms[i].key, [SPACE], Render(ms[i].value, indent + 1))), indent)
      case _ => one
  }

  /** JSON.stringify(v, null, 2). */
  function Pretty(v: Json, indent: nat): Text
    requires Plain(v)
    decreases v
  {
    match v
    case Undef => []
    case Arr(items) =>
      if items == [] then [OPEN_BRACKET, CLOSE_BRACKET]
      else LinesArr(seq(|items|, i requires 0 <= i < |items| => Pad(indent + 1) + Pretty(items[i], indent + 1)), indent)
    case Obj(ms) =>
      if ms == [] then [OPEN_BRACE, CLOSE_BRACE]
      else
        LinesObj(seq(|ms|, i requires 0 <= i < |ms| =>
                       Pad(indent + 1) + MemberText(ms[i].key, [SPACE], Pretty(ms[i].value, indent + 1))), indent)
    case Null => ScalarText(v)
    case Bool(_) => ScalarText(v)
    case Num(_) => ScalarText(v)
    case Str(_) => ScalarText(v)
  }

  // ---- each form lays out its value ----

  lemma LaysEmpty(v: Json)
    requires v == Arr([]) || v == Obj([])
    ensures Lays(v, if v.Arr? then [OPEN_BRACKET, CLOSE_BRACKET] else [OPEN_BRACE, CLOSE_BRACE])
  {
    hide Lays;
    if v.Arr? {
      LaysTightArr([], []);
      assert [OPEN_BRACKET] + [] + [CLOSE_BRACKET] == [OPEN_BRACKET, CLOSE_BRACKET];
    } else {
      LaysTightObj([], [], []);
      assert [OPEN_BRACE] + [] + [CLOSE_BRACE] == [OPEN_BRACE, CLOSE_BRACE];
    }
  }

  lemma LaysSpacedArr(items: seq<Json>, ts: seq<Text>)
    requires |items| == |ts| && forall i | 0 <= i < |items| :: Lays(items[i], ts[i])
    ensures Lays(Arr(items), [OPEN_BRACKET] + Join(ts, [COMMA, SPACE]) + [CLOSE_BRACKET])
  {
    hide Lays, Join;
    LaysArr(items, ts, [], [SPACE], []);
    assert [COMMA] + [SPACE] == [COMMA, SPACE];
    var body := Join(ts, [COMMA, SPACE]);
    assert [OPEN_BRACKET] + [] + body + [] + [CLOSE_BRACKET] == [OPEN_BRACKET] + body + [CLOSE_BRACKET];
  }

  lemma LaysSpacedObj(ms: seq<Member>, ts: seq<Text>, parts: seq<Text>)
    requires |ms| == |ts| == |parts| && DistinctKeys(ms)
    requires forall i | 0 <= i < |ms| :: Lays(ms[i].value, ts[i]) && parts[i] == MemberText(ms[i].key, [SPACE], ts[i])
    ensures Lays(Obj(ms), [OPEN_BRACE, SPACE] + Join(parts, [COMMA, SPACE]) + [SPACE, CLOSE_BRACE])
  {
    hide Lays, Join, MemberText;
    assert forall i | 0 <= i < |ms| :: parts[i] == [] + MemberText(ms[i].key, [SPACE], ts[i]);
    LaysObj(ms, ts, [SPACE], [SPACE], [SPACE], [], [SPACE], parts);
    assert [COMMA] + [SPACE] == [COMMA, SPACE];
    var body := Join(parts, [COMMA, SPACE]);
    assert [OPEN_BRACE] + [SPACE] + body + [SPACE] + [CLOSE_BRACE] == [OPEN_BRACE, SPACE] + body + [SPACE, CLOSE_BRACE];
  }

  lemma {:induction false} InlineLays(v: Json)
    requires Plain(v)
    ensures Lays(v, Inline(v))
    decreases v
  {
    hide Lays, Join, MemberText, ScalarText;
    match v
    case Arr(items) =>
      var ts := seq(|items|, i requires 0 <= i < |items| => Inline(items[i]));
      forall i | 0 <= i < |items| ensures Lays(items[i], ts[i]) {
        InlineLays(items[i]);
      }
      LaysSpacedArr(items, ts);
    case Obj(ms) =>
      if ms == [] {
        LaysEmpty(v);
      } else {
        var ts := seq(|ms|, i requires 0 <= i < |ms| => Inline(ms[i].value));
        forall i | 0 <= i < |ms| ensures Lays(ms[i].value, ts[i]) {
          InlineLays(ms[i].value);
        }
        LaysSpacedObj(ms, ts, seq(|ms|, i requires 0 <= i < |ms| => MemberText(ms[i].key, [SPACE], Inline(ms[i].value))));
      }
    case Undef =>
    case Null => LaysScalar(v);
    case Bool(_) => LaysScalar(v);
    case Num(_) => LaysScalar(v);
    case Str(_) => LaysScalar(v);
  }

  lemma LaysPadded(v: Json, w: Text, t: Text)
    requires Lays(v, t) && AllSpace(w)
    ensures Lays(v, w + t)
  {
    hide Gives, AllSpace;
    GivesSpace(w, t, Tokens(v));
  }

  lemma NewlineThenPad(indent: nat)
    ensures AllSpace([NEWLINE] + Pad(indent)) && AllSpace([NEWLINE])
  {
  }

  lemma LaysLinesArr(items: seq<Json>, ts: seq<Text>, parts: seq<Text>, indent: nat)
    requires |items| == |ts| == |parts|
    requires forall i | 0 <= i < |items| :: Lays(items[i], ts[i]) && parts[i] == Pad(indent + 1) + ts[i]
    ensures Lays(Arr(items), LinesArr(parts, indent))
  {
    hide Lays, Join, Pad;
    NewlineThenPad(indent);
    forall i | 0 <= i < |items| ensures Lays(items[i], parts[i]) {
      LaysPadded(items[i], Pad(indent + 1), ts[i]);
    }
    LaysArr(items, parts, [NEWLINE], [NEWLINE], [NEWLINE] + Pad(indent));
    assert [COMMA] + [NEWLINE] == [COMMA, NEWLINE];
    var body := Join(parts, [COMMA, NEWLINE]);
    assert [OPEN_BRACKET] + [NEWLINE] + body + ([NEWLINE] + Pad(indent)) + [CLOSE_BRACKET] == LinesArr(parts, indent);
  }

  lemma LaysLinesObj(ms: seq<Member>, ts: seq<Text>, parts: seq<Text>, indent: nat)
    requires |ms| == |ts| == |parts| && DistinctKeys(ms)
    requires forall i | 0 <= i < |ms| ::
               Lays(ms[i].value, ts[i]) && parts[i] == Pad(indent + 1) + MemberText(ms[i].key, [SPACE], ts[i])
    ensures Lays(Obj(ms), LinesObj(parts, indent))
  {
    hide Lays, Join, Pad, MemberText;
    NewlineThenPad(indent);
    LaysObj(ms, ts, [SPACE], [NEWLINE], [NEWLINE], Pad(indent + 1), [NEWLINE] + Pad(indent), parts);
    assert [COMMA] + [NEWLINE] == [COMMA, NEWLINE];
    var body := Join(parts, [COMMA, NEWLINE]);
    assert [OPEN_BRACE] + [NEWLINE] + body + ([NEWLINE] + Pad(indent)) + [CLOSE_BRACE] == LinesObj(parts, indent);
  }

  lemma {:induction false} RenderLays(v: Json, indent: nat)
    requires Plain(v)
    ensures Lays(v, Render(v, indent))
    decreases v
  {
    hide Lays, Join, MemberText, ScalarText, Pad, Inline, LinesArr, LinesObj;
    InlineLays(v);
    if v.Arr? && v.items != [] {
      var items := v.items;
      var ts := seq(|items|, i requires 0 <= i < |items| => Render(items[i], indent + 1));
      forall i | 0 <= i < |items| ensures Lays(items[i], ts[i]) {
        RenderLays(items[i], indent + 1);
      }
      LaysLinesArr(items, ts, seq(|items|, i requires 0 <= i < |items| => Pad(indent + 1) + Render(items[i], indent + 1)), indent);
    } else if v.Obj? && v.members != [] {
      var ms := v.members;
      var ts := seq(|ms|, i requires 0 <= i < |ms| => Render(ms[i].value, indent + 1));
      forall i | 0 <= i < |ms| ensures Lays(ms[i].value, ts[i]) {
        RenderLays(ms[i].value, indent + 1);
      }
      LaysLinesObj(ms, ts, seq(|ms|, i requires 0 <= i < |ms| =>
                                 Pad(indent + 1) + MemberText(ms[i].key, [SPACE], Render(ms[i].value, indent + 1))), indent);
    } else if v.Arr? || v.Obj? {
      LaysEmpty(v);
    }
  }

  lemma {:induction false} PrettyLays(v: Json, indent: nat)
    requires Plain(v)
    ensures Lays(v, Pretty(v, indent))
    decreases v
  {
    hide Lays, Join, MemberText, ScalarText, Pad, LinesArr, LinesObj;
    match v
    case Arr(items) =>
      if items == [] {
        LaysEmpty(v);
      } else {
        var ts := seq(|items|, i requires 0 <= i < |items| => Pretty(items[i], indent + 1));
        forall i | 0 <= i < |items| ensures Lays(items[i], ts[i]) {
          PrettyLays(items[i], indent + 1);
        }
        LaysLinesArr(items, ts, seq(|items|, i requires 0 <= i < |items| => Pad(indent + 1) + Pretty(items[i], indent + 1)), indent);
      }
    case Obj(ms) =>
      if ms == [] {
        LaysEmpty(v);
      } else {
        var ts := seq(|ms|, i requires 0 <= i < |ms| => Pretty(ms[i].value, indent + 1));
        forall i | 0 <= i < |ms| ensures Lays(ms[i].value, ts[i]) {
          PrettyLays(ms[i].value, indent + 1);
        }
        LaysLinesObj(ms, ts, seq(|ms|, i requires 0 <= i < |ms| =>
                                   Pad(indent + 1) + MemberText(ms[i].key, [SPACE], Pretty(ms[i].value, indent + 1))), indent);
      }
    case Undef =>
    case Null => LaysScalar(v);
    case Bool(_) => LaysScalar(v);
    case Num(_) => LaysScalar(v);
    case Str(_) => LaysScalar(v);
  }

  // ---- reading rendered files ----

  /** Parsing a rendering gives the value back, with the order of its keys, at every indent. */
  lemma RenderReadsBack(v: Json, indent: nat)
    requires Plain(v)
    ensures Parse(Render(v, indent)) == Some(v) && Parse(Render(v, indent) + [NEWLINE]) == Some(v)
  {
    RenderLays(v, indent);
    hide Lays, Render;
    ReadLayout(v, Render(v, indent), []);
    assert Render(v, indent) + [] == Render(v, indent);
    ReadLayout(v, Render(v, indent), [NEWLINE]);
  }

  /** The multi-line and the one-line form differ only in white space: they have the same tokens. */
  lemma RenderIsInlineUpToSpace(v: Json, indent: nat)
    requires Plain(v)
    ensures Lex(Render(v, indent)) == Lex(Inline(v)) == Some(Tokens(v))
  {
    RenderLays(v, indent);
    InlineLays(v);
    hide Lays, Render, Inline;
    ReadLayout(v, Render(v, indent), []);
    assert Render(v, indent) + [] == Render(v, indent);
    ReadLayout(v, Inline(v), []);
    assert Inline(v) + [] == Inline(v);
  }

  lemma PrettyReadsBack(v: Json)
    requires Plain(v)
    ensures Parse(Pretty(v, 0)) == Some(v)
  {
    PrettyLays(v, 0);
    hide Lays, Pretty;
    ReadLayout(v, Pretty(v, 0), []);
    assert Pretty(v, 0) + [] == Pretty(v, 0);
  }

  /** Formatting a file: parse, render, end with a newline. */
  function Format(t: Text): Option<Text> {
    var v := Parse(t);
    if v.None? then None
    else
      ParseIsPlain(t);
      Some(Render(v.value, 0) + [NEWLINE])
  }

  /** Formatting never changes the value, and a formatted file is a fixed point. */
  lemma FormatIsFixedPoint(t: Text)
    requires Format(t).Some?
    ensures Parse(Format(t).value) == Parse(t) && Format(Format(t).value) == Format(t)
  {
    ParseIsPlain(t);
    RenderReadsBack(Parse(t).value, 0);
  }

  // ---- composition specs ----

  datatype SpecEntry = SpecEntry(id: Text, source: Text, bootPhase: int, capabilities: seq<Text>, contracts: seq<Text>,
                                 config: Option<Json>)

  const NAME_KEY: Text := [110, 97, 109, 101]
  const NOTE_KEY: Text := [95, 110, 111, 116, 101]
  const ENTRIES_KEY: Text := [101, 110, 116, 114, 105, 101, 115]
  const ID_KEY: Text := [105, 100]
  const SOURCE_KEY: Text := [115, 111, 117, 114, 99, 101]
  const BOOT_PHASE_KEY: Text := [98, 111, 111, 116, 80, 104, 97, 115, 101]
  const GRANT_KEY: Text := [103, 114, 97, 110, 116]
  const CAPABILITIES_KEY: Text := [99, 97, 112, 97, 98, 105, 108, 105, 116, 105, 101, 115]
  const CONTRACTS_KEY: Text := [99, 111, 110, 116, 114, 97, 99, 116, 115]
  const CONFIG_KEY: Text := [99, 111, 110, 102, 105, 103]

  function Strings(ss: seq<Text>): Json {
    Arr(seq(|ss|, i requires 0 <= i < |ss| => Str(ss[i])))
  }

  function EntryValue(e: SpecEntry): Json {
    var base := [Member(ID_KEY, Str(e.id)), Member(SOURCE_KEY, Str(e.source)), Member(BOOT_PHASE_KEY, Num(e.bootPhase)),
                 Member(GRANT_KEY, Obj([Member(CAPABILITIES_KEY, Strings(e.capabilities)), Member(CONTRACTS_KEY, Strings(e.contracts))]))];
    Obj(if e.config.Some? then base + [Member(CONFIG_KEY, e.config.value)] else base)
  }

  function SpecValue(name: Text, note: Option<Text>, entries: seq<SpecEntry>): Json {
    Obj([Member(NAME_KEY, Str(name))]
        + (if note.Some? then [Member(NOTE_KEY, Str(note.value))] else [])
        + [Member(ENTRIES_KEY, Arr(seq(|entries|, i requires 0 <= i < |entries| => EntryValue(entries[i]))))])
  }

  predicate ConfigsPlain(entries: seq<SpecEntry>) {
    forall i | 0 <= i < |entries| && entries[i].config.Some? :: Plain(entries[i].config.value)
  }

  lemma StringsPlain(ss: seq<Text>)
    ensures Plain(Strings(ss))
  {
  }

  lemma EntryPlain(e: SpecEntry)
    requires e.config.Some? ==> Plain(e.config.value)
    ensures Plain(EntryValue(e))
  {
    StringsPlain(e.capabilities);
    StringsPlain(e.contracts);
    assert CAPABILITIES_KEY[1] != CONTRACTS_KEY[1];
    var ms := EntryValue(e).members;
    assert |ID_KEY| == 2 && |SOURCE_KEY| == 6 && |BOOT_PHASE_KEY| == 9 && |GRANT_KEY| == 5 && |CONFIG_KEY| == 6;
    assert SOURCE_KEY[0] != CONFIG_KEY[0];
    assert DistinctKeys(ms);
    assert Plain(ms[3].value);
    assert forall i | 0 <= i < |ms| :: Plain(ms[i].value);
  }

  function EmitSpec(name: Text, note: Option<Text>, entries: seq<SpecEntry>): Text
    requires ConfigsPlain(entries)
  {
    SpecPlain(name, note, entries);
    Render(SpecValue(name, note, entries), 0) + [NEWLINE]
  }

  lemma SpecPlain(name: Text, note: Option<Text>, entries: seq<SpecEntry>)
    requires ConfigsPlain(entries)
    ensures Plain(SpecValue(name, note, entries))
  {
    var ms := SpecValue(name, note, entries).members;
    assert |NAME_KEY| == 4 && |NOTE_KEY| == 5 && |ENTRIES_KEY| == 7;
    forall i | 0 <= i < |entries| ensures Plain(EntryValue(entries[i])) {
      EntryPlain(entries[i]);
    }
    assert Plain(ms[|ms| - 1].value);
    assert DistinctKeys(ms);
  }

  /** An emitted spec file parses to exactly the spec, keys in house order, and is already formatted. */
  lemma EmitSpecReadsBack(name: Text, note: Option<Text>, entries: seq<SpecEntry>)
    requires ConfigsPlain(entries)
    ensures Parse(EmitSpec(name, note, entries)) == Some(SpecValue(name, note, entries))
    ensures Format(EmitSpec(name, note, entries)) == Some(EmitSpec(name, note, entries))
  {
    SpecPlain(name, note, entries);
    RenderReadsBack(SpecValue(name, note, entries), 0);
  }
}

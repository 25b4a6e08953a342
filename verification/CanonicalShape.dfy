/** The bytes of canonical JSON: the tokens of the value without white space, keys ascending by code units, and each
    unit of a string escaped in one way only. */
module CanonicalShape {
  import opened JsonText
  import opened JsonParser
  import opened JsonLayout
  import opened Canon = CanonicalJson

  // ---- key order ----

  /** `a` is a proper prefix of `b`, or smaller where they first differ. */
  ghost predicate ComesBefore(a: Text, b: Text) {
    exists n: nat :: n <= |a| && n < |b| && a[..n] == b[..n] && (n == |a| || a[n] < b[n])
  }

  lemma {:induction false} LessIs(a: Text, b: Text)
    ensures Less(a, b) <==> ComesBefore(a, b)
  {
    if a == [] || b == [] || a[0] != b[0] {
      if Less(a, b) {
        assert a[..0] == b[..0];
      }
      if ComesBefore(a, b) {
        FirstUnits(a, b);
      }
    } else {
      LessIs(a[1..], b[1..]);
      if ComesBefore(a[1..], b[1..]) {
        var n: nat :| n <= |a[1..]| && n < |b[1..]| && a[1..][..n] == b[1..][..n] && (n == |a[1..]| || a[1..][n] < b[1..][n]);
        Longer(a, b, n);
      }
      if ComesBefore(a, b) {
        var n: nat :| n <= |a| && n < |b| && a[..n] == b[..n] && (n == |a| || a[n] < b[n]);
        Shorter(a, b, n);
      }
    }
  }

  lemma FirstUnits(a: Text, b: Text)
    requires ComesBefore(a, b)
    ensures b != [] && (a == [] || a[0] <= b[0])
  {
    var n: nat :| n <= |a| && n < |b| && a[..n] == b[..n] && (n == |a| || a[n] < b[n]);
    if n > 0 {
      assert a[0] == a[..n][0] == b[..n][0];
    }
  }

  lemma Longer(a: Text, b: Text, n: nat)
    requires a != [] && b != [] && a[0] == b[0] && n <= |a[1..]| && n < |b[1..]|
    requires a[1..][..n] == b[1..][..n] && (n == |a[1..]| || a[1..][n] < b[1..][n])
    ensures ComesBefore(a, b)
  {
    assert a[..n + 1] == [a[0]] + a[1..][..n] && b[..n + 1] == [b[0]] + b[1..][..n];
  }

  lemma Shorter(a: Text, b: Text, n: nat)
    requires a != [] && b != [] && a[0] == b[0] && n <= |a| && n < |b|
    requires a[..n] == b[..n] && (n == |a| || a[n] < b[n])
    ensures ComesBefore(a[1..], b[1..])
  {
    assert n > 0;
    assert a[1..][..n - 1] == a[..n][1..] && b[1..][..n - 1] == b[..n][1..];
  }

  /** In every object the keys ascend. */
  ghost predicate KeysAscend(v: Json)
    decreases v
  {
    match v
    case Arr(items) => forall i | 0 <= i < |items| :: KeysAscend(items[i])
    case Obj(ms) =>
      && (forall i, j | 0 <= i < j < |ms| :: ComesBefore(ms[i].key, ms[j].key))
      && (forall i | 0 <= i < |ms| :: KeysAscend(ms[i].value))
    case _ => true
  }

  lemma {:induction false} NormalAscends(v: Json)
    requires Supported(v) && WellFormed(v)
    ensures KeysAscend(Normal(v))
    decreases v
  {
    hide ComesBefore, Less;
    match v
    case Arr(items) =>
      forall i | 0 <= i < |items| ensures KeysAscend(Normal(items[i])) {
        NormalAscends(items[i]);
      }
    case Obj(ms) =>
      var keys := SortedKeys(ms);
      SortedKeysFacts(ms);
      forall i | 0 <= i < |keys| ensures KeysAscend(Normal(LookupIn(v, ms, keys[i]))) {
        assert keys[i] in keys;
        MemberOf(ms, keys[i]);
        NormalAscends(LookupIn(v, ms, keys[i]));
      }
      forall i, j | 0 <= i < j < |keys| ensures ComesBefore(keys[i], keys[j]) {
        LessIs(keys[i], keys[j]);
      }
    case _ =>
  }

  // ---- the value ----

  /** A value and its normal form are the same value. */
  lemma {:induction false} NormalIsSame(v: Json)
    requires Supported(v) && WellFormed(v)
    ensures Same(v, Normal(v))
    decreases v
  {
    match v
    case Arr(items) =>
      forall i | 0 <= i < |items| ensures Same(items[i], Normal(v).items[i]) {
        NormalIsSame(items[i]);
      }
    case Obj(ms) =>
      forall k | Defined(ms, k) ensures Same(LookupIn(v, ms, k), Normal(LookupIn(v, ms, k))) {
        MemberOf(ms, k);
        NormalIsSame(LookupIn(v, ms, k));
      }
      NormalMembers(v, ms);
      NormalIsPlain(v);
    case _ =>
  }

  /** The normal form has the defined keys, with the normal forms of their values. */
  lemma NormalMembers(v: Json, ms: seq<Member>)
    requires v == Obj(ms) && Supported(v) && WellFormed(v)
    ensures var ns := Normal(v).members;
            && (forall k :: Defined(ms, k) <==> Defined(ns, k))
            && (forall k | Defined(ms, k) && Defined(ns, k) :: Lookup(ns, k) == Normal(LookupIn(v, ms, k)))
  {
    var keys, ns := SortedKeys(ms), Normal(v).members;
    SortedKeysFacts(ms);
    NormalIsPlain(v);
    forall k ensures Defined(ms, k) <==> Defined(ns, k)
             ensures Defined(ms, k) && Defined(ns, k) ==> Lookup(ns, k) == Normal(LookupIn(v, ms, k))
    {
      if k in keys {
        var i :| 0 <= i < |keys| && keys[i] == k;
        LookupAt(ns, i);
      }
      if HasKey(ns, k) {
        var i :| 0 <= i < |ns| && ns[i].key == k;
        assert keys[i] == k && k in keys;
      }
    }
  }

  // ---- tokens without white space ----

  function Tight(ts: seq<Token>): Text {
    if ts == [] then [] else TokenText(ts[0]) + Tight(ts[1..])
  }

  lemma {:induction false} TightConcat(a: seq<Token>, b: seq<Token>)
    ensures Tight(a + b) == Tight(a) + Tight(b)
    decreases |a|
  {
    hide TokenText;
    if a == [] {
      assert a + b == b;
    } else {
      assert (a + b)[0] == a[0] && (a + b)[1..] == a[1..] + b;
      TightConcat(a[1..], b);
    }
  }

  lemma TightOne(t: Token)
    ensures Tight([t]) == TokenText(t)
  {
    hide TokenText;
    assert [t][1..] == [];
  }

  lemma {:induction false} ItemsTight(items: seq<Json>, parts: seq<Text>)
    requires |parts| == |items| && forall i | 0 <= i < |items| :: Plain(items[i]) && parts[i] == Tight(Tokens(items[i]))
    ensures Tight(ItemTokens(items)) == Join(parts, [COMMA])
    decreases |items|
  {
    hide Tight, Tokens;
    if items == [] {
      TightNothing();
    } else if |items| > 1 {
      ItemsTight(items[1..], parts[1..]);
      TightConcat(Tokens(items[0]) + [Comma], ItemTokens(items[1..]));
      TightConcat(Tokens(items[0]), [Comma]);
      TightOne(Comma);
    }
  }

  lemma TightNothing()
    ensures Tight([]) == []
  {
  }

  lemma MemberTight(k: Text, v: Json)
    requires Plain(v)
    ensures Tight([TStr(k), Colon] + Tokens(v)) == MemberText(k, [], Tight(Tokens(v)))
  {
    hide Tight, Tokens, Quoted;
    TightConcat([TStr(k), Colon], Tokens(v));
    TightConcat([TStr(k)], [Colon]);
    assert [TStr(k)] + [Colon] == [TStr(k), Colon];
    TightOne(TStr(k));
    TightOne(Colon);
  }

  lemma {:induction false} MembersTight(ms: seq<Member>, parts: seq<Text>)
    requires |parts| == |ms|
    requires forall i | 0 <= i < |ms| :: Plain(ms[i].value) && parts[i] == MemberText(ms[i].key, [], Tight(Tokens(ms[i].value)))
    ensures Tight(MemberTokens(ms)) == Join(parts, [COMMA])
    decreases |ms|
  {
    hide Tight, Tokens, MemberText;
    if ms == [] {
      TightNothing();
    } else {
      var first := [TStr(ms[0].key), Colon] + Tokens(ms[0].value);
      MemberTight(ms[0].key, ms[0].value);
      if |ms| > 1 {
        MembersTight(ms[1..], parts[1..]);
        TightConcat(first + [Comma], MemberTokens(ms[1..]));
        TightConcat(first, [Comma]);
        TightOne(Comma);
      }
    }
  }

  lemma TightBetween(left: Token, inner: seq<Token>, right: Token)
    ensures Tight([left] + inner + [right]) == TokenText(left) + Tight(inner) + TokenText(right)
  {
    hide Tight, TokenText;
    TightConcat([left] + inner, [right]);
    TightConcat([left], inner);
    TightOne(left);
    TightOne(right);
  }

  /** JSON.stringify writes the value's tokens and nothing between them. */
  lemma {:induction false} CompactIsTight(v: Json)
    requires Plain(v)
    ensures Compact(v) == Tight(Tokens(v))
    decreases v
  {
    hide Tight, Join, TokenText, ScalarText, MemberText, ItemTokens, MemberTokens;
    match v
    case Arr(items) =>
      var parts := seq(|items|, i requires 0 <= i < |items| => Compact(items[i]));
      forall i | 0 <= i < |items| ensures parts[i] == Tight(Tokens(items[i])) {
        CompactIsTight(items[i]);
      }
      ItemsTight(items, parts);
      TightBetween(LBracket, ItemTokens(items), RBracket);
      Brackets();
    case Obj(ms) =>
      var parts := seq(|ms|, i requires 0 <= i < |ms| => MemberText(ms[i].key, [], Compact(ms[i].value)));
      forall i | 0 <= i < |ms| ensures parts[i] == MemberText(ms[i].key, [], Tight(Tokens(ms[i].value))) {
        CompactIsTight(ms[i].value);
      }
      MembersTight(ms, parts);
      TightBetween(LBrace, MemberTokens(ms), RBrace);
      Brackets();
    case Null => ScalarTokenText(v); TightOne(ScalarToken(v));
    case Bool(_) => ScalarTokenText(v); TightOne(ScalarToken(v));
    case Num(_) => ScalarTokenText(v); TightOne(ScalarToken(v));
    case Str(_) => ScalarTokenText(v); TightOne(ScalarToken(v));
  }

  lemma Brackets()
    ensures TokenText(LBracket) == [OPEN_BRACKET] && TokenText(RBracket) == [CLOSE_BRACKET]
    ensures TokenText(LBrace) == [OPEN_BRACE] && TokenText(RBrace) == [CLOSE_BRACE]
  {
  }

  /** The canonical text of a value spells, without white space, the tokens of the same value with its keys
      ascending. */
  lemma CanonicalBytes(v: Json)
    requires Supported(v) && WellFormed(v)
    ensures CanonicalJson(v).Some? && Parse(CanonicalJson(v).value).Some?
    ensures var w := Parse(CanonicalJson(v).value).value;
            Plain(w) && Same(v, w) && KeysAscend(w) && CanonicalJson(v).value == Tight(Tokens(w))
  {
    hide Same, KeysAscend, Tight, Normal, Compact, CanonicalJson, Parse;
    CanonicalReadsBack(v);
    CanonicalIsCompact(v);
    NormalIsPlain(v);
    NormalIsSame(v);
    NormalAscends(v);
    CompactIsTight(Normal(v));
  }

  // ---- strings ----

  predicate IsLowerHex(c: CodeUnit) { 48 <= c <= 57 || 97 <= c <= 102 }

  /** How one unit is written: a two-character escape where there is one, `\uXXXX` with lower-case digits for
      other control characters and for surrogates standing alone, otherwise as it is. */
  lemma UnitIsEscapedAs(c: CodeUnit)
    ensures c in {8, 9, 10, 12, 13, 34, 92} ==>
              Escape([c]) == [92, if c == 8 then 98 else if c == 9 then 116 else if c == 10 then 110
                                  else if c == 12 then 102 else if c == 13 then 114 else c]
    ensures (c < 32 && c !in {8, 9, 10, 12, 13}) || 0xD800 <= c <= 0xDFFF ==>
              && |Escape([c])| == 6 && Escape([c])[0] == 92 && Escape([c])[1] == 117
              && forall i | 2 <= i < 6 :: IsLowerHex(Escape([c])[i])
    ensures c >= 32 && c != 34 && c != 92 && !(0xD800 <= c <= 0xDFFF) ==> Escape([c]) == [c]
  {
    assert [c][1..] == [];
    assert Escape([c]) == EscapeUnit(c) + Escape([]) == EscapeUnit(c);
  }

  /** A high surrogate and the low one after it are kept as they are. */
  lemma PairIsKept(high: CodeUnit, low: CodeUnit)
    requires 0xD800 <= high <= 0xDBFF && 0xDC00 <= low <= 0xDFFF
    ensures Escape([high, low]) == [high, low]
  {
    assert [high, low][2..] == [];
  }

  /** Escaping works piece by piece, a surrogate pair being one piece. */
  lemma {:induction false} EscapeConcat(a: Text, b: Text)
    requires a != [] && b != [] ==> !(0xD800 <= a[|a| - 1] <= 0xDBFF && 0xDC00 <= b[0] <= 0xDFFF)
    ensures Escape(a + b) == Escape(a) + Escape(b)
    decreases |a|
  {
    hide Escape, EscapeUnit;
    FirstEscape(a);
    FirstEscape(a + b);
    if a == [] {
      assert a + b == b;
    } else if |a| > 1 && IsHigh(a[0]) && IsLow(a[1]) {
      assert (a + b)[2..] == a[2..] + b;
      EscapeConcat(a[2..], b);
      Regroup([a[0], a[1]], Escape(a[2..]), Escape(b));
    } else {
      assert (a + b)[1..] == a[1..] + b;
      EscapeConcat(a[1..], b);
      Regroup(EscapeUnit(a[0]), Escape(a[1..]), Escape(b));
      assert (a + b)[0] == a[0] && (|a| > 1 ==> (a + b)[1] == a[1]) && (|a| == 1 && b != [] ==> (a + b)[1] == b[0]);
    }
  }

  lemma Regroup(x: Text, y: Text, z: Text)
    ensures x + (y + z) == x + y + z
  {
  }

  lemma FirstEscape(s: Text)
    ensures Escape(s) == if s == [] then []
                         else if |s| > 1 && IsHigh(s[0]) && IsLow(s[1]) then [s[0], s[1]] + Escape(s[2..])
                         else EscapeUnit(s[0]) + Escape(s[1..])
  {
    hide EscapeUnit;
  }
}

/** JSON values and a parser for them (RFC 8259, section 4 and 5 for the shapes; object members keep the order
    of first occurrence and a repeated name keeps its last value, as JSON.parse does). */
module JsonParser {
  import opened Wrappers
  import opened JsonText

  /** `Undef` is the undefined value: an object may hold it, a JSON text cannot. */
  datatype Json =
    | Undef
    | Null
    | Bool(b: bool)
    | Num(n: int)
    | Str(s: Text)
    | Arr(items: seq<Json>)
    | Obj(members: seq<Member>)

  datatype Member = Member(key: Text, value: Json)

  predicate HasKey(ms: seq<Member>, k: Text) {
    exists i | 0 <= i < |ms| :: ms[i].key == k
  }

  predicate DistinctKeys(ms: seq<Member>) {
    forall i, j | 0 <= i < j < |ms| :: ms[i].key != ms[j].key
  }

  /** A value a JSON text can denote: no undefined part, object keys distinct. */
  predicate Plain(v: Json) {
    match v
    case Undef => false
    case Arr(items) => forall i | 0 <= i < |items| :: Plain(items[i])
    case Obj(ms) => DistinctKeys(ms) && forall i | 0 <= i < |ms| :: Plain(ms[i].value)
    case _ => true
  }

  // ---- tokens of a value ----

  function Tokens(v: Json): (ts: seq<Token>)
    requires Plain(v)
    ensures ts != [] && ts[0] != RBracket && ts[0] != RBrace
    decreases v
  {
    match v
    case Null => [TNull]
    case Bool(b) => [if b then TTrue else TFalse]
    case Num(n) => [TNum(n)]
    case Str(s) => [TStr(s)]
    case Arr(items) => [LBracket] + ItemTokens(items) + [RBracket]
    case Obj(ms) => [LBrace] + MemberTokens(ms) + [RBrace]
  }

  function ItemTokens(items: seq<Json>): (ts: seq<Token>)
    requires forall i | 0 <= i < |items| :: Plain(items[i])
    ensures items != [] ==> ts != [] && ts[0] != RBracket
    decreases items
  {
    if items == [] then []
    else if |items| == 1 then Tokens(items[0])
    else Tokens(items[0]) + [Comma] + ItemTokens(items[1..])
  }

  function MemberTokens(ms: seq<Member>): (ts: seq<Token>)
    requires forall i | 0 <= i < |ms| :: Plain(ms[i].value)
    ensures ms != [] ==> ts != [] && ts[0] == TStr(ms[0].key)
    decreases ms
  {
    if ms == [] then []
    else if |ms| == 1 then [TStr(ms[0].key), Colon] + Tokens(ms[0].value)
    else [TStr(ms[0].key), Colon] + Tokens(ms[0].value) + [Comma] + MemberTokens(ms[1..])
  }

  // ---- the parser ----

  /** A member read before `rest`: a later member of the same name replaces its value. */
  function Merge(k: Text, v: Json, rest: seq<Member>): seq<Member> {
    if HasKey(rest, k) then [Member(k, Lookup(rest, k))] + DropKey(rest, k)
    else [Member(k, v)] + rest
  }

  function Lookup(ms: seq<Member>, k: Text): (v: Json)
    requires HasKey(ms, k)
    ensures exists i | 0 <= i < |ms| :: ms[i].key == k && ms[i].value == v
  {
    if ms[0].key == k then ms[0].value
    else
      assert HasKey(ms[1..], k) by {
        var i :| 0 <= i < |ms| && ms[i].key == k;
        assert ms[1..][i - 1].key == k;
      }
      var v := Lookup(ms[1..], k);
      assert exists i | 0 <= i < |ms| :: ms[i].key == k && ms[i].value == v by {
        var i :| 0 <= i < |ms[1..]| && ms[1..][i].key == k && ms[1..][i].value == v;
        assert ms[i + 1].key == k && ms[i + 1].value == v;
      }
      v
  }

  function DropKey(ms: seq<Member>, k: Text): seq<Member> {
    if ms == [] then []
    else if ms[0].key == k then DropKey(ms[1..], k)
    else [ms[0]] + DropKey(ms[1..], k)
  }

  function ParseValue(ts: seq<Token>): (r: Option<(Json, seq<Token>)>)
    ensures r.Some? ==> |r.value.1| < |ts|
    decreases |ts|, 1
  {
    if ts == [] then None
    else
      match ts[0]
      case TNull => Some((Null, ts[1..]))
      case TTrue => Some((Bool(true), ts[1..]))
      case TFalse => Some((Bool(false), ts[1..]))
      case TNum(n) => Some((Num(n), ts[1..]))
      case TStr(s) => Some((Str(s), ts[1..]))
      case LBracket =>
        if |ts| > 1 && ts[1] == RBracket then Some((Arr([]), ts[2..]))
        else
          var r := ParseItems(ts[1..]);
          if r.None? then None else Some((Arr(r.value.0), r.value.1))
      case LBrace =>
        if |ts| > 1 && ts[1] == RBrace then Some((Obj([]), ts[2..]))
        else
          var r := ParseMembers(ts[1..]);
          if r.None? then None else Some((Obj(r.value.0), r.value.1))
      case _ => None
  }

  /** Items up to and including the closing bracket. */
  function ParseItems(ts: seq<Token>): (r: Option<(seq<Json>, seq<Token>)>)
    ensures r.Some? ==> |r.value.1| < |ts|
    decreases |ts|, 2
  {
    var first := ParseValue(ts);
    if first.None? || first.value.1 == [] then None
    else if first.value.1[0] == RBracket then Some(([first.value.0], first.value.1[1..]))
    else if first.value.1[0] == Comma then
      var rest := ParseItems(first.value.1[1..]);
      if rest.None? then None else Some(([first.value.0] + rest.value.0, rest.value.1))
    else None
  }

  /** Members up to and including the closing brace. */
  function ParseMembers(ts: seq<Token>): (r: Option<(seq<Member>, seq<Token>)>)
    ensures r.Some? ==> |r.value.1| < |ts|
    decreases |ts|, 2
  {
    if |ts| < 2 || !ts[0].TStr? || ts[1] != Colon then None
    else
      var first := ParseValue(ts[2..]);
      if first.None? || first.value.1 == [] then None
      else if first.value.1[0] == RBrace then Some(([Member(ts[0].s, first.value.0)], first.value.1[1..]))
      else if first.value.1[0] == Comma then
        var rest := ParseMembers(first.value.1[1..]);
        if rest.None? then None else Some((Merge(ts[0].s, first.value.0, rest.value.0), rest.value.1))
      else None
  }

  function Parse(t: Text): Option<Json> {
    var ts := Lex(t);
    if ts.None? then None
    else
      var r := ParseValue(ts.value);
      if r.None? || r.value.1 != [] then None else Some(r.value.0)
  }

  // ---- reading back ----

  lemma {:induction false} ParseBack(v: Json, rest: seq<Token>)
    requires Plain(v)
    ensures ParseValue(Tokens(v) + rest) == Some((v, rest))
    decreases v
  {
    var ts := Tokens(v) + rest;
    match v
    case Arr(items) =>
      var inner := ItemTokens(items) + [RBracket] + rest;
      assert ts == [LBracket] + inner;
      assert ts[1..] == inner;
      if items == [] {
        assert ts[2..] == rest;
      } else {
        assert ts[1] == ItemTokens(items)[0];
        ParseItemsBack(items, rest);
      }
    case Obj(ms) =>
      var inner := MemberTokens(ms) + [RBrace] + rest;
      assert ts == [LBrace] + inner;
      assert ts[1..] == inner;
      if ms == [] {
        assert ts[2..] == rest;
      } else {
        assert ts[1] == MemberTokens(ms)[0];
        ParseMembersBack(ms, rest);
      }
    case Undef =>
    case Null => assert ts[1..] == rest;
    case Bool(_) => assert ts[1..] == rest;
    case Num(_) => assert ts[1..] == rest;
    case Str(_) => assert ts[1..] == rest;
  }

  lemma ItemsEnd(ts: seq<Token>, v: Json, rest: seq<Token>)
    requires ParseValue(ts) == Some((v, [RBracket] + rest))
    ensures ParseItems(ts) == Some(([v], rest))
  {
    assert ([RBracket] + rest)[1..] == rest;
  }

  lemma ItemsGoOn(ts: seq<Token>, v: Json, more: seq<Token>, vs: seq<Json>, rest: seq<Token>)
    requires ParseValue(ts) == Some((v, [Comma] + more)) && ParseItems(more) == Some((vs, rest))
    ensures ParseItems(ts) == Some(([v] + vs, rest))
  {
    assert ([Comma] + more)[1..] == more;
  }

  lemma {:induction false} ParseItemsBack(items: seq<Json>, rest: seq<Token>)
    requires items != [] && forall i | 0 <= i < |items| :: Plain(items[i])
    ensures ParseItems(ItemTokens(items) + [RBracket] + rest) == Some((items, rest))
    decreases items
  {
    hide ParseItems, ParseValue, ItemTokens, Tokens;
    var ts := ItemTokens(items) + [RBracket] + rest;
    if |items| == 1 {
      LastItem(items, rest);
      ParseBack(items[0], [RBracket] + rest);
      ItemsEnd(ts, items[0], rest);
      assert [items[0]] == items;
    } else {
      var more := ItemTokens(items[1..]) + [RBracket] + rest;
      MoreItems(items, rest);
      ParseBack(items[0], [Comma] + more);
      ParseItemsBack(items[1..], rest);
      ItemsGoOn(ts, items[0], more, items[1..], rest);
      assert [items[0]] + items[1..] == items;
    }
  }

  lemma LastItem(items: seq<Json>, rest: seq<Token>)
    requires |items| == 1 && Plain(items[0])
    ensures ItemTokens(items) + [RBracket] + rest == Tokens(items[0]) + ([RBracket] + rest)
  {
  }

  lemma MoreItems(items: seq<Json>, rest: seq<Token>)
    requires |items| > 1 && forall i | 0 <= i < |items| :: Plain(items[i])
    ensures ItemTokens(items) + [RBracket] + rest == Tokens(items[0]) + ([Comma] + (ItemTokens(items[1..]) + [RBracket] + rest))
  {
    hide Tokens, Plain;
    Regroup(Tokens(items[0]), [Comma], ItemTokens(items[1..]), [RBracket], rest);
  }

  lemma Regroup(a: seq<Token>, b: seq<Token>, c: seq<Token>, d: seq<Token>, e: seq<Token>)
    ensures a + b + c + d + e == a + (b + (c + d + e))
  {
    assert a + b + c == a + (b + c);
    assert a + (b + c) + d == a + (b + c + d);
    assert a + (b + c + d) + e == a + (b + c + d + e);
    assert b + c + d + e == b + (c + d + e);
  }

  lemma MembersEnd(ts: seq<Token>, k: Text, v: Json, rest: seq<Token>)
    requires |ts| >= 2 && ts[0] == TStr(k) && ts[1] == Colon && ParseValue(ts[2..]) == Some((v, [RBrace] + rest))
    ensures ParseMembers(ts) == Some(([Member(k, v)], rest))
  {
    assert ([RBrace] + rest)[1..] == rest;
  }

  lemma MembersGoOn(ts: seq<Token>, k: Text, v: Json, more: seq<Token>, ms: seq<Member>, rest: seq<Token>)
    requires |ts| >= 2 && ts[0] == TStr(k) && ts[1] == Colon && ParseValue(ts[2..]) == Some((v, [Comma] + more))
    requires ParseMembers(more) == Some((ms, rest))
    ensures ParseMembers(ts) == Some((Merge(k, v, ms), rest))
  {
    hide Merge;
    assert ([Comma] + more)[1..] == more;
  }

  /** The members a list with repeated names stands for. */
  function Merged(ms: seq<Member>): seq<Member>
    requires ms != []
  {
    if |ms| == 1 then ms else Merge(ms[0].key, ms[0].value, Merged(ms[1..]))
  }

  lemma {:induction false} ParseMerged(ms: seq<Member>, rest: seq<Token>)
    requires ms != [] && forall i | 0 <= i < |ms| :: Plain(ms[i].value)
    ensures ParseMembers(MemberTokens(ms) + [RBrace] + rest) == Some((Merged(ms), rest))
    decreases ms, 0
  {
    hide ParseMembers, ParseValue, MemberTokens, Tokens, Plain, Merge;
    var ts := MemberTokens(ms) + [RBrace] + rest;
    var k, v := ms[0].key, ms[0].value;
    SplitMembers(ms, rest);
    if |ms| == 1 {
      ParseBack(v, [RBrace] + rest);
      MembersEnd(ts, k, v, rest);
      assert [Member(k, v)] == ms;
    } else {
      var more := MemberTokens(ms[1..]) + [RBrace] + rest;
      ParseBack(v, [Comma] + more);
      ParseMerged(ms[1..], rest);
      MembersGoOn(ts, k, v, more, Merged(ms[1..]), rest);
    }
  }

  lemma {:induction false} DistinctMerged(ms: seq<Member>)
    requires ms != [] && DistinctKeys(ms)
    ensures Merged(ms) == ms
    decreases |ms|
  {
    if |ms| > 1 {
      assert forall i | 0 < i < |ms| :: ms[i] == ms[1..][i - 1];
      DistinctMerged(ms[1..]);
      assert !HasKey(ms[1..], ms[0].key);
      assert [Member(ms[0].key, ms[0].value)] + ms[1..] == ms;
    }
  }

  lemma ParseMembersBack(ms: seq<Member>, rest: seq<Token>)
    requires ms != [] && DistinctKeys(ms) && forall i | 0 <= i < |ms| :: Plain(ms[i].value)
    ensures ParseMembers(MemberTokens(ms) + [RBrace] + rest) == Some((ms, rest))
    decreases ms, 1
  {
    hide ParseMembers, MemberTokens;
    ParseMerged(ms, rest);
    DistinctMerged(ms);
  }

  lemma SplitMembers(ms: seq<Member>, rest: seq<Token>)
    requires ms != [] && forall i | 0 <= i < |ms| :: Plain(ms[i].value)
    ensures var ts := MemberTokens(ms) + [RBrace] + rest;
            && |ts| >= 2 && ts[0] == TStr(ms[0].key) && ts[1] == Colon
            && ts[2..] == Tokens(ms[0].value)
                          + if |ms| == 1 then [RBrace] + rest else [Comma] + (MemberTokens(ms[1..]) + [RBrace] + rest)
  {
    hide Tokens, Plain;
    var head, t := [TStr(ms[0].key), Colon], Tokens(ms[0].value);
    if |ms| == 1 {
      assert MemberTokens(ms) == head + t;
      hide MemberTokens;
      Regroup(head, t, [], [RBrace], rest);
      assert head + t + [] == head + t && t + ([] + [RBrace] + rest) == t + ([RBrace] + rest);
    } else {
      assert MemberTokens(ms) == head + t + [Comma] + MemberTokens(ms[1..]);
      hide MemberTokens;
      RegroupMembers(head, t, MemberTokens(ms[1..]), rest);
    }
  }

  lemma RegroupMembers(head: seq<Token>, t: seq<Token>, more: seq<Token>, rest: seq<Token>)
    ensures head + t + [Comma] + more + [RBrace] + rest == head + (t + ([Comma] + (more + [RBrace] + rest)))
  {
    Regroup(head, t, [Comma] + more, [RBrace], rest);
    assert head + t + ([Comma] + more) == head + t + [Comma] + more;
    assert [Comma] + more + [RBrace] + rest == [Comma] + (more + [RBrace] + rest);
  }

  // ---- what a text denotes is plain ----

  lemma {:induction false} DropKeyFacts(ms: seq<Member>, k: Text)
    requires DistinctKeys(ms)
    ensures DistinctKeys(DropKey(ms, k)) && !HasKey(DropKey(ms, k), k)
    ensures forall m | m in DropKey(ms, k) :: m in ms
    decreases |ms|
  {
    if ms != [] {
      DropKeyFacts(ms[1..], k);
      assert forall i | 0 < i < |ms| :: ms[i] == ms[1..][i - 1];
      var d := DropKey(ms[1..], k);
      if ms[0].key != k {
        forall i | 0 <= i < |d| ensures d[i].key != ms[0].key {
          assert d[i] in ms[1..];
        }
      }
    }
  }

  lemma MergeFacts(k: Text, v: Json, rest: seq<Member>)
    requires DistinctKeys(rest) && Plain(v) && forall i | 0 <= i < |rest| :: Plain(rest[i].value)
    ensures DistinctKeys(Merge(k, v, rest)) && forall i | 0 <= i < |Merge(k, v, rest)| :: Plain(Merge(k, v, rest)[i].value)
  {
    if HasKey(rest, k) {
      DropKeyFacts(rest, k);
      var d := DropKey(rest, k);
      forall i | 0 <= i < |d| ensures Plain(d[i].value) && d[i].key != k {
        assert d[i] in rest;
      }
    }
  }

  predicate LastOfName(ms: seq<Member>, i: nat) {
    i < |ms| && forall j | i < j < |ms| :: ms[j].key != ms[i].key
  }

  /** An object written with repeated names has each name once, with its last value. */
  lemma {:induction false} LastValueWins(ms: seq<Member>, i: nat)
    requires LastOfName(ms, i)
    ensures DistinctKeys(Merged(ms))
    ensures HasKey(Merged(ms), ms[i].key) && Lookup(Merged(ms), ms[i].key) == ms[i].value
    ensures forall m | m in Merged(ms) :: HasKey(ms, m.key)
    decreases |ms|
  {
    if |ms| > 1 {
      var tail, rest := ms[1..], Merged(ms[1..]);
      assert forall j | 0 < j < |ms| :: ms[j] == tail[j - 1];
      if i > 0 {
        assert LastOfName(tail, i - 1);
        LastValueWins(tail, i - 1);
      } else {
        LastValueWins(tail, |tail| - 1);
        assert !HasKey(tail, ms[0].key);
        NoSuchName(rest, tail, ms[0].key);
      }
      MergeSays(ms[0].key, ms[0].value, rest, ms[i].key);
      MergeNames(ms, rest);
    }
  }

  lemma NoSuchName(rest: seq<Member>, ms: seq<Member>, k: Text)
    requires (forall m | m in rest :: HasKey(ms, m.key)) && !HasKey(ms, k)
    ensures !HasKey(rest, k)
  {
    forall i | 0 <= i < |rest| ensures rest[i].key != k {
      assert rest[i] in rest;
    }
  }

  lemma MergeNames(ms: seq<Member>, rest: seq<Member>)
    requires |ms| > 1 && DistinctKeys(rest) && forall m | m in rest :: HasKey(ms[1..], m.key)
    ensures forall m | m in Merge(ms[0].key, ms[0].value, rest) :: HasKey(ms, m.key)
  {
    DropKeyFacts(rest, ms[0].key);
    forall k | HasKey(ms[1..], k) ensures HasKey(ms, k) {
      var i :| 0 <= i < |ms[1..]| && ms[1..][i].key == k;
      assert ms[i + 1].key == k;
    }
    hide DropKey, Lookup;
    assert ms[0].key == ms[0].key && HasKey(ms, ms[0].key);
  }

  /** A member before others gives its value only to a name they do not have. */
  lemma MergeSays(k: Text, v: Json, rest: seq<Member>, l: Text)
    requires DistinctKeys(rest) && (l == k || HasKey(rest, l))
    ensures DistinctKeys(Merge(k, v, rest)) && HasKey(Merge(k, v, rest), l)
    ensures Lookup(Merge(k, v, rest), l) == if HasKey(rest, l) then Lookup(rest, l) else v
  {
    var merged := Merge(k, v, rest);
    DropKeyFacts(rest, k);
    assert merged[0].key == k;
    if HasKey(rest, k) {
      var d := DropKey(rest, k);
      forall i | 0 <= i < |d| ensures d[i].key != k {
        assert d[i] in rest;
      }
      if l != k {
        DropKeeps(rest, k, l);
        assert merged[1..] == d;
        KeyAfter(merged, l);
      }
    } else if l != k {
      assert merged[1..] == rest;
      KeyAfter(merged, l);
    }
  }

  lemma KeyAfter(ms: seq<Member>, k: Text)
    requires ms != [] && ms[0].key != k && HasKey(ms[1..], k)
    ensures HasKey(ms, k) && Lookup(ms, k) == Lookup(ms[1..], k)
  {
    var i :| 0 <= i < |ms[1..]| && ms[1..][i].key == k;
    assert ms[i + 1].key == k;
  }

  lemma {:induction false} DropKeeps(ms: seq<Member>, k: Text, l: Text)
    requires HasKey(ms, l) && l != k
    ensures HasKey(DropKey(ms, k), l) && Lookup(DropKey(ms, k), l) == Lookup(ms, l)
    decreases |ms|
  {
    var d := DropKey(ms, k);
    if ms[0].key == l {
      assert d[0] == ms[0];
    } else {
      var i :| 0 <= i < |ms| && ms[i].key == l;
      assert ms[1..][i - 1].key == l;
      DropKeeps(ms[1..], k, l);
      if ms[0].key != k {
        assert d[1..] == DropKey(ms[1..], k);
        KeyAfter(d, l);
      }
    }
  }

  /** Reading an object with repeated names keeps the last value of each. */
  lemma RepeatedNamesKeepLast(ms: seq<Member>, rest: seq<Token>, i: nat)
    requires (forall j | 0 <= j < |ms| :: Plain(ms[j].value)) && LastOfName(ms, i)
    ensures ParseMembers(MemberTokens(ms) + [RBrace] + rest).Some?
    ensures var r := ParseMembers(MemberTokens(ms) + [RBrace] + rest).value;
            && r.1 == rest && DistinctKeys(r.0) && (forall m | m in r.0 :: HasKey(ms, m.key))
            && HasKey(r.0, ms[i].key) && Lookup(r.0, ms[i].key) == ms[i].value
  {
    hide ParseMembers, MemberTokens, Merged;
    ParseMerged(ms, rest);
    LastValueWins(ms, i);
  }

  lemma {:induction false} ParsedIsPlain(ts: seq<Token>)
    ensures ParseValue(ts).Some? ==> Plain(ParseValue(ts).value.0)
    decreases |ts|, 1
  {
    if ts != [] && ts[0] == LBracket {
      ParsedItemsPlain(ts[1..]);
    } else if ts != [] && ts[0] == LBrace {
      ParsedMembersPlain(ts[1..]);
    }
  }

  lemma {:induction false} ParsedItemsPlain(ts: seq<Token>)
    ensures ParseItems(ts).Some? ==> forall i | 0 <= i < |ParseItems(ts).value.0| :: Plain(ParseItems(ts).value.0[i])
    decreases |ts|, 2
  {
    ParsedIsPlain(ts);
    var first := ParseValue(ts);
    if first.Some? && first.value.1 != [] && first.value.1[0] == Comma {
      ParsedItemsPlain(first.value.1[1..]);
    }
  }

  lemma {:induction false} ParsedMembersPlain(ts: seq<Token>)
    ensures ParseMembers(ts).Some? ==>
              && DistinctKeys(ParseMembers(ts).value.0)
              && forall i | 0 <= i < |ParseMembers(ts).value.0| :: Plain(ParseMembers(ts).value.0[i].value)
    decreases |ts|, 2
  {
    if |ts| >= 2 && ts[0].TStr? && ts[1] == Colon {
      ParsedIsPlain(ts[2..]);
      var first := ParseValue(ts[2..]);
      if first.Some? && first.value.1 != [] && first.value.1[0] == Comma {
        ParsedMembersPlain(first.value.1[1..]);
        var rest := ParseMembers(first.value.1[1..]);
        if rest.Some? {
          MergeFacts(ts[0].s, first.value.0, rest.value.0);
        }
      }
    }
  }

  lemma ParseIsPlain(t: Text)
    ensures Parse(t).Some? ==> Plain(Parse(t).value)
  {
    if Lex(t).Some? {
      ParsedIsPlain(Lex(t).value);
    }
  }
}

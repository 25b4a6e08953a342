/** Canonical JSON: object keys sorted by UTF-16 code units (section 3.2.3 of RFC 8785), undefined members
    dropped, no white space. */
module CanonicalJson {
  import opened Wrappers
  import opened JsonText
  import opened JsonParser
  import opened JsonLayout

  // ---- key order ----

  /** The default order of Array.prototype.sort on strings. */
  predicate Less(a: Text, b: Text) {
    if b == [] then false
    else if a == [] then true
    else a[0] < b[0] || (a[0] == b[0] && Less(a[1..], b[1..]))
  }

  lemma {:induction false} LessIrreflexive(a: Text)
    ensures !Less(a, a)
  {
    if a != [] {
      LessIrreflexive(a[1..]);
    }
  }

  lemma {:induction false} LessTotal(a: Text, b: Text)
    ensures a == b || Less(a, b) || Less(b, a)
  {
    if a != [] && b != [] && a[0] == b[0] {
      LessTotal(a[1..], b[1..]);
      assert a == [a[0]] + a[1..] && b == [b[0]] + b[1..];
    }
  }

  lemma {:induction false} LessTransitive(a: Text, b: Text, c: Text)
    requires Less(a, b) && Less(b, c)
    ensures Less(a, c)
  {
    if a != [] && a[0] == b[0] && b[0] == c[0] {
      LessTransitive(a[1..], b[1..], c[1..]);
    }
  }

  predicate Sorted(ks: seq<Text>) {
    forall i, j | 0 <= i < j < |ks| :: Less(ks[i], ks[j])
  }

  function InsertKey(k: Text, ks: seq<Text>): seq<Text> {
    if ks == [] then [k]
    else if Less(k, ks[0]) then [k] + ks
    else [ks[0]] + InsertKey(k, ks[1..])
  }

  function SortKeys(ks: seq<Text>): seq<Text> {
    if ks == [] then [] else InsertKey(ks[0], SortKeys(ks[1..]))
  }

  lemma {:induction false} InsertSorted(k: Text, ks: seq<Text>)
    requires Sorted(ks) && k !in ks
    ensures Sorted(InsertKey(k, ks))
    ensures forall x :: x in InsertKey(k, ks) <==> x == k || x in ks
  {
    var r := InsertKey(k, ks);
    if ks != [] {
      assert ks == [ks[0]] + ks[1..];
      LessTotal(k, ks[0]);
      if Less(k, ks[0]) {
        forall j | 0 <= j < |ks| ensures Less(k, ks[j]) {
          if j > 0 {
            LessTransitive(k, ks[0], ks[j]);
          }
        }
      } else {
        InsertSorted(k, ks[1..]);
        var t := InsertKey(k, ks[1..]);
        forall j | 0 <= j < |t| ensures Less(ks[0], t[j]) {
          assert t[j] in t;
          if t[j] != k {
            var i :| 0 <= i < |ks[1..]| && ks[1..][i] == t[j];
            assert ks[i + 1] == t[j];
          }
        }
      }
    }
  }

  predicate DistinctTexts(ks: seq<Text>) {
    forall i, j | 0 <= i < j < |ks| :: ks[i] != ks[j]
  }

  lemma {:induction false} SortSorts(ks: seq<Text>)
    requires DistinctTexts(ks)
    ensures Sorted(SortKeys(ks))
    ensures forall x :: x in SortKeys(ks) <==> x in ks
  {
    if ks != [] {
      SortSorts(ks[1..]);
      assert ks == [ks[0]] + ks[1..];
      InsertSorted(ks[0], SortKeys(ks[1..]));
    }
  }

  lemma SortedDistinct(ks: seq<Text>)
    requires Sorted(ks)
    ensures DistinctTexts(ks)
  {
    forall i, j | 0 <= i < j < |ks| ensures ks[i] != ks[j] {
      LessIrreflexive(ks[i]);
    }
  }

  /** A sorted key list is determined by its members. */
  lemma {:induction false} SortedUnique(a: seq<Text>, b: seq<Text>)
    requires Sorted(a) && Sorted(b) && forall x :: x in a <==> x in b
    ensures a == b
  {
    if a == [] || b == [] {
      if a != [] {
        SomeMember(a);
      }
      if b != [] {
        SomeMember(b);
      }
    } else {
      SameLeast(a, b);
      assert a == [a[0]] + a[1..] && b == [b[0]] + b[1..];
      SortedDistinct(a);
      SortedDistinct(b);
      forall x ensures x in a[1..] <==> x in b[1..] {
        assert x in a[1..] <==> x in a && x != a[0];
        assert x in b[1..] <==> x in b && x != b[0];
      }
      SortedUnique(a[1..], b[1..]);
    }
  }

  lemma SomeMember(s: seq<Text>)
    requires s != []
    ensures exists x :: x in s
  {
    assert s[0] in s;
  }

  lemma SameLeast(a: seq<Text>, b: seq<Text>)
    requires Sorted(a) && Sorted(b) && a != [] && b != [] && forall x :: x in a <==> x in b
    ensures a[0] == b[0]
  {
    assert a[0] in a && b[0] in b;
    var i :| 0 <= i < |b| && b[i] == a[0];
    var j :| 0 <= j < |a| && a[j] == b[0];
    if i > 0 && j > 0 {
      LessTransitive(a[0], a[j], b[i]);
      LessIrreflexive(a[0]);
    }
  }

  // ---- canonical text ----

  /** Own keys with a defined value, in insertion order. */
  function DefinedKeys(ms: seq<Member>): (ks: seq<Text>)
    ensures forall k | k in ks :: HasKey(ms, k)
  {
    if ms == [] then []
    else
      var rest := DefinedKeys(ms[1..]);
      assert forall k | HasKey(ms[1..], k) :: HasKey(ms, k) by { KeyOfTail(ms); }
      if ms[0].value == Undef then rest else [ms[0].key] + rest
  }

  lemma KeyOfTail(ms: seq<Member>)
    requires ms != []
    ensures forall k | HasKey(ms[1..], k) :: HasKey(ms, k)
  {
  }

  function SortedKeys(ms: seq<Member>): (ks: seq<Text>)
    ensures forall k | k in ks :: HasKey(ms, k)
  {
    SortKeeps(DefinedKeys(ms));
    SortKeys(DefinedKeys(ms))
  }

  lemma {:induction false} InsertKeeps(k: Text, ks: seq<Text>)
    ensures forall x | x in InsertKey(k, ks) :: x == k || x in ks
  {
    if ks != [] {
      InsertKeeps(k, ks[1..]);
    }
  }

  lemma {:induction false} SortKeeps(ks: seq<Text>)
    ensures forall x | x in SortKeys(ks) :: x in ks
  {
    if ks != [] {
      SortKeeps(ks[1..]);
      InsertKeeps(ks[0], SortKeys(ks[1..]));
    }
  }

  /** All parts, or `None` when one of them is refused. */
  function AllOf(parts: seq<Option<Text>>): (r: Option<seq<Text>>)
    ensures r.Some? <==> forall i | 0 <= i < |parts| :: parts[i].Some?
    ensures r.Some? ==> |r.value| == |parts| && forall i | 0 <= i < |parts| :: parts[i] == Some(r.value[i])
  {
    if parts == [] then Some([])
    else
      var rest := AllOf(parts[1..]);
      assert forall i | 0 < i < |parts| :: parts[i] == parts[1..][i - 1];
      if parts[0].None? || rest.None? then None else Some([parts[0].value] + rest.value)
  }

  /** `None` is the error on an unsupported value: undefined anywhere but as an object member. */
  function CanonicalJson(v: Json): Option<Text>
    decreases v
  {
    match v
    case Undef => None
    case Arr(items) =>
      var parts := AllOf(seq(|items|, i requires 0 <= i < |items| => CanonicalJson(items[i])));
      if parts.None? then None else Some([OPEN_BRACKET] + Join(parts.value, [COMMA]) + [CLOSE_BRACKET])
    case Obj(ms) =>
      var keys := SortedKeys(ms);
      var parts := AllOf(seq(|keys|, i requires 0 <= i < |keys| => MemberPart(keys[i], CanonicalJson(LookupIn(v, ms, keys[i])))));
      if parts.None? then None else Some([OPEN_BRACE] + Join(parts.value, [COMMA]) + [CLOSE_BRACE])
    case Null => Some(ScalarText(v))
    case Bool(_) => Some(ScalarText(v))
    case Num(_) => Some(ScalarText(v))
    case Str(_) => Some(ScalarText(v))
  }

  function MemberPart(k: Text, t: Option<Text>): Option<Text> {
    if t.None? then None else Some(MemberText(k, [], t.value))
  }

  /** The value of a key, structurally below the object. */
  function LookupIn(v: Json, ms: seq<Member>, k: Text): (r: Json)
    requires v == Obj(ms) && HasKey(ms, k)
    ensures r == Lookup(ms, k)
    ensures v decreases to r
  {
    var r := Lookup(ms, k);
    assert exists i | 0 <= i < |ms| :: ms[i].key == k && ms[i].value == r;
    r
  }

  // ---- the value a canonical text stands for ----

  /** Undefined only as a member value: what the function accepts. */
  predicate Supported(v: Json)
    decreases v
  {
    match v
    case Undef => false
    case Arr(items) => forall i | 0 <= i < |items| :: Supported(items[i])
    case Obj(ms) => forall i | 0 <= i < |ms| :: ms[i].value == Undef || Supported(ms[i].value)
    case _ => true
  }

  /** Object keys are distinct, as in every JavaScript object. */
  predicate WellFormed(v: Json)
    decreases v
  {
    match v
    case Arr(items) => forall i | 0 <= i < |items| :: WellFormed(items[i])
    case Obj(ms) => DistinctKeys(ms) && forall i | 0 <= i < |ms| :: WellFormed(ms[i].value)
    case _ => true
  }

  /** Keys sorted, undefined members dropped, everywhere. */
  function Normal(v: Json): Json
    decreases v
  {
    match v
    case Arr(items) => Arr(seq(|items|, i requires 0 <= i < |items| => Normal(items[i])))
    case Obj(ms) =>
      var keys := SortedKeys(ms);
      Obj(seq(|keys|, i requires 0 <= i < |keys| => Member(keys[i], Normal(LookupIn(v, ms, keys[i])))))
    case _ => v
  }

  predicate Defined(ms: seq<Member>, k: Text) {
    HasKey(ms, k) && Lookup(ms, k) != Undef
  }

  /** The same JSON value up to key order and undefined members. */
  ghost predicate Same(a: Json, b: Json)
    decreases a
  {
    match a
    case Arr(xs) => b.Arr? && |xs| == |b.items| && forall i | 0 <= i < |xs| :: Same(xs[i], b.items[i])
    case Obj(ms) =>
      && b.Obj?
      && (forall k :: Defined(ms, k) <==> Defined(b.members, k))
      && (forall k | Defined(ms, k) && Defined(b.members, k) :: Same(LookupIn(a, ms, k), Lookup(b.members, k)))
    case _ => a == b
  }

  // ---- keys and lookups ----

  lemma {:induction false} LookupAt(ms: seq<Member>, i: nat)
    requires DistinctKeys(ms) && i < |ms|
    ensures HasKey(ms, ms[i].key) && Lookup(ms, ms[i].key) == ms[i].value
    decreases |ms|
  {
  }

  lemma {:induction false} DefinedKeysFacts(ms: seq<Member>)
    requires DistinctKeys(ms)
    ensures DistinctTexts(DefinedKeys(ms))
    ensures forall k :: k in DefinedKeys(ms) <==> exists i :: 0 <= i < |ms| && ms[i].key == k && ms[i].value != Undef
    decreases |ms|
  {
    if ms != [] {
      var rest := ms[1..];
      DefinedKeysFacts(rest);
      assert forall i | 0 < i < |ms| :: ms[i] == rest[i - 1];
      forall k | k in DefinedKeys(rest) ensures k != ms[0].key {
        var i :| 0 <= i < |rest| && rest[i].key == k && rest[i].value != Undef;
        assert ms[i + 1].key == k;
      }
      PrependDistinct(ms[0].key, DefinedKeys(rest));
      forall k ensures k in DefinedKeys(ms) <==> exists i :: 0 <= i < |ms| && ms[i].key == k && ms[i].value != Undef {
        if k in DefinedKeys(rest) {
          var i :| 0 <= i < |rest| && rest[i].key == k && rest[i].value != Undef;
          assert ms[i + 1].key == k && ms[i + 1].value != Undef;
        }
        if i :| 0 <= i < |ms| && ms[i].key == k && ms[i].value != Undef {
          if i > 0 {
            assert rest[i - 1].key == k && rest[i - 1].value != Undef;
          }
        }
      }
    }
  }

  lemma PrependDistinct(k: Text, ks: seq<Text>)
    requires DistinctTexts(ks) && forall x | x in ks :: x != k
    ensures DistinctTexts([k] + ks)
  {
    var r := [k] + ks;
    forall i, j | 0 <= i < j < |r| ensures r[i] != r[j] {
      assert r[j] == ks[j - 1] && ks[j - 1] in ks;
      assert i > 0 ==> r[i] == ks[i - 1];
    }
  }

  lemma DefinedIff(ms: seq<Member>, k: Text)
    requires DistinctKeys(ms)
    ensures k in DefinedKeys(ms) <==> Defined(ms, k)
  {
  }

  lemma SortedKeysFacts(ms: seq<Member>)
    requires DistinctKeys(ms)
    ensures Sorted(SortedKeys(ms)) && DistinctTexts(SortedKeys(ms))
    ensures forall k :: k in SortedKeys(ms) <==> Defined(ms, k)
  {
    DefinedKeysFacts(ms);
    SortSorts(DefinedKeys(ms));
    SortedDistinct(SortedKeys(ms));
    forall k ensures k in SortedKeys(ms) <==> Defined(ms, k) {
      DefinedIff(ms, k);
    }
  }

  /** A defined member of a supported, well-formed object is supported and well formed. */
  lemma MemberOf(ms: seq<Member>, k: Text)
    requires Defined(ms, k) && WellFormed(Obj(ms))
    ensures WellFormed(Lookup(ms, k)) && (Supported(Obj(ms)) ==> Supported(Lookup(ms, k)))
  {
  }

  // ---- canonical text of a supported value ----

  lemma {:induction false} NormalIsPlain(v: Json)
    requires Supported(v) && WellFormed(v)
    ensures Plain(Normal(v))
    decreases v
  {
    match v
    case Arr(items) =>
      forall i | 0 <= i < |items| ensures Plain(Normal(items[i])) {
        NormalIsPlain(items[i]);
      }
    case Obj(ms) =>
      var keys := SortedKeys(ms);
      SortedKeysFacts(ms);
      forall i | 0 <= i < |keys| ensures Plain(Normal(LookupIn(v, ms, keys[i]))) {
        assert keys[i] in keys;
        MemberOf(ms, keys[i]);
        NormalIsPlain(LookupIn(v, ms, keys[i]));
      }
    case _ =>
  }

  /** The canonical text is the compact text of the normal form. */
  lemma {:induction false} CanonicalIsCompact(v: Json)
    requires Supported(v) && WellFormed(v)
    ensures Plain(Normal(v)) && CanonicalJson(v) == Some(Compact(Normal(v)))
    decreases v
  {
    NormalIsPlain(v);
    match v
    case Arr(items) =>
      var parts := seq(|items|, i requires 0 <= i < |items| => CanonicalJson(items[i]));
      forall i | 0 <= i < |items|
        ensures Plain(Normal(items[i])) && parts[i] == Some(Compact(Normal(items[i])))
      {
        CanonicalIsCompact(items[i]);
      }
      var ts := AllOf(parts).value;
      var ns := Normal(v).items;
      assert ts == seq(|ns|, i requires 0 <= i < |ns| => Compact(ns[i]));
    case Obj(ms) =>
      CanonicalObject(v, ms);
    case _ =>
  }

  lemma {:induction false} CanonicalObject(v: Json, ms: seq<Member>)
    requires v == Obj(ms) && Supported(v) && WellFormed(v) && Plain(Normal(v))
    ensures CanonicalJson(v) == Some(Compact(Normal(v)))
    decreases v, 0
  {
    var keys := SortedKeys(ms);
    SortedKeysFacts(ms);
    var parts := seq(|keys|, i requires 0 <= i < |keys| => MemberPart(keys[i], CanonicalJson(LookupIn(v, ms, keys[i]))));
    forall i | 0 <= i < |keys|
      ensures Plain(Normal(LookupIn(v, ms, keys[i])))
      ensures parts[i] == Some(MemberText(keys[i], [], Compact(Normal(LookupIn(v, ms, keys[i])))))
    {
      assert keys[i] in keys;
      MemberOf(ms, keys[i]);
      CanonicalIsCompact(LookupIn(v, ms, keys[i]));
    }
    var ts := AllOf(parts).value;
    var ns := Normal(v).members;
    assert ts == seq(|ns|, i requires 0 <= i < |ns| => MemberText(ns[i].key, [], Compact(ns[i].value)));
  }

  /** Exactly the values with an undefined part outside member position are refused. */
  lemma {:induction false} AcceptsIffSupported(v: Json)
    requires WellFormed(v)
    ensures CanonicalJson(v).Some? <==> Supported(v)
    decreases v
  {
    if Supported(v) {
      CanonicalIsCompact(v);
    } else {
      match v
      case Arr(items) =>
        var i :| 0 <= i < |items| && !Supported(items[i]);
        AcceptsIffSupported(items[i]);
        var parts := seq(|items|, j requires 0 <= j < |items| => CanonicalJson(items[j]));
        assert parts[i].None?;
      case Obj(ms) =>
        var i :| 0 <= i < |ms| && ms[i].value != Undef && !Supported(ms[i].value);
        AcceptsIffSupported(ms[i].value);
        RefusedMember(v, ms, i);
      case _ =>
    }
  }

  lemma RefusedMember(v: Json, ms: seq<Member>, i: nat)
    requires v == Obj(ms) && WellFormed(v) && i < |ms| && ms[i].value != Undef && CanonicalJson(ms[i].value).None?
    ensures CanonicalJson(v).None?
  {
    LookupAt(ms, i);
    SortedKeysFacts(ms);
    var keys := SortedKeys(ms);
    assert ms[i].key in keys;
    var j :| 0 <= j < |keys| && keys[j] == ms[i].key;
    var parts := seq(|keys|, l requires 0 <= l < |keys| => MemberPart(keys[l], CanonicalJson(LookupIn(v, ms, keys[l]))));
    assert parts[j].None?;
  }

  /** Parsing a canonical text gives the normal form of the value it was made from. */
  lemma CanonicalReadsBack(v: Json)
    requires Supported(v) && WellFormed(v)
    ensures CanonicalJson(v).Some? && Parse(CanonicalJson(v).value) == Some(Normal(v))
  {
    CanonicalIsCompact(v);
    CompactLays(Normal(v));
    ReadLayout(Normal(v), Compact(Normal(v)), []);
    assert Compact(Normal(v)) + [] == Compact(Normal(v));
  }

  // ---- normal forms decide sameness ----

  lemma {:induction false} SameIffSameNormal(a: Json, b: Json)
    requires Supported(a) && WellFormed(a) && Supported(b) && WellFormed(b)
    ensures Same(a, b) <==> Normal(a) == Normal(b)
    decreases a
  {
    match a
    case Arr(xs) =>
      if b.Arr? && |xs| == |b.items| {
        forall i | 0 <= i < |xs| ensures Same(xs[i], b.items[i]) <==> Normal(xs[i]) == Normal(b.items[i]) {
          SameIffSameNormal(xs[i], b.items[i]);
        }
        var na, nb := Normal(a).items, Normal(b).items;
        assert forall i | 0 <= i < |xs| :: na[i] == Normal(xs[i]) && nb[i] == Normal(b.items[i]);
        assert na == nb <==> forall i | 0 <= i < |xs| :: na[i] == nb[i];
      } else if b.Arr? {
        assert |Normal(a).items| != |Normal(b).items|;
      }
    case Obj(ms) =>
      if b.Obj? {
        SameObjects(a, b, ms, b.members);
      }
    case _ =>
  }

  lemma {:induction false} SameObjects(a: Json, b: Json, ms: seq<Member>, ns: seq<Member>)
    requires a == Obj(ms) && b == Obj(ns)
    requires Supported(a) && WellFormed(a) && Supported(b) && WellFormed(b)
    ensures Same(a, b) <==> Normal(a) == Normal(b)
    decreases a, 0
  {
    var ks, ls := SortedKeys(ms), SortedKeys(ns);
    SortedKeysFacts(ms);
    SortedKeysFacts(ns);
    var na, nb := Normal(a).members, Normal(b).members;
    forall k | Defined(ms, k) && Defined(ns, k)
      ensures Same(LookupIn(a, ms, k), Lookup(ns, k)) <==> Normal(LookupIn(a, ms, k)) == Normal(Lookup(ns, k))
    {
      MemberOf(ms, k);
      MemberOf(ns, k);
      SameIffSameNormal(LookupIn(a, ms, k), Lookup(ns, k));
    }
    if Same(a, b) {
      SortedUnique(ks, ls);
      forall i | 0 <= i < |ks| ensures na[i] == nb[i] {
        assert ks[i] in ks;
      }
      assert na == nb;
    }
    if na == nb {
      assert |ks| == |ls| && forall i | 0 <= i < |ks| :: ks[i] == na[i].key && ls[i] == nb[i].key;
      assert ks == ls;
      forall k | Defined(ms, k) && Defined(ns, k) ensures Normal(LookupIn(a, ms, k)) == Normal(Lookup(ns, k)) {
        assert k in ks;
        var i :| 0 <= i < |ks| && ks[i] == k;
        assert na[i] == nb[i];
      }
    }
  }

  /** Two values have the same canonical text exactly when they are the same JSON value up to key order
      and undefined members; so what is signed or hashed determines the value. */
  lemma CanonicalIffSame(a: Json, b: Json)
    requires Supported(a) && WellFormed(a) && Supported(b) && WellFormed(b)
    ensures CanonicalJson(a) == CanonicalJson(b) <==> Same(a, b)
  {
    CanonicalIsCompact(a);
    CanonicalIsCompact(b);
    CanonicalReadsBack(a);
    CanonicalReadsBack(b);
    SameIffSameNormal(a, b);
  }
}

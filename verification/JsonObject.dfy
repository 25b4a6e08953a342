/** Properties of JSON objects: reading and setting them as a JavaScript object literal or spread does. */
module JsonObject {
  import opened JsonText
  import opened JsonParser
  import opened Canon = CanonicalJson

  /** A missing property reads as undefined. */
  function Get(ms: seq<Member>, k: Text): Json {
    if ms == [] then Undef else if ms[0].key == k then ms[0].value else Get(ms[1..], k)
  }

  /** A property that is there keeps its place. */
  function Set(ms: seq<Member>, k: Text, v: Json): seq<Member> {
    if ms == [] then [Member(k, v)]
    else if ms[0].key == k then [Member(k, v)] + ms[1..]
    else [ms[0]] + Set(ms[1..], k, v)
  }

  lemma {:induction false} GetSet(ms: seq<Member>, k: Text, v: Json, l: Text)
    ensures Get(Set(ms, k, v), l) == if l == k then v else Get(ms, l)
  {
    if ms != [] && ms[0].key != k {
      GetSet(ms[1..], k, v, l);
    }
  }

  lemma {:induction false} SetTwice(ms: seq<Member>, k: Text, v: Json, w: Json)
    ensures Set(Set(ms, k, v), k, w) == Set(ms, k, w)
  {
    if ms != [] && ms[0].key != k {
      SetTwice(ms[1..], k, v, w);
      assert Set(ms, k, v)[1..] == Set(ms[1..], k, v);
    }
  }

  lemma {:induction false} SetKeys(ms: seq<Member>, k: Text, v: Json)
    ensures forall m | m in Set(ms, k, v) :: m == Member(k, v) || m in ms
    ensures |ms| <= |Set(ms, k, v)| <= |ms| + 1
    ensures forall i | 0 <= i < |ms| :: Set(ms, k, v)[i].key == ms[i].key
    ensures |Set(ms, k, v)| > |ms| ==> Set(ms, k, v)[|ms|].key == k && forall i | 0 <= i < |ms| :: ms[i].key != k
  {
    if ms != [] && ms[0].key != k {
      SetKeys(ms[1..], k, v);
      assert forall i | 0 < i < |ms| :: ms[i] == ms[1..][i - 1];
    }
  }

  /** Setting a property to a plain value keeps an object plain. */
  lemma SetPlain(ms: seq<Member>, k: Text, v: Json)
    requires Plain(Obj(ms)) && Plain(v)
    ensures Plain(Obj(Set(ms, k, v)))
  {
    SetKeys(ms, k, v);
    var r := Set(ms, k, v);
    forall i | 0 <= i < |r| ensures Plain(r[i].value) {
      assert r[i] in r;
    }
  }

  /** A plain value is what canonical JSON accepts without dropping anything. */
  lemma {:induction false} PlainIsSupported(v: Json)
    requires Plain(v)
    ensures Supported(v) && WellFormed(v)
    decreases v
  {
    match v
    case Arr(items) =>
      forall i | 0 <= i < |items| ensures Supported(items[i]) && WellFormed(items[i]) {
        PlainIsSupported(items[i]);
      }
    case Obj(ms) =>
      forall i | 0 <= i < |ms| ensures Supported(ms[i].value) && WellFormed(ms[i].value) {
        PlainIsSupported(ms[i].value);
      }
    case _ =>
  }

  lemma {:induction false} GetIsLookup(ms: seq<Member>, k: Text)
    ensures Get(ms, k) != Undef <==> Defined(ms, k)
    ensures HasKey(ms, k) ==> Lookup(ms, k) == Get(ms, k)
  {
    if ms != [] {
      GetIsLookup(ms[1..], k);
      KeyOfTail(ms);
      if HasKey(ms, k) && ms[0].key != k {
        var i :| 0 <= i < |ms| && ms[i].key == k;
        assert ms[1..][i - 1].key == k;
      }
    }
  }

  // ---- what JSON.stringify writes ----

  /** Undefined members are left out, undefined array elements become null. */
  function Stringified(v: Json): Json
    decreases v
  {
    match v
    case Arr(items) => Arr(seq(|items|, i requires 0 <= i < |items| => if items[i] == Undef then Null else Stringified(items[i])))
    case Obj(ms) => Obj(KeepDefined(ms))
    case _ => v
  }

  function KeepDefined(ms: seq<Member>): seq<Member>
    decreases ms
  {
    if ms == [] then []
    else (if ms[0].value == Undef then [] else [Member(ms[0].key, Stringified(ms[0].value))]) + KeepDefined(ms[1..])
  }

  lemma {:induction false} KeepAppend(ms: seq<Member>, m: Member)
    requires m.value != Undef
    ensures KeepDefined(ms + [m]) == KeepDefined(ms) + [Member(m.key, Stringified(m.value))]
  {
    if ms == [] {
      assert ms + [m] == [m] && [m][1..] == [];
    } else {
      assert (ms + [m])[1..] == ms[1..] + [m];
      KeepAppend(ms[1..], m);
    }
  }

  lemma {:induction false} KeptKeys(ms: seq<Member>)
    requires DistinctKeys(ms)
    ensures DistinctKeys(KeepDefined(ms))
    ensures forall i | 0 <= i < |KeepDefined(ms)| ::
              exists j :: 0 <= j < |ms| && ms[j].value != Undef && KeepDefined(ms)[i] == Member(ms[j].key, Stringified(ms[j].value))
  {
    if ms != [] {
      KeptKeys(ms[1..]);
      var ks, rest := KeepDefined(ms), KeepDefined(ms[1..]);
      forall i | 0 <= i < |rest| ensures rest[i].key != ms[0].key {
        var j :| 0 <= j < |ms[1..]| && ms[1..][j].value != Undef && rest[i] == Member(ms[1..][j].key, Stringified(ms[1..][j].value));
        assert ms[j + 1] == ms[1..][j];
      }
      var off := |ks| - |rest|;
      forall i | 0 <= i < |ks|
        ensures exists j :: 0 <= j < |ms| && ms[j].value != Undef && ks[i] == Member(ms[j].key, Stringified(ms[j].value))
      {
        if i < off {
          assert ks[i] == Member(ms[0].key, Stringified(ms[0].value));
        } else {
          assert ks[i] == rest[i - off];
          var j :| 0 <= j < |ms[1..]| && ms[1..][j].value != Undef && rest[i - off] == Member(ms[1..][j].key, Stringified(ms[1..][j].value));
          assert ms[j + 1] == ms[1..][j];
        }
      }
    }
  }

  lemma {:induction false} KeptValue(ms: seq<Member>, k: Text)
    requires DistinctKeys(ms)
    ensures Get(KeepDefined(ms), k) == Stringified(Get(ms, k))
  {
    hide Stringified;
    assert Stringified(Undef) == Undef by { UndefinedStays(); }
    if ms != [] {
      KeptValue(ms[1..], k);
      assert [] + KeepDefined(ms[1..]) == KeepDefined(ms[1..]);
      if ms[0].key == k && ms[0].value == Undef {
        NotLater(ms, k);
      }
    }
  }

  lemma UndefinedStays()
    ensures Stringified(Undef) == Undef
  {
  }

  lemma NotLater(ms: seq<Member>, k: Text)
    requires DistinctKeys(ms) && ms != [] && ms[0].key == k
    ensures Get(ms[1..], k) == Undef
  {
    forall i | 0 <= i < |ms[1..]| ensures ms[1..][i].key != k {
      assert ms[1..][i] == ms[i + 1];
    }
    GetMissing(ms[1..], k);
  }

  lemma {:induction false} GetAt(ms: seq<Member>, i: nat)
    requires DistinctKeys(ms) && i < |ms|
    ensures Get(ms, ms[i].key) == ms[i].value
  {
    if i > 0 {
      GetAt(ms[1..], i - 1);
    }
  }

  lemma {:induction false} GetMissing(ms: seq<Member>, k: Text)
    requires forall i | 0 <= i < |ms| :: ms[i].key != k
    ensures Get(ms, k) == Undef
  {
    if ms != [] {
      GetMissing(ms[1..], k);
    }
  }

  /** What is written is plain and the same value up to undefined members. */
  lemma {:induction false} StringifiedIsSame(v: Json)
    requires Supported(v) && WellFormed(v)
    ensures Plain(Stringified(v)) && Same(v, Stringified(v))
    decreases v
  {
    match v
    case Arr(items) =>
      forall i | 0 <= i < |items| ensures Plain(Stringified(items[i])) && Same(items[i], Stringified(items[i])) {
        StringifiedIsSame(items[i]);
      }
    case Obj(ms) =>
      forall i | 0 <= i < |ms| && ms[i].value != Undef
        ensures Plain(Stringified(ms[i].value)) && Same(ms[i].value, Stringified(ms[i].value))
      {
        StringifiedIsSame(ms[i].value);
      }
      KeptPlain(ms);
      KeptSame(ms);
    case _ =>
  }

  lemma KeptPlain(ms: seq<Member>)
    requires DistinctKeys(ms) && forall i | 0 <= i < |ms| && ms[i].value != Undef :: Plain(Stringified(ms[i].value))
    ensures Plain(Obj(KeepDefined(ms)))
  {
    hide Stringified, DistinctKeys, Plain;
    KeptKeys(ms);
    forall i | 0 <= i < |KeepDefined(ms)| ensures Plain(KeepDefined(ms)[i].value) {
      KeptFrom(ms, i);
    }
    PlainObject(KeepDefined(ms));
  }

  lemma KeptFrom(ms: seq<Member>, i: nat)
    requires DistinctKeys(ms) && i < |KeepDefined(ms)|
    ensures exists j :: 0 <= j < |ms| && ms[j].value != Undef && KeepDefined(ms)[i].value == Stringified(ms[j].value)
  {
    hide Stringified, DistinctKeys;
    KeptKeys(ms);
    var j :| 0 <= j < |ms| && ms[j].value != Undef && KeepDefined(ms)[i] == Member(ms[j].key, Stringified(ms[j].value));
  }

  lemma PlainObject(ms: seq<Member>)
    requires DistinctKeys(ms) && forall i | 0 <= i < |ms| :: Plain(ms[i].value)
    ensures Plain(Obj(ms))
  {
  }

  lemma KeptSame(ms: seq<Member>)
    requires DistinctKeys(ms) && forall i | 0 <= i < |ms| && ms[i].value != Undef :: Same(ms[i].value, Stringified(ms[i].value))
    ensures Same(Obj(ms), Obj(KeepDefined(ms)))
  {
    var ns := KeepDefined(ms);
    hide KeepDefined;
    forall k ensures Defined(ms, k) <==> Defined(ns, k) {
      KeptDefined(ms, k);
    }
    forall k | Defined(ms, k) && Defined(ns, k) ensures Same(LookupIn(Obj(ms), ms, k), Lookup(ns, k)) {
      KeptDefined(ms, k);
      GetIsLookup(ms, k);
      GetIsLookup(ns, k);
      var i :| 0 <= i < |ms| && ms[i].key == k && ms[i].value == Lookup(ms, k);
    }
  }

  lemma KeptDefined(ms: seq<Member>, k: Text)
    requires DistinctKeys(ms)
    ensures Get(KeepDefined(ms), k) == Stringified(Get(ms, k))
    ensures Defined(ms, k) <==> Defined(KeepDefined(ms), k)
  {
    KeptValue(ms, k);
    GetIsLookup(ms, k);
    GetIsLookup(KeepDefined(ms), k);
    OnlyUndefined(Get(ms, k));
  }

  lemma OnlyUndefined(v: Json)
    ensures Stringified(v) == Undef <==> v == Undef
  {
  }
}

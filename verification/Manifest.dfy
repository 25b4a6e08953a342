/** Plugin manifests as the host reads, signs and checks them. */
module Manifest {
  import opened Wrappers
  import opened JsonText
  import opened JsonParser
  import opened JsonFormat
  import opened JsonObject
  import opened Canon = CanonicalJson
  import opened Signing

  const MANIFEST_VERSION_KEY: Text := [109, 97, 110, 105, 102, 101, 115, 116, 86, 101, 114, 115, 105, 111, 110]
  const ENTRY_KEY: Text := [101, 110, 116, 114, 121]
  const VERSION_KEY: Text := [118, 101, 114, 115, 105, 111, 110]
  const CONTENT_HASH_KEY: Text := [99, 111, 110, 116, 101, 110, 116, 72, 97, 115, 104]
  const PUBLISHER_KEY: Text := [112, 117, 98, 108, 105, 115, 104, 101, 114]
  const CONTRIBUTIONS_KEY: Text := [99, 111, 110, 116, 114, 105, 98, 117, 116, 105, 111, 110, 115]
  const DEPENDENCIES_KEY: Text := [100, 101, 112, 101, 110, 100, 101, 110, 99, 105, 101, 115]
  const REQUESTED_KEY: Text := [114, 101, 113, 117, 101, 115, 116, 101, 100]
  const RUNTIME_KEY: Text := [114, 117, 110, 116, 105, 109, 101]
  const TIER_KEY: Text := [116, 105, 101, 114]
  const BUDGET_KEY: Text := [98, 117, 100, 103, 101, 116]
  const GRANULARITY_KEY: Text := [103, 114, 97, 110, 117, 108, 97, 114, 105, 116, 121]
  const KEY_ID_KEY: Text := [107, 101, 121, 73, 100]
  const SIGNATURE_KEY: Text := [115, 105, 103, 110, 97, 116, 117, 114, 101]
  const VERSION_1: Text := [49]
  const WORKER_THREAD: Text := [119, 111, 114, 107, 101, 114, 45, 116, 104, 114, 101, 97, 100]
  const ATOMIC_TEXT: Text := [97, 116, 111, 109, 105, 99]

  type Fields = seq<Member>

  predicate NonEmptyString(v: Json) {
    v.Str? && v.s != []
  }

  /** `??=` */
  function Fill(m: Fields, k: Text, v: Json): Fields {
    if Get(m, k) == Undef || Get(m, k) == Null then Set(m, k, v) else m
  }

  function PublisherValue(keyId: Json, signature: Text): Json {
    Obj([Member(KEY_ID_KEY, keyId), Member(SIGNATURE_KEY, Str(signature))])
  }

  function WithContentHash(m: Fields): Fields {
    if Get(m, CONTENT_HASH_KEY).Str? then m else Set(m, CONTENT_HASH_KEY, Str([]))
  }

  /** What the optional fields are filled with. */
  function Defaults(): Fields {
    [Member(PUBLISHER_KEY, PublisherValue(Str([]), [])),
     Member(CONTRIBUTIONS_KEY, Obj([])),
     Member(DEPENDENCIES_KEY, Arr([])),
     Member(CAPABILITIES_KEY, Obj([Member(REQUESTED_KEY, Arr([]))])),
     Member(RUNTIME_KEY, Obj([Member(TIER_KEY, Str(WORKER_THREAD)), Member(BUDGET_KEY, Obj([]))])),
     Member(GRANULARITY_KEY, Str(ATOMIC_TEXT))]
  }

  function FillAll(m: Fields, ds: Fields): Fields {
    if ds == [] then m else Fill(FillAll(m, ds[..|ds| - 1]), ds[|ds| - 1].key, ds[|ds| - 1].value)
  }

  function WithDefaults(m: Fields): Fields {
    FillAll(WithContentHash(m), Defaults())
  }

  /** `None` is a parse error, a text that is no object, or a missing mandatory field. */
  function ParseManifest(t: Text): Option<Fields> {
    var v := Parse(t);
    if v.None? || !v.value.Obj? then None
    else
      var m := v.value.members;
      if Get(m, MANIFEST_VERSION_KEY) != Str(VERSION_1) || !NonEmptyString(Get(m, ID_KEY)) || !NonEmptyString(Get(m, ENTRY_KEY)) then None
      else Some(WithDefaults(m))
  }

  predicate Present(m: Fields, k: Text) {
    Get(m, k) != Undef && Get(m, k) != Null
  }

  predicate AllPresent(m: Fields, ds: Fields) {
    forall i | 0 <= i < |ds| :: Present(m, ds[i].key)
  }

  /** Nothing is left for the defaults to fill. */
  predicate Complete(m: Fields) {
    Get(m, CONTENT_HASH_KEY).Str? && AllPresent(m, Defaults())
  }

  predicate Mandatory(m: Fields) {
    Get(m, MANIFEST_VERSION_KEY) == Str(VERSION_1) && NonEmptyString(Get(m, ID_KEY)) && NonEmptyString(Get(m, ENTRY_KEY))
  }

  /** What the reader returns: a plain object with every field filled. */
  predicate Readable(m: Fields) {
    Plain(Obj(m)) && Complete(m) && Mandatory(m)
  }

  lemma KeysDiffer()
    ensures PUBLISHER_KEY != CONTENT_HASH_KEY && PUBLISHER_KEY != MANIFEST_VERSION_KEY && PUBLISHER_KEY != ID_KEY && PUBLISHER_KEY != ENTRY_KEY
    ensures CONTENT_HASH_KEY != MANIFEST_VERSION_KEY && CONTENT_HASH_KEY != ID_KEY && CONTENT_HASH_KEY != ENTRY_KEY
    ensures KEY_ID_KEY != SIGNATURE_KEY
  {
  }

  /** Filling keeps every present property and fills its own. */
  lemma {:induction false} FillAllKeeps(m: Fields, ds: Fields, k: Text)
    requires Present(m, k)
    ensures Get(FillAll(m, ds), k) == Get(m, k)
  {
    if ds != [] {
      var n := |ds| - 1;
      FillAllKeeps(m, ds[..n], k);
      GetSet(FillAll(m, ds[..n]), ds[n].key, ds[n].value, k);
    }
  }

  lemma {:induction false} FillAllSkips(m: Fields, ds: Fields, k: Text)
    requires forall i | 0 <= i < |ds| :: ds[i].key != k
    ensures Get(FillAll(m, ds), k) == Get(m, k)
  {
    if ds != [] {
      var n := |ds| - 1;
      assert ds[n].key != k;
      FillAllSkips(m, ds[..n], k);
      GetSet(FillAll(m, ds[..n]), ds[n].key, ds[n].value, k);
    }
  }

  lemma {:induction false} FillAllFills(m: Fields, ds: Fields)
    requires Plain(Obj(m)) && forall i | 0 <= i < |ds| :: Plain(ds[i].value) && ds[i].value != Null
    ensures Plain(Obj(FillAll(m, ds))) && AllPresent(FillAll(m, ds), ds)
  {
    hide Plain;
    if ds != [] {
      var n := |ds| - 1;
      var before := FillAll(m, ds[..n]);
      FillAllFills(m, ds[..n]);
      SetPlain(before, ds[n].key, ds[n].value);
      assert ds[n].value != Undef by { PlainIsDefined(ds[n].value); }
      forall i | 0 <= i < |ds| ensures Present(FillAll(m, ds), ds[i].key) {
        GetSet(before, ds[n].key, ds[n].value, ds[i].key);
        if i < n {
          assert ds[..n][i] == ds[i];
        }
      }
    }
  }

  lemma PlainIsDefined(v: Json)
    requires Plain(v)
    ensures v != Undef
  {
  }

  lemma {:induction false} FillAllFixed(m: Fields, ds: Fields)
    requires AllPresent(m, ds)
    ensures FillAll(m, ds) == m
  {
    if ds != [] {
      var n := |ds| - 1;
      assert forall i | 0 <= i < n :: ds[..n][i] == ds[i];
      FillAllFixed(m, ds[..n]);
      assert Present(m, ds[n].key);
    }
  }

  lemma DefaultsArePlain()
    ensures forall i | 0 <= i < |Defaults()| :: Plain(Defaults()[i].value) && Defaults()[i].value != Null
  {
  }

  lemma ReadManifests(t: Text)
    requires ParseManifest(t).Some?
    ensures Readable(ParseManifest(t).value)
  {
    hide Plain, Defaults;
    var m := Parse(t).value.members;
    ParseIsPlain(t);
    KeysDiffer();
    assert Plain(Str([])) by { PlainString([]); }
    SetPlain(m, CONTENT_HASH_KEY, Str([]));
    var m1 := WithContentHash(m);
    GetSet(m, CONTENT_HASH_KEY, Str([]), CONTENT_HASH_KEY);
    GetSet(m, CONTENT_HASH_KEY, Str([]), MANIFEST_VERSION_KEY);
    GetSet(m, CONTENT_HASH_KEY, Str([]), ID_KEY);
    GetSet(m, CONTENT_HASH_KEY, Str([]), ENTRY_KEY);
    DefaultsArePlain();
    FillAllFills(m1, Defaults());
    FillAllKeeps(m1, Defaults(), CONTENT_HASH_KEY);
    FillAllKeeps(m1, Defaults(), MANIFEST_VERSION_KEY);
    FillAllKeeps(m1, Defaults(), ID_KEY);
    FillAllKeeps(m1, Defaults(), ENTRY_KEY);
  }

  /** A text is a manifest exactly when it is an object of manifest version 1 with an id and an entry. */
  lemma ManifestReadIff(t: Text)
    ensures ParseManifest(t).Some? <==>
              exists ms: Fields ::
                && Parse(t) == Some(Obj(ms)) && Get(ms, MANIFEST_VERSION_KEY) == Str([49])
                && Get(ms, ID_KEY).Str? && Get(ms, ID_KEY).s != [] && Get(ms, ENTRY_KEY).Str? && Get(ms, ENTRY_KEY).s != []
  {
    hide WithDefaults, Parse, Get;
  }

  /** What the reader makes of a file's fields: a missing or null optional field is filled, a content hash that is
      no string becomes empty, everything else stays. */
  function FilledWith(k: Text): Json {
    if k == PUBLISHER_KEY then Obj([Member(KEY_ID_KEY, Str([])), Member(SIGNATURE_KEY, Str([]))])
    else if k == CONTRIBUTIONS_KEY then Obj([])
    else if k == DEPENDENCIES_KEY then Arr([])
    else if k == CAPABILITIES_KEY then Obj([Member(REQUESTED_KEY, Arr([]))])
    else if k == RUNTIME_KEY then Obj([Member(TIER_KEY, Str(WORKER_THREAD)), Member(BUDGET_KEY, Obj([]))])
    else if k == GRANULARITY_KEY then Str(ATOMIC_TEXT)
    else Undef
  }

  lemma {:induction false} FilledAt(m: Fields, ds: Fields, i: nat)
    requires i < |ds| && !Present(m, ds[i].key) && forall j | 0 <= j < |ds| && j != i :: ds[j].key != ds[i].key
    ensures Get(FillAll(m, ds), ds[i].key) == ds[i].value
  {
    var n := |ds| - 1;
    if i == n {
      forall j | 0 <= j < n ensures ds[..n][j].key != ds[n].key {
        assert ds[..n][j] == ds[j];
      }
      FillAllSkips(m, ds[..n], ds[n].key);
      GetSet(FillAll(m, ds[..n]), ds[n].key, ds[n].value, ds[n].key);
    } else {
      assert ds[..n][i] == ds[i] && forall j | 0 <= j < n :: ds[..n][j] == ds[j];
      FilledAt(m, ds[..n], i);
      GetSet(FillAll(m, ds[..n]), ds[n].key, ds[n].value, ds[i].key);
    }
  }

  lemma DefaultKeysDiffer()
    ensures DistinctTexts([PUBLISHER_KEY, CONTRIBUTIONS_KEY, DEPENDENCIES_KEY, CAPABILITIES_KEY, RUNTIME_KEY, GRANULARITY_KEY, CONTENT_HASH_KEY])
  {
    assert |PUBLISHER_KEY| == 9 && |CONTRIBUTIONS_KEY| == 13 && |DEPENDENCIES_KEY| == 12 && |CAPABILITIES_KEY| == 12
           && |RUNTIME_KEY| == 7 && |GRANULARITY_KEY| == 11 && |CONTENT_HASH_KEY| == 11;
    assert DEPENDENCIES_KEY[0] != CAPABILITIES_KEY[0] && GRANULARITY_KEY[0] != CONTENT_HASH_KEY[0];
  }

  lemma DefaultFills(m: Fields, k: Text)
    requires !Present(m, k)
    ensures FilledWith(k) != Undef ==> Get(FillAll(m, Defaults()), k) == FilledWith(k)
    ensures FilledWith(k) == Undef ==> Get(FillAll(m, Defaults()), k) == Get(m, k)
  {
    hide Get;
    var keys := [PUBLISHER_KEY, CONTRIBUTIONS_KEY, DEPENDENCIES_KEY, CAPABILITIES_KEY, RUNTIME_KEY, GRANULARITY_KEY, CONTENT_HASH_KEY];
    DefaultKeysDiffer();
    var ds := Defaults();
    assert forall i | 0 <= i < 6 :: ds[i].key == keys[i];
    if i :| 0 <= i < 6 && keys[i] == k {
      FilledAt(m, ds, i);
    } else {
      assert keys[0] != k && keys[1] != k && keys[2] != k && keys[3] != k && keys[4] != k && keys[5] != k;
      FillAllSkips(m, ds, k);
    }
  }

  /** A manifest that is read holds what its file says, with the defaults above. */
  lemma ReadHolds(t: Text, k: Text)
    requires ParseManifest(t).Some?
    ensures Parse(t).Some? && Parse(t).value.Obj?
    ensures var said := Get(Parse(t).value.members, k);
            Get(ParseManifest(t).value, k)
            == if k == CONTENT_HASH_KEY then (if said.Str? then said else Str([]))
               else if (said == Undef || said == Null) && FilledWith(k) != Undef then FilledWith(k) else said
  {
    hide Defaults, Get, FilledWith, Parse;
    var m := Parse(t).value.members;
    var m1 := WithContentHash(m);
    GetSet(m, CONTENT_HASH_KEY, Str([]), k);
    if Present(m1, k) {
      FillAllKeeps(m1, Defaults(), k);
    } else {
      DefaultFills(m1, k);
    }
  }

  lemma PlainString(s: Text)
    ensures Plain(Str(s))
  {
  }

  /** Reading what was written for a readable manifest gives it back: the defaults find nothing to fill. */
  lemma WrittenManifestReadsBack(m: Fields)
    requires Readable(m)
    ensures ParseManifest(Pretty(Obj(m), 0)) == Some(m)
  {
    PrettyReadsBack(Obj(m));
    FillAllFixed(m, Defaults());
  }

  // ---- signing ----

  function WithPublisher(m: Fields, keyId: Json, signature: Text): Fields {
    Set(m, PUBLISHER_KEY, PublisherValue(keyId, signature))
  }

  /** The manifest as the compile ceremony signs it, with the digest of its sources. */
  function Unsigned(m: Fields, contentHash: Text, keyId: Text): Fields {
    WithPublisher(Set(m, CONTENT_HASH_KEY, Str(contentHash)), Str(keyId), [])
  }

  function Signed(s: Scheme, key: RootKey, m: Fields, contentHash: Text): Option<Fields> {
    var unsigned := Unsigned(m, contentHash, key.keyId);
    var signature := SignJson(s, Obj(unsigned), key.privateKey);
    if signature.None? then None else Some(WithPublisher(unsigned, Str(key.keyId), signature.value))
  }

  /** A property of a value that may be no object. */
  function Field(v: Json, k: Text): Json {
    if v.Obj? then Get(v.members, k) else Undef
  }

  /** What is checked under the publisher's signature: the manifest with that signature blanked. */
  function Blanked(m: Fields): Fields {
    WithPublisher(m, Field(Get(m, PUBLISHER_KEY), KEY_ID_KEY), [])
  }

  function PublisherVerifies(s: Scheme, m: Fields, publicKey: Text): bool {
    var signature := Field(Get(m, PUBLISHER_KEY), SIGNATURE_KEY);
    signature.Str? && VerifyJson(s, Obj(Blanked(m)), publicKey, signature.s)
  }

  lemma PublisherFields(keyId: Json, signature: Text)
    ensures Field(PublisherValue(keyId, signature), KEY_ID_KEY) == keyId
    ensures Field(PublisherValue(keyId, signature), SIGNATURE_KEY) == Str(signature)
  {
    KeysDiffer();
    var ms := PublisherValue(keyId, signature).members;
    assert ms[1..] == [Member(SIGNATURE_KEY, Str(signature))];
    assert Get(ms[1..], SIGNATURE_KEY) == Str(signature);
  }

  lemma PublisherPlain(keyId: Text, signature: Text)
    ensures Plain(PublisherValue(Str(keyId), signature))
  {
  }

  /** Setting digest and publisher keeps a manifest readable. */
  lemma UnsignedIsReadable(m: Fields, contentHash: Text, keyId: Text, signature: Text)
    requires Readable(m)
    ensures Readable(WithPublisher(Set(m, CONTENT_HASH_KEY, Str(contentHash)), Str(keyId), signature))
    ensures Get(WithPublisher(Set(m, CONTENT_HASH_KEY, Str(contentHash)), Str(keyId), signature), ID_KEY) == Get(m, ID_KEY)
  {
    hide Plain, Defaults;
    var pub := PublisherValue(Str(keyId), signature);
    var m1 := Set(m, CONTENT_HASH_KEY, Str(contentHash));
    PublisherPlain(keyId, signature);
    PlainString(contentHash);
    SetPlain(m, CONTENT_HASH_KEY, Str(contentHash));
    SetPlain(m1, PUBLISHER_KEY, pub);
    KeysDiffer();
    TwoSets(m, Str(contentHash), pub, CONTENT_HASH_KEY);
    TwoSets(m, Str(contentHash), pub, MANIFEST_VERSION_KEY);
    TwoSets(m, Str(contentHash), pub, ID_KEY);
    TwoSets(m, Str(contentHash), pub, ENTRY_KEY);
    forall i | 0 <= i < |Defaults()| ensures Present(Set(m1, PUBLISHER_KEY, pub), Defaults()[i].key) {
      TwoSets(m, Str(contentHash), pub, Defaults()[i].key);
    }
  }

  lemma TwoSets(m: Fields, contentHash: Json, publisher: Json, k: Text)
    ensures Get(Set(Set(m, CONTENT_HASH_KEY, contentHash), PUBLISHER_KEY, publisher), k)
            == if k == PUBLISHER_KEY then publisher else if k == CONTENT_HASH_KEY then contentHash else Get(m, k)
  {
    GetSet(m, CONTENT_HASH_KEY, contentHash, k);
    GetSet(Set(m, CONTENT_HASH_KEY, contentHash), PUBLISHER_KEY, publisher, k);
  }

  /** Blanking a signed manifest gives exactly what was signed. */
  lemma BlankedSigned(m: Fields, contentHash: Text, keyId: Text, signature: Text)
    ensures var signed := WithPublisher(Unsigned(m, contentHash, keyId), Str(keyId), signature);
            && Blanked(signed) == Unsigned(m, contentHash, keyId)
            && Field(Get(signed, PUBLISHER_KEY), SIGNATURE_KEY) == Str(signature)
            && signed == WithPublisher(Set(m, CONTENT_HASH_KEY, Str(contentHash)), Str(keyId), signature)
  {
    var base := Set(m, CONTENT_HASH_KEY, Str(contentHash));
    var unsigned := Unsigned(m, contentHash, keyId);
    var signed := WithPublisher(unsigned, Str(keyId), signature);
    SetTwice(base, PUBLISHER_KEY, PublisherValue(Str(keyId), []), PublisherValue(Str(keyId), signature));
    SetTwice(base, PUBLISHER_KEY, PublisherValue(Str(keyId), signature), PublisherValue(Str(keyId), []));
    GetSet(unsigned, PUBLISHER_KEY, PublisherValue(Str(keyId), signature), PUBLISHER_KEY);
    PublisherFields(Str(keyId), signature);
  }

  lemma SignedIsReadable(s: Scheme, key: RootKey, m: Fields, contentHash: Text)
    requires Readable(m)
    ensures Signed(s, key, m, contentHash).Some? ==>
              Readable(Signed(s, key, m, contentHash).value) && Plain(Obj(Signed(s, key, m, contentHash).value))
  {
    var unsigned := Unsigned(m, contentHash, key.keyId);
    var signature := SignJson(s, Obj(unsigned), key.privateKey);
    hide Readable, Blanked, SignJson;
    if signature.Some? {
      BlankedSigned(m, contentHash, key.keyId, signature.value);
      UnsignedIsReadable(m, contentHash, key.keyId, signature.value);
      ReadableIsPlain(Signed(s, key, m, contentHash).value);
    }
  }

  /** The signature a manifest carries, empty when it carries no string. */
  function PresentedSignature(m: Fields): Text {
    var signature := Field(Get(m, PUBLISHER_KEY), SIGNATURE_KEY);
    if signature.Str? then signature.s else []
  }

  /** What the ceremony writes for a manifest reads back as itself and verifies under the root key. */
  lemma SignedManifestVerifies(s: Scheme, key: RootKey, m: Fields, contentHash: Text)
    requires KeyPair(s, key) && Readable(m)
    ensures Signed(s, key, m, contentHash).Some?
    ensures var signed := Signed(s, key, m, contentHash).value;
            && Readable(signed) && ParseManifest(Pretty(Obj(signed), 0)) == Some(signed)
            && PublisherVerifies(s, signed, key.publicKey)
            && Get(signed, ID_KEY) == Get(m, ID_KEY)
  {
    hide Readable, Blanked, VerifyJson, SignJson, ParseManifest, Pretty, KeyPair;
    var unsigned := Unsigned(m, contentHash, key.keyId);
    UnsignedIsReadable(m, contentHash, key.keyId, []);
    ReadableIsPlain(unsigned);
    PlainIsSupported(Obj(unsigned));
    SelfSame(Obj(unsigned));
    SignedVerifies(s, key, Obj(unsigned), Obj(unsigned));
    var signature := SignJson(s, Obj(unsigned), key.privateKey).value;
    BlankedSigned(m, contentHash, key.keyId, signature);
    UnsignedIsReadable(m, contentHash, key.keyId, signature);
    ReadableIsPlain(Signed(s, key, m, contentHash).value);
    WrittenManifestReadsBack(Signed(s, key, m, contentHash).value);
  }

  lemma ReadableIsPlain(m: Fields)
    requires Readable(m)
    ensures Plain(Obj(m))
  {
  }

  lemma SelfSame(v: Json)
    requires Supported(v) && WellFormed(v)
    ensures Same(v, v)
  {
  }

  /** An accepted manifest is, up to key order, one that the root key signed. */
  lemma AcceptedManifestWasSigned(s: Scheme, publicKey: Text, known: set<Text>, signed: seq<Json>, t: Text)
    requires Unforgeable(s, publicKey, known, SignedTexts(signed)) && forall w | w in signed :: WellFormed(w)
    requires ParseManifest(t).Some? && PublisherVerifies(s, ParseManifest(t).value, publicKey)
    requires PresentedSignature(ParseManifest(t).value) in known
    ensures WasSigned(signed, Obj(Blanked(ParseManifest(t).value)))
  {
    var m := ParseManifest(t).value;
    ReadManifests(t);
    BlankedWellFormed(m);
    VerifiedWasSigned(s, publicKey, known, signed, Obj(Blanked(m)), PresentedSignature(m));
  }

  lemma BlankedWellFormed(m: Fields)
    requires Plain(Obj(m))
    ensures WellFormed(Obj(Blanked(m)))
  {
    var keyId := Field(Get(m, PUBLISHER_KEY), KEY_ID_KEY);
    var pub := PublisherValue(keyId, []);
    PlainIsSupported(Obj(m));
    KeysDiffer();
    GetWellFormed(m, PUBLISHER_KEY);
    if Get(m, PUBLISHER_KEY).Obj? {
      GetWellFormed(Get(m, PUBLISHER_KEY).members, KEY_ID_KEY);
    }
    assert WellFormed(pub);
    SetWellFormed(m, PUBLISHER_KEY, pub);
  }

  lemma {:induction false} GetWellFormed(ms: Fields, k: Text)
    requires forall i | 0 <= i < |ms| :: WellFormed(ms[i].value)
    ensures WellFormed(Get(ms, k))
  {
    if ms != [] && ms[0].key != k {
      GetWellFormed(ms[1..], k);
    }
  }

  lemma SetWellFormed(ms: Fields, k: Text, v: Json)
    requires WellFormed(Obj(ms)) && WellFormed(v)
    ensures WellFormed(Obj(Set(ms, k, v)))
  {
    SetKeys(ms, k, v);
    var r := Set(ms, k, v);
    forall i | 0 <= i < |r| ensures WellFormed(r[i].value) {
      assert r[i] in r;
    }
  }
}

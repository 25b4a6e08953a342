/** Hashes and signatures over canonical JSON. The primitives are parameters; what they must satisfy is
    stated as predicates. */
module Signing {
  import opened Wrappers
  import opened JsonText
  import opened JsonParser
  import opened Canon = CanonicalJson

  /** `sign(message, privateKey)`, `verify(message, publicKey, signature)` and a digest. */
  datatype Scheme = Scheme(sign: (Text, Text) -> Text, verify: (Text, Text, Text) -> bool, hash: Text -> Text)

  datatype RootKey = RootKey(keyId: Text, publicKey: Text, privateKey: Text)

  ghost predicate KeyPair(s: Scheme, key: RootKey) {
    forall m :: s.verify(m, key.publicKey, s.sign(m, key.privateKey))
  }

  /** Of the signatures that exist, `known`, none verifies over a text outside `signed`. */
  ghost predicate Unforgeable(s: Scheme, publicKey: Text, known: set<Text>, signed: set<Text>) {
    forall m, sig | sig in known :: s.verify(m, publicKey, sig) ==> m in signed
  }

  ghost predicate InjectiveHash(s: Scheme) {
    forall a, b :: s.hash(a) == s.hash(b) ==> a == b
  }

  /** `None` is the error canonical JSON raises on an unsupported value. */
  function SignJson(s: Scheme, v: Json, privateKey: Text): Option<Text> {
    var t := CanonicalJson(v);
    if t.None? then None else Some(s.sign(t.value, privateKey))
  }

  /** Any error counts as a signature that does not verify. */
  function VerifyJson(s: Scheme, v: Json, publicKey: Text, signature: Text): bool {
    var t := CanonicalJson(v);
    t.Some? && s.verify(t.value, publicKey, signature)
  }

  /** The values whose canonical texts the root key signed. */
  ghost predicate WasSigned(signed: seq<Json>, v: Json) {
    exists w | w in signed :: Same(v, w)
  }

  ghost function SignedTexts(signed: seq<Json>): set<Text> {
    set w | w in signed && CanonicalJson(w).Some? :: CanonicalJson(w).value
  }

  /** The signatures a key made over values. */
  ghost function SignaturesOf(s: Scheme, key: RootKey, signed: seq<Json>): set<Text> {
    set w | w in signed && SignJson(s, w, key.privateKey).Some? :: SignJson(s, w, key.privateKey).value
  }

  /** A scheme whose signatures spell out what they sign. */
  function SpelledOut(): Scheme {
    Scheme((m, k) => [1] + m, (m, k, sig) => sig == [1] + m, m => [1] + m)
  }

  /** The assumptions made on a scheme hold together: of matching keys whose signatures over any values
      exist, and any further texts that start differently, and of an injective hash. */
  lemma AssumptionsAreConsistent(key: RootKey, signed: seq<Json>, others: set<Text>)
    requires forall t | t in others :: t == [] || t[0] != 1
    ensures var s := SpelledOut();
            && KeyPair(s, key) && InjectiveHash(s) && (forall m :: s.hash(m) != [] && s.hash(m)[0] == 1)
            && Unforgeable(s, key.publicKey, SignaturesOf(s, key, signed) + others, SignedTexts(signed))
  {
    var s := SpelledOut();
    forall a, b | s.hash(a) == s.hash(b) ensures a == b {
      SameAfterOne(a, b);
    }
    forall m, sig | sig in SignaturesOf(s, key, signed) + others && s.verify(m, key.publicKey, sig) ensures m in SignedTexts(signed) {
      assert sig[0] == 1;
      var w :| w in signed && SignJson(s, w, key.privateKey).Some? && SignJson(s, w, key.privateKey).value == sig;
      SameAfterOne(m, CanonicalJson(w).value);
    }
  }

  lemma SameAfterOne(a: Text, b: Text)
    requires [1] + a == [1] + b
    ensures a == b
  {
    assert ([1] + a)[1..] == a && ([1] + b)[1..] == b;
  }

  /** A value that verifies under a signature that exists is, up to key order and undefined members, one
      that was signed. */
  lemma VerifiedWasSigned(s: Scheme, publicKey: Text, known: set<Text>, signed: seq<Json>, v: Json, signature: Text)
    requires Unforgeable(s, publicKey, known, SignedTexts(signed)) && signature in known
    requires forall w | w in signed :: WellFormed(w)
    requires WellFormed(v) && VerifyJson(s, v, publicKey, signature)
    ensures WasSigned(signed, v)
  {
    var w :| w in signed && CanonicalJson(w).Some? && CanonicalJson(w).value == CanonicalJson(v).value;
    AcceptsIffSupported(v);
    AcceptsIffSupported(w);
    CanonicalIffSame(v, w);
  }

  /** A signature made over a value verifies over every value that is the same up to key order. */
  lemma SignedVerifies(s: Scheme, key: RootKey, v: Json, w: Json)
    requires KeyPair(s, key)
    requires WellFormed(v) && WellFormed(w) && Supported(v) && Supported(w) && Same(v, w)
    ensures SignJson(s, v, key.privateKey).Some?
    ensures VerifyJson(s, w, key.publicKey, SignJson(s, v, key.privateKey).value)
  {
    AcceptsIffSupported(v);
    AcceptsIffSupported(w);
    CanonicalIffSame(v, w);
  }
}

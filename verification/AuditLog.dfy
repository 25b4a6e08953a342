/** The signed, hash-linked log of capability grants. */
module AuditLog {
  import opened JsonText
  import opened JsonParser
  import opened Canon = CanonicalJson
  import opened Signing

  datatype GrantPayload = GrantPayload(from: Text, to: Text, capability: Text, seqNo: int, prevHash: Text)

  datatype SignedGrant = SignedGrant(payload: GrantPayload, signature: Text, signerKeyId: Text, publicKey: Text)

  const FROM_KEY: Text := [102, 114, 111, 109]
  const TO_KEY: Text := [116, 111]
  const CAPABILITY_KEY: Text := [99, 97, 112, 97, 98, 105, 108, 105, 116, 121]
  const SEQ_KEY: Text := [115, 101, 113]
  const PREV_HASH_KEY: Text := [112, 114, 101, 118, 72, 97, 115, 104]

  /** Sixty-four zeros. */
  const GENESIS_PREV: Text := Zeros(64)

  function Zeros(n: nat): Text {
    if n == 0 then [] else [ZERO] + Zeros(n - 1)
  }

  function PayloadValue(p: GrantPayload): Json {
    Obj([Member(FROM_KEY, Str(p.from)), Member(TO_KEY, Str(p.to)), Member(CAPABILITY_KEY, Str(p.capability)),
         Member(SEQ_KEY, Num(p.seqNo)), Member(PREV_HASH_KEY, Str(p.prevHash))])
  }

  lemma PayloadIsPlain(p: GrantPayload)
    ensures WellFormed(PayloadValue(p)) && Supported(PayloadValue(p))
  {
  }

  function PayloadText(p: GrantPayload): Text {
    PayloadIsPlain(p);
    AcceptsIffSupported(PayloadValue(p));
    CanonicalJson(PayloadValue(p)).value
  }

  /** The signed text of a payload determines the payload. */
  lemma PayloadTextInjective(p: GrantPayload, q: GrantPayload)
    requires PayloadText(p) == PayloadText(q)
    ensures p == q
  {
    var a, b := PayloadValue(p), PayloadValue(q);
    PayloadIsPlain(p);
    PayloadIsPlain(q);
    AcceptsIffSupported(a);
    AcceptsIffSupported(b);
    CanonicalIffSame(a, b);
    hide Supported, CanonicalJson;
    forall i | 0 <= i < 5 ensures a.members[i].value == b.members[i].value {
      SamePayloadMember(p, q, i);
    }
    assert a.members[0].value == b.members[0].value && a.members[1].value == b.members[1].value
           && a.members[2].value == b.members[2].value && a.members[3].value == b.members[3].value
           && a.members[4].value == b.members[4].value;
  }

  lemma SamePayloadMember(p: GrantPayload, q: GrantPayload, i: nat)
    requires i < 5 && Same(PayloadValue(p), PayloadValue(q)) && WellFormed(PayloadValue(p)) && WellFormed(PayloadValue(q))
    ensures PayloadValue(p).members[i].value == PayloadValue(q).members[i].value
  {
    var a, b := PayloadValue(p), PayloadValue(q);
    LookupAt(a.members, i);
    LookupAt(b.members, i);
    assert a.members[i].key == b.members[i].key;
    assert Defined(a.members, a.members[i].key);
  }

  function HashPayload(s: Scheme, p: GrantPayload): Text {
    s.hash(PayloadText(p))
  }

  function Verify(s: Scheme, g: SignedGrant): bool {
    VerifyJson(s, PayloadValue(g.payload), g.publicKey, g.signature)
  }

  function HeadHash(s: Scheme, log: seq<SignedGrant>): Text {
    if log == [] then GENESIS_PREV else HashPayload(s, log[|log| - 1].payload)
  }

  lemma NoHead(s: Scheme)
    ensures forall log: seq<SignedGrant> :: HeadHash(s, log[..0]) == GENESIS_PREV
  {
  }

  lemma NextHead(s: Scheme, log: seq<SignedGrant>, i: nat)
    requires i < |log|
    ensures HeadHash(s, log[..i + 1]) == HashPayload(s, log[i].payload)
  {
  }

  /** Each entry carries the hash of the one before it. */
  ghost predicate Linked(s: Scheme, log: seq<SignedGrant>) {
    forall i | 0 <= i < |log| :: log[i].payload.prevHash == HeadHash(s, log[..i])
  }

  ghost predicate ChainVerifies(s: Scheme, log: seq<SignedGrant>) {
    Linked(s, log) && forall i | 0 <= i < |log| :: Verify(s, log[i])
  }

  ghost predicate Numbered(log: seq<SignedGrant>) {
    forall i | 0 <= i < |log| :: log[i].payload.seqNo == i
  }

  function Payloads(log: seq<SignedGrant>): seq<GrantPayload> {
    seq(|log|, i requires 0 <= i < |log| => log[i].payload)
  }

  function NextGrant(s: Scheme, key: RootKey, log: seq<SignedGrant>, from: Text, to: Text, capability: Text): SignedGrant {
    var p := GrantPayload(from, to, capability, |log|, HeadHash(s, log));
    SignedGrant(p, s.sign(PayloadText(p), key.privateKey), key.keyId, key.publicKey)
  }

  /** Recording keeps the chain verifying and the entries numbered. */
  lemma RecordKeepsChain(s: Scheme, key: RootKey, log: seq<SignedGrant>, from: Text, to: Text, capability: Text)
    requires KeyPair(s, key) && ChainVerifies(s, log) && Numbered(log)
    ensures var log' := log + [NextGrant(s, key, log, from, to, capability)];
            ChainVerifies(s, log') && Numbered(log') && Verify(s, log'[|log|])
  {
    var g := NextGrant(s, key, log, from, to, capability);
    NextVerifies(s, key, log, from, to, capability);
    hide Verify, HeadHash, NextGrant, KeyPair;
    var log' := log + [g];
    NextPayload(s, key, log, from, to, capability);
    forall i | 0 <= i < |log'| ensures log'[i].payload.prevHash == HeadHash(s, log'[..i]) {
      assert log'[..i] == log[..i];
      assert log[..|log|] == log;
    }
  }

  lemma NextVerifies(s: Scheme, key: RootKey, log: seq<SignedGrant>, from: Text, to: Text, capability: Text)
    requires KeyPair(s, key)
    ensures Verify(s, NextGrant(s, key, log, from, to, capability))
  {
    hide HeadHash;
    var p := NextGrant(s, key, log, from, to, capability).payload;
    PayloadIsPlain(p);
    AcceptsIffSupported(PayloadValue(p));
    hide PayloadValue, CanonicalJson;
  }

  lemma NextPayload(s: Scheme, key: RootKey, log: seq<SignedGrant>, from: Text, to: Text, capability: Text)
    ensures NextGrant(s, key, log, from, to, capability).payload == GrantPayload(from, to, capability, |log|, HeadHash(s, log))
  {
  }

  /** With an injective hash that never yields the genesis value, a linked log's payloads are determined by
      its head hash. */
  lemma {:induction false} HeadDeterminesLog(s: Scheme, a: seq<SignedGrant>, b: seq<SignedGrant>)
    requires InjectiveHash(s) && forall m :: s.hash(m) != GENESIS_PREV
    requires Linked(s, a) && Linked(s, b) && HeadHash(s, a) == HeadHash(s, b)
    ensures Payloads(a) == Payloads(b)
    decreases |a|
  {
    hide Linked, HeadHash, Payloads, HashPayload;
    SameHead(s, a, b);
    if a == [] {
      assert b == [];
    } else {
      var m, n := |a| - 1, |b| - 1;
      PrefixLinked(s, a);
      PrefixLinked(s, b);
      HeadDeterminesLog(s, a[..m], b[..n]);
      LastPayload(a);
      LastPayload(b);
    }
  }

  /** Equal heads: both logs empty, or the last payloads equal. */
  lemma SameHead(s: Scheme, a: seq<SignedGrant>, b: seq<SignedGrant>)
    requires InjectiveHash(s) && forall m :: s.hash(m) != GENESIS_PREV
    requires HeadHash(s, a) == HeadHash(s, b)
    ensures a == [] <==> b == []
    ensures a != [] && b != [] ==> a[|a| - 1].payload == b[|b| - 1].payload
  {
    hide PayloadText;
    if a != [] && b != [] {
      PayloadTextInjective(a[|a| - 1].payload, b[|b| - 1].payload);
    }
  }

  lemma LastPayload(log: seq<SignedGrant>)
    requires log != []
    ensures Payloads(log) == Payloads(log[..|log| - 1]) + [log[|log| - 1].payload]
  {
  }

  lemma PrefixLinked(s: Scheme, log: seq<SignedGrant>)
    requires Linked(s, log) && log != []
    ensures Linked(s, log[..|log| - 1])
    ensures HeadHash(s, log[..|log| - 1]) == log[|log| - 1].payload.prevHash
  {
    var init := log[..|log| - 1];
    assert forall i | 0 <= i < |init| :: init[..i] == log[..i];
  }

  /** What these results assume of a hash can be met, together with a matching key pair. */
  lemma HashAssumptionsAreConsistent(key: RootKey)
    ensures KeyPair(SpelledOut(), key) && InjectiveHash(SpelledOut()) && forall m :: SpelledOut().hash(m) != GENESIS_PREV
  {
    AssumptionsAreConsistent(key, [], {});
    assert GENESIS_PREV[0] == ZERO;
  }

  /** Changing any recorded payload breaks the chain or the head: no verifying log with the same head hash
      differs from this one at any position or in length. */
  lemma TamperingShows(s: Scheme, log: seq<SignedGrant>, other: seq<SignedGrant>)
    requires InjectiveHash(s) && forall m :: s.hash(m) != GENESIS_PREV
    requires ChainVerifies(s, log)
    requires |other| != |log| || exists i | 0 <= i < |log| :: other[i].payload != log[i].payload
    ensures !ChainVerifies(s, other) || HeadHash(s, other) != HeadHash(s, log)
  {
    if ChainVerifies(s, other) && HeadHash(s, other) == HeadHash(s, log) {
      HeadDeterminesLog(s, log, other);
      assert |Payloads(log)| == |log| && |Payloads(other)| == |other|;
      forall i | 0 <= i < |log| ensures other[i].payload == log[i].payload {
        assert Payloads(log)[i] == Payloads(other)[i];
      }
    }
  }

  /** The chain check alone accepts every truncation: only the head hash tells a shortened log apart. */
  lemma TruncationVerifies(s: Scheme, log: seq<SignedGrant>, n: nat)
    requires ChainVerifies(s, log) && n <= |log|
    ensures ChainVerifies(s, log[..n])
  {
    assert forall i | 0 <= i < n :: log[..n][..i] == log[..i];
  }

  class AuditLog {
    const scheme: Scheme
    const key: RootKey
    var entries: seq<SignedGrant>

    ghost predicate Valid()
      reads this
    {
      KeyPair(scheme, key) && ChainVerifies(scheme, entries) && Numbered(entries)
    }

    constructor (scheme: Scheme, key: RootKey)
      requires KeyPair(scheme, key)
      ensures Valid() && entries == [] && this.scheme == scheme && this.key == key
    {
      this.scheme, this.key, entries := scheme, key, [];
    }

    method Record(from: Text, to: Text, capability: Text) returns (grant: SignedGrant)
      requires Valid()
      modifies this
      ensures Valid() && Verify(scheme, grant)
      ensures grant == NextGrant(scheme, key, old(entries), from, to, capability)
      ensures grant.payload == GrantPayload(from, to, capability, |old(entries)|, HeadHash(scheme, old(entries)))
      ensures grant.signerKeyId == key.keyId && grant.publicKey == key.publicKey
      ensures entries == old(entries) + [grant]
    {
      RecordKeepsChain(scheme, key, entries, from, to, capability);
      var prev := if |entries| == 0 then GENESIS_PREV else HashPayload(scheme, entries[|entries| - 1].payload);
      var payload := GrantPayload(from, to, capability, |entries|, prev);
      grant := SignedGrant(payload, scheme.sign(PayloadText(payload), key.privateKey), key.keyId, key.publicKey);
      entries := entries + [grant];
    }

    method VerifyChain() returns (ok: bool)
      ensures ok <==> ChainVerifies(scheme, entries)
    {
      hide Verify, HashPayload, HeadHash;
      NoHead(scheme);
      var expected := GENESIS_PREV;
      var i := 0;
      while i < |entries|
        invariant 0 <= i <= |entries|
        invariant expected == HeadHash(scheme, entries[..i])
        invariant forall j | 0 <= j < i :: entries[j].payload.prevHash == HeadHash(scheme, entries[..j]) && Verify(scheme, entries[j])
      {
        assert entries[..i + 1][..i] == entries[..i];
        NextHead(scheme, entries, i);
        if entries[i].payload.prevHash != expected || !Verify(scheme, entries[i]) {
          return false;
        }
        expected := HashPayload(scheme, entries[i].payload);
        i := i + 1;
      }
      ok := true;
    }
  }
}

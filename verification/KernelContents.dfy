/** What the bootstrap and each registration put into the graph and the log: nodes, edges and records. */
module KernelContents {
  import opened Wrappers
  import opened JsonText
  import opened JsonParser
  import opened Canon = CanonicalJson
  import opened CanonicalShape
  import opened Signing
  import opened Logs = AuditLog
  import opened Graphs = CapabilityGraph
  import opened Kernel

  // ---- names ----

  /** An op is cut at its last `@` unless that is its first character or missing; then it is version 1. */
  lemma OpIsCutAtLastAt(op: Text)
    ensures forall name: Text, version: Text | name != [] && 64 !in version && op == name + [64] + version ::
              OpName(op) == name && OpVersion(op) == version
    ensures (forall i | 0 < i < |op| :: op[i] != 64) ==> OpName(op) == op && OpVersion(op) == [49]
  {
    forall name: Text, version: Text | name != [] && 64 !in version && op == name + [64] + version
      ensures OpName(op) == name && OpVersion(op) == version
    {
      assert op[|name|] == 64;
      assert forall j | |name| < j < |op| :: op[j] == version[j - |name| - 1] && op[j] != 64;
      assert LastIndexOf(op, AT) == |name|;
    }
  }

  /** A held capability is the granted one, a leading `port:` removed. */
  ghost predicate IsHeld(cap: Text, held: Text) {
    cap == [112, 111, 114, 116, 58] + held || (cap == held && !([112, 111, 114, 116, 58] <= cap))
  }

  lemma HeldIs(cap: Text)
    ensures forall held :: IsHeld(cap, held) <==> held == StripPort(cap)
  {
    if PORT_PREFIX <= cap {
      assert cap == PORT_PREFIX + cap[|PORT_PREFIX|..];
      forall held | cap == PORT_PREFIX + held ensures held == cap[|PORT_PREFIX|..] {
        assert (PORT_PREFIX + held)[|PORT_PREFIX|..] == held;
      }
    }
  }

  // ---- records ----

  /** What is signed and hashed of a record is an object of its five fields: from, to, capability, seq, prevHash. */
  lemma PayloadSays(p: GrantPayload)
    ensures Parse(PayloadText(p)).Some?
    ensures Same(Obj([Member([102, 114, 111, 109], Str(p.from)), Member([116, 111], Str(p.to)),
                      Member([99, 97, 112, 97, 98, 105, 108, 105, 116, 121], Str(p.capability)),
                      Member([115, 101, 113], Num(p.seqNo)), Member([112, 114, 101, 118, 72, 97, 115, 104], Str(p.prevHash))]),
                 Parse(PayloadText(p)).value)
  {
    PayloadIsPlain(p);
    hide CanonicalJson, Supported, WellFormed, Same, Parse;
    CanonicalReadsBack(PayloadValue(p));
    NormalIsSame(PayloadValue(p));
  }

  /** Who grants which capability to whom. */
  datatype Granting = Granting(from: Id, to: Id, capability: Id)

  function Grantings(log: seq<SignedGrant>): seq<Granting> {
    seq(|log|, i requires 0 <= i < |log| => Granting(log[i].payload.from, log[i].payload.to, log[i].payload.capability))
  }

  /** An entry grants itself. */
  function OwnGrantings(id: Id, capabilities: seq<Id>): seq<Granting> {
    seq(|capabilities|, i requires 0 <= i < |capabilities| => Granting(id, id, capabilities[i]))
  }

  ghost predicate AreHeld(caps: seq<Id>, held: seq<Id>) {
    |held| == |caps| && forall i | 0 <= i < |caps| :: IsHeld(caps[i], held[i])
  }

  lemma GrantingSnoc(s: Scheme, key: RootKey, log: seq<SignedGrant>, from: Id, to: Id, capability: Id)
    ensures Grantings(log + [NextGrant(s, key, log, from, to, capability)]) == Grantings(log) + [Granting(from, to, capability)]
  {
    hide HeadHash, PayloadText;
  }

  lemma OwnSnoc(id: Id, capabilities: seq<Id>)
    ensures capabilities == [] ==> OwnGrantings(id, capabilities) == []
    ensures capabilities != [] ==>
              var n := |capabilities| - 1;
              OwnGrantings(id, capabilities) == OwnGrantings(id, capabilities[..n]) + [Granting(id, id, capabilities[n])]
  {
  }

  lemma OfferOpRecord(s: Scheme, key: RootKey, k: KernelState, id: Id, op: Id)
    ensures Grantings(OfferOp(s, key, k, id, op).log) == Grantings(k.log) + [Granting(id, id, op)]
  {
    hide Grantings, NextGrant;
    GrantingSnoc(s, key, k.log, id, id, op);
  }

  lemma HoldCapRecord(s: Scheme, key: RootKey, k: KernelState, id: Id, cap: Id)
    ensures Grantings(HoldCap(s, key, k, id, cap).log) == Grantings(k.log) + [Granting(id, id, StripPort(cap))]
  {
    hide Grantings, NextGrant, StripPort;
    GrantingSnoc(s, key, k.log, id, id, StripPort(cap));
  }

  lemma {:induction false} OfferAllRecords(s: Scheme, key: RootKey, k: KernelState, id: Id, ops: seq<Id>)
    ensures Grantings(OfferAll(s, key, k, id, ops).log) == Grantings(k.log) + OwnGrantings(id, ops)
  {
    hide Grantings, OwnGrantings, OfferOp;
    OwnSnoc(id, ops);
    if ops != [] {
      var n := |ops| - 1;
      OfferAllRecords(s, key, k, id, ops[..n]);
      OfferOpRecord(s, key, OfferAll(s, key, k, id, ops[..n]), id, ops[n]);
    }
  }

  lemma {:induction false} HoldAllRecords(s: Scheme, key: RootKey, k: KernelState, id: Id, caps: seq<Id>, held: seq<Id>)
    requires AreHeld(caps, held)
    ensures Grantings(HoldAll(s, key, k, id, caps).log) == Grantings(k.log) + OwnGrantings(id, held)
  {
    hide Grantings, OwnGrantings, HoldCap, IsHeld, StripPort;
    OwnSnoc(id, held);
    if caps != [] {
      var n := |caps| - 1;
      HoldAllRecords(s, key, k, id, caps[..n], held[..n]);
      HeldIs(caps[n]);
      HoldCapRecord(s, key, HoldAll(s, key, k, id, caps[..n]), id, caps[n]);
    }
  }

  /** The first registration of an id records, as granted by the entry to itself, its offered ops and then its
      held capabilities, and its edges say the same; a later one records nothing. */
  lemma RegistrationRecords(s: Scheme, key: RootKey, k: KernelState, id: Id, grant: Grant, profile: Profile, held: seq<Id>)
    requires AreHeld(grant.capabilities, held)
    ensures var k' := Registered(s, key, k, id, grant, profile);
            && Grantings(k'.log) == Grantings(k.log) + (if id in k.seen then [] else OwnGrantings(id, grant.contracts) + OwnGrantings(id, held))
            && Arcs(k'.graph.edges) == Arcs(k.graph.edges) + (if id in k.seen then [] else OfferArcs(id, grant.contracts) + HoldsOf(id, held))
  {
    hide OfferAll, HoldAll, Arcs, Grantings, OwnGrantings, PrincipalNode, OfferArcs, HoldArcs, AreHeld, HoldsOf;
    RegistrationArcs(s, key, k, id, grant, profile);
    HoldsAre(id, grant.capabilities, held);
    if id !in k.seen {
      var started := WithNode(k.(seen := k.seen + {id}), PrincipalNode(id, profile));
      OfferAllRecords(s, key, started, id, grant.contracts);
      HoldAllRecords(s, key, OfferAll(s, key, started, id, grant.contracts), id, grant.capabilities, held);
    }
  }

  function HoldsOf(id: Id, held: seq<Id>): seq<Arc> {
    seq(|held|, i requires 0 <= i < |held| => Arc(id, held[i], Hold))
  }

  lemma HoldsAre(id: Id, caps: seq<Id>, held: seq<Id>)
    requires AreHeld(caps, held)
    ensures HoldArcs(id, caps) == HoldsOf(id, held)
  {
    hide IsHeld, StripPort;
    forall i | 0 <= i < |caps| ensures held[i] == StripPort(caps[i]) {
      HeldIs(caps[i]);
    }
  }

  // ---- nodes ----

  /** The node a registered id has afterwards. */
  function NodeAfter(k: KernelState, id: Id, grant: Grant, profile: Profile, held: seq<Id>, x: Id): Option<Node> {
    if x in grant.contracts then Some(Node(x, Capability, None, None))
    else if x == id then
      var granularity := match profile.granularity { case Some(g) => g case None => [97, 116, 111, 109, 105, 99] };
      Some(Node(id, Principal, Some(granularity), profile.extractionCandidate))
    else if x in k.graph.nodes then Some(k.graph.nodes[x])
    else if x in held then Some(Node(x, Capability, None, None))
    else None
  }

  function NodeOf(g: Graph, x: Id): Option<Node> {
    if x in g.nodes then Some(g.nodes[x]) else None
  }

  lemma InSnoc(xs: seq<Id>, x: Id)
    ensures xs == [] ==> x !in xs
    ensures xs != [] ==> (x in xs <==> x in xs[..|xs| - 1] || x == xs[|xs| - 1])
  {
    if xs != [] {
      assert xs == xs[..|xs| - 1] + [xs[|xs| - 1]];
    }
  }

  lemma {:induction false} OfferAllNodes(s: Scheme, key: RootKey, k: KernelState, id: Id, ops: seq<Id>, x: Id)
    ensures NodeOf(OfferAll(s, key, k, id, ops).graph, x)
            == if x in ops then Some(Node(x, Capability, None, None)) else NodeOf(k.graph, x)
  {
    hide NodeOf, OfferOp;
    InSnoc(ops, x);
    if ops != [] {
      var n := |ops| - 1;
      OfferAllNodes(s, key, k, id, ops[..n], x);
      OfferOpNode(s, key, OfferAll(s, key, k, id, ops[..n]), id, ops[n], x);
    }
  }

  lemma OfferOpNode(s: Scheme, key: RootKey, k: KernelState, id: Id, op: Id, x: Id)
    ensures NodeOf(OfferOp(s, key, k, id, op).graph, x) == if x == op then Some(Node(x, Capability, None, None)) else NodeOf(k.graph, x)
  {
    hide NextGrant;
  }

  lemma {:induction false} HoldAllNodes(s: Scheme, key: RootKey, k: KernelState, id: Id, caps: seq<Id>, held: seq<Id>, x: Id)
    requires AreHeld(caps, held)
    ensures NodeOf(HoldAll(s, key, k, id, caps).graph, x)
            == if NodeOf(k.graph, x).None? && x in held then Some(Node(x, Capability, None, None)) else NodeOf(k.graph, x)
  {
    hide IsHeld, StripPort, NodeOf, HoldCap;
    InSnoc(held, x);
    if caps != [] {
      var n := |caps| - 1;
      HoldAllNodes(s, key, k, id, caps[..n], held[..n], x);
      HeldIs(caps[n]);
      HoldCapNode(s, key, HoldAll(s, key, k, id, caps[..n]), id, caps[n], held[n], x);
    }
  }

  lemma HoldCapNode(s: Scheme, key: RootKey, k: KernelState, id: Id, cap: Id, held: Id, x: Id)
    requires held == StripPort(cap)
    ensures NodeOf(HoldCap(s, key, k, id, cap).graph, x)
            == if NodeOf(k.graph, x).None? && x == held then Some(Node(x, Capability, None, None)) else NodeOf(k.graph, x)
  {
    hide NextGrant, StripPort;
  }

  /** The first registration of an id adds the entry as a principal with its profile, its ops as capabilities,
      whatever was there, and its held capabilities where nothing was; every other node stays. */
  lemma RegistrationNodes(s: Scheme, key: RootKey, k: KernelState, id: Id, grant: Grant, profile: Profile, held: seq<Id>, x: Id)
    requires AreHeld(grant.capabilities, held)
    ensures NodeOf(Registered(s, key, k, id, grant, profile).graph, x)
            == if id in k.seen then NodeOf(k.graph, x) else NodeAfter(k, id, grant, profile, held, x)
  {
    hide OfferAll, HoldAll, AreHeld;
    if id !in k.seen {
      var started := WithNode(k.(seen := k.seen + {id}), PrincipalNode(id, profile));
      OfferAllNodes(s, key, started, id, grant.contracts, x);
      HoldAllNodes(s, key, OfferAll(s, key, started, id, grant.contracts), id, grant.capabilities, held, x);
    }
  }

  // ---- the bootstrap ----

  /** Five nodes, and two edges by which the kernel grants self-description to itself and to the schema. */
  lemma GenesisHolds(s: Scheme, key: RootKey)
    ensures var k := Genesis(s, key);
            && k.graph.nodes == map[
                 SCHEMA := Node(SCHEMA, Capability, None, None),
                 KERNEL := Node(KERNEL, Principal, Some(ATOMIC), None),
                 EVERYONE := Node(EVERYONE, Principal, None, None),
                 STATE_ARBITRATOR := Node(STATE_ARBITRATOR, Principal, Some(ATOMIC), Some(false)),
                 CAP_SELF_DESCRIBE := Node(CAP_SELF_DESCRIBE, Capability, None, None)]
            && Arcs(k.graph.edges) == [Arc(KERNEL, CAP_SELF_DESCRIBE, Hold), Arc(SCHEMA, CAP_SELF_DESCRIBE, Hold)]
            && Grantings(k.log) == [Granting(KERNEL, KERNEL, CAP_SELF_DESCRIBE), Granting(KERNEL, SCHEMA, CAP_SELF_DESCRIBE)]
            && k.tools == map[] && k.seen == {}
  {
    hide HeadHash, PayloadText;
  }
}

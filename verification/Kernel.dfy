/** The kernel the router carries: capability graph, audit log and tool registry, kept in step. */
module Kernel {
  import opened Wrappers
  import opened JsonText
  import opened Signing
  import opened Logs = AuditLog
  import opened Graphs = CapabilityGraph
  import opened Tools = ToolRegistry

  datatype Grant = Grant(capabilities: seq<Id>, contracts: seq<Id>)

  datatype Profile = Profile(granularity: Option<Text>, extractionCandidate: Option<bool>)

  datatype KernelState = KernelState(graph: Graph, log: seq<SignedGrant>, tools: Generations, seen: set<Id>)

  // ---- op names and versions ----

  const AT: CodeUnit := 64
  const ONE: Text := [49]
  const ATOMIC: Text := [97, 116, 111, 109, 105, 99]
  const PORT_PREFIX: Text := [112, 111, 114, 116, 58]

  /** The position of the last occurrence, or -1. */
  function LastIndexOf(t: Text, c: CodeUnit): (i: int)
    ensures -1 <= i < |t|
    ensures i >= 0 ==> t[i] == c
    ensures forall j | i < j < |t| :: t[j] != c
  {
    if t == [] then -1
    else if t[|t| - 1] == c then |t| - 1
    else LastIndexOf(t[..|t| - 1], c)
  }

  function OpName(op: Text): Text {
    var at := LastIndexOf(op, AT);
    if at > 0 then op[..at] else op
  }

  function OpVersion(op: Text): Text {
    var at := LastIndexOf(op, AT);
    if at > 0 then op[at + 1..] else ONE
  }

  function Versioned(name: Text, version: Text): Text {
    name + [AT] + version
  }

  /** Splitting an op into name and version and putting them together again gives the op back exactly when
      an `@` stands after its first character; otherwise the version 1 is made up. */
  lemma RecomposesIff(op: Text)
    ensures Versioned(OpName(op), OpVersion(op)) == op <==> LastIndexOf(op, AT) > 0
  {
    var at := LastIndexOf(op, AT);
    if at > 0 {
      assert op == op[..at] + [op[at]] + op[at + 1..];
    } else {
      assert |Versioned(op, ONE)| == |op| + 2;
    }
  }

  function StripPort(cap: Text): Text {
    if PORT_PREFIX <= cap then cap[|PORT_PREFIX|..] else cap
  }

  // ---- registration steps ----

  /** Record the grant in the log and add the edge that carries it. */
  function GrantStep(s: Scheme, key: RootKey, k: KernelState, from: Id, to: Id, capability: Id, kind: EdgeKind): KernelState {
    var g := NextGrant(s, key, k.log, from, to, capability);
    k.(log := k.log + [g], graph := AddEdge(k.graph, Edge(to, capability, kind, g)))
  }

  function WithNode(k: KernelState, n: Node): KernelState {
    k.(graph := Upserted(k.graph, n))
  }

  function CapabilityNode(id: Id): Node { Node(id, Capability, None, None) }

  function OfferOp(s: Scheme, key: RootKey, k: KernelState, id: Id, op: Id): KernelState {
    var granted := GrantStep(s, key, WithNode(k, CapabilityNode(op)), id, id, op, Offer);
    granted.(tools := Published(granted.tools, OpName(op), OpVersion(op), id))
  }

  function HoldCap(s: Scheme, key: RootKey, k: KernelState, id: Id, cap: Id): KernelState {
    GrantStep(s, key, WithCapability(k, StripPort(cap)), id, id, StripPort(cap), Hold)
  }

  function WithCapability(k: KernelState, held: Id): KernelState {
    if held in k.graph.nodes then k else WithNode(k, CapabilityNode(held))
  }

  function OfferAll(s: Scheme, key: RootKey, k: KernelState, id: Id, ops: seq<Id>): KernelState {
    if ops == [] then k
    else OfferOp(s, key, OfferAll(s, key, k, id, ops[..|ops| - 1]), id, ops[|ops| - 1])
  }

  function HoldAll(s: Scheme, key: RootKey, k: KernelState, id: Id, caps: seq<Id>): KernelState {
    if caps == [] then k
    else HoldCap(s, key, HoldAll(s, key, k, id, caps[..|caps| - 1]), id, caps[|caps| - 1])
  }

  function PrincipalNode(id: Id, profile: Profile): Node {
    Node(id, Principal, Some(if profile.granularity.Some? then profile.granularity.value else ATOMIC), profile.extractionCandidate)
  }

  /** Idempotent per id: a second registration changes nothing. */
  function Registered(s: Scheme, key: RootKey, k: KernelState, id: Id, grant: Grant, profile: Profile): KernelState {
    if id in k.seen then k
    else
      var started := WithNode(k.(seen := k.seen + {id}), PrincipalNode(id, profile));
      HoldAll(s, key, OfferAll(s, key, started, id, grant.contracts), id, grant.capabilities)
  }

  // ---- genesis ----

  const SCHEMA: Text := [103, 101, 110, 101, 115, 105, 115, 58, 115, 99, 104, 101, 109, 97]
  const KERNEL: Text := [103, 101, 110, 101, 115, 105, 115, 58, 107, 101, 114, 110, 101, 108]
  const EVERYONE: Text := [103, 101, 110, 101, 115, 105, 115, 58, 101, 118, 101, 114, 121, 111, 110, 101]
  const STATE_ARBITRATOR: Text := [99, 111, 114, 101, 58, 115, 116, 97, 116, 101, 45, 97, 114, 98, 105, 116, 114, 97, 116, 111, 114]
  const CAP_SELF_DESCRIBE: Text := [99, 97, 112, 58, 115, 101, 108, 102, 45, 100, 101, 115, 99, 114, 105, 98, 101]

  function Genesis(s: Scheme, key: RootKey): KernelState {
    var k0 := KernelState(EMPTY_GRAPH, [], map[], {});
    var k1 := WithNode(k0, CapabilityNode(SCHEMA));
    var k2 := WithNode(k1, Node(KERNEL, Principal, Some(ATOMIC), None));
    var k3 := WithNode(k2, Node(EVERYONE, Principal, None, None));
    var k4 := WithNode(k3, Node(STATE_ARBITRATOR, Principal, Some(ATOMIC), Some(false)));
    var k5 := WithNode(k4, CapabilityNode(CAP_SELF_DESCRIBE));
    GrantStep(s, key, GrantStep(s, key, k5, KERNEL, KERNEL, CAP_SELF_DESCRIBE, Hold), KERNEL, SCHEMA, CAP_SELF_DESCRIBE, Hold)
  }

  // ---- what every registration keeps ----

  /** The i-th edge carries the i-th audit record, for the same holder and capability. */
  ghost predicate LockStep(edges: seq<Edge>, log: seq<SignedGrant>) {
    && |edges| == |log|
    && forall i | 0 <= i < |log| ::
         && edges[i].grant == log[i]
         && log[i].payload.to == edges[i].to && log[i].payload.capability == edges[i].capability
  }

  datatype Offered = Offered(op: Id, impl: Id)

  /** The offer edges, oldest first. */
  function Offers(edges: seq<Edge>): seq<Offered> {
    if edges == [] then []
    else
      var e := edges[|edges| - 1];
      Offers(edges[..|edges| - 1]) + if e.kind == Offer then [Offered(e.capability, e.to)] else []
  }

  /** The generations of one tool name among the offers, oldest first. */
  function PinsOf(offers: seq<Offered>, name: Text): seq<GenerationPin> {
    if offers == [] then []
    else
      var o := offers[|offers| - 1];
      PinsOf(offers[..|offers| - 1], name) + if OpName(o.op) == name then [GenerationPin(OpVersion(o.op), o.impl)] else []
  }

  /** The tool registry is one more index over the offer edges. */
  ghost predicate ToolsIndexed(tools: Generations, offers: seq<Offered>) {
    forall name :: PinsAt(tools, name) == PinsOf(offers, name)
  }

  ghost predicate ChainOk(s: Scheme, edges: seq<Edge>, log: seq<SignedGrant>) {
    ChainVerifies(s, log) && Numbered(log) && LockStep(edges, log)
  }

  ghost predicate InStep(s: Scheme, k: KernelState) {
    && Indexed(k.graph)
    && ChainOk(s, k.graph.edges, k.log)
    && ToolsIndexed(k.tools, Offers(k.graph.edges))
  }

  lemma OffersSnoc(edges: seq<Edge>, e: Edge)
    ensures Offers(edges + [e]) == Offers(edges) + if e.kind == Offer then [Offered(e.capability, e.to)] else []
  {
  }

  lemma ToolsSnoc(tools: Generations, offers: seq<Offered>, o: Offered)
    requires ToolsIndexed(tools, offers)
    ensures ToolsIndexed(Published(tools, OpName(o.op), OpVersion(o.op), o.impl), offers + [o])
  {
  }

  lemma ChainSnoc(s: Scheme, key: RootKey, edges: seq<Edge>, log: seq<SignedGrant>, from: Id, to: Id, capability: Id, kind: EdgeKind)
    requires KeyPair(s, key) && ChainOk(s, edges, log)
    ensures var g := NextGrant(s, key, log, from, to, capability);
            Verify(s, g) && ChainOk(s, edges + [Edge(to, capability, kind, g)], log + [g])
  {
    RecordKeepsChain(s, key, log, from, to, capability);
    hide ChainVerifies, Numbered, Verify, HeadHash, PayloadText;
  }

  /** The grant of a registration is never refused, and log and graph stay in step. */
  lemma GrantStepOk(s: Scheme, key: RootKey, k: KernelState, from: Id, to: Id, capability: Id, kind: EdgeKind)
    requires KeyPair(s, key) && Indexed(k.graph) && ChainOk(s, k.graph.edges, k.log)
    requires from in k.graph.nodes && to in k.graph.nodes && capability in k.graph.nodes
    ensures Verify(s, NextGrant(s, key, k.log, from, to, capability))
    ensures var k' := GrantStep(s, key, k, from, to, capability, kind);
            && Indexed(k'.graph) && ChainOk(s, k'.graph.edges, k'.log) && k'.graph.nodes == k.graph.nodes
            && k'.tools == k.tools && k'.seen == k.seen
            && Offers(k'.graph.edges) == Offers(k.graph.edges) + if kind == Offer then [Offered(capability, to)] else []
  {
    var g := NextGrant(s, key, k.log, from, to, capability);
    ChainSnoc(s, key, k.graph.edges, k.log, from, to, capability, kind);
    AddEdgeIndexed(k.graph, Edge(to, capability, kind, g));
    OffersSnoc(k.graph.edges, Edge(to, capability, kind, g));
    hide Indexed, ChainOk, Verify, NextGrant, Offers;
  }

  lemma OfferOpOk(s: Scheme, key: RootKey, k: KernelState, id: Id, op: Id)
    requires KeyPair(s, key) && InStep(s, k) && id in k.graph.nodes
    ensures var k' := OfferOp(s, key, k, id, op);
            && InStep(s, k') && k'.graph.nodes.Keys == k.graph.nodes.Keys + {op} && k'.seen == k.seen
            && Offers(k'.graph.edges) == Offers(k.graph.edges) + [Offered(op, id)]
  {
    hide Indexed, ChainOk, ToolsIndexed, Offers, OpName, OpVersion, Published, GrantStep, KeyPair;
    UpsertIndexed(k.graph, CapabilityNode(op));
    GrantStepOk(s, key, WithNode(k, CapabilityNode(op)), id, id, op, Offer);
    ToolsSnoc(k.tools, Offers(k.graph.edges), Offered(op, id));
  }

  lemma HoldCapOk(s: Scheme, key: RootKey, k: KernelState, id: Id, cap: Id)
    requires KeyPair(s, key) && InStep(s, k) && id in k.graph.nodes
    ensures var k' := HoldCap(s, key, k, id, cap);
            && InStep(s, k') && k'.graph.nodes.Keys == k.graph.nodes.Keys + {StripPort(cap)} && k'.seen == k.seen
            && Offers(k'.graph.edges) == Offers(k.graph.edges)
  {
    hide Indexed, ChainOk, ToolsIndexed, Offers, StripPort, GrantStep, KeyPair, WithCapability;
    WithCapabilityOk(s, k, StripPort(cap));
    GrantStepOk(s, key, WithCapability(k, StripPort(cap)), id, id, StripPort(cap), Hold);
    assert Offers(k.graph.edges) + [] == Offers(k.graph.edges);
  }

  lemma WithCapabilityOk(s: Scheme, k: KernelState, held: Id)
    requires InStep(s, k)
    ensures var k' := WithCapability(k, held);
            && InStep(s, k') && k'.graph.nodes.Keys == k.graph.nodes.Keys + {held} && k'.seen == k.seen
            && k'.graph.edges == k.graph.edges && k'.tools == k.tools
  {
    hide Indexed, ChainOk, ToolsIndexed, Offers;
    UpsertIndexed(k.graph, CapabilityNode(held));
  }

  function OffersFor(id: Id, ops: seq<Id>): seq<Offered> {
    seq(|ops|, i requires 0 <= i < |ops| => Offered(ops[i], id))
  }

  lemma {:induction false} OfferAllOk(s: Scheme, key: RootKey, k: KernelState, id: Id, ops: seq<Id>)
    requires KeyPair(s, key) && InStep(s, k) && id in k.graph.nodes
    ensures var k' := OfferAll(s, key, k, id, ops);
            && InStep(s, k') && id in k'.graph.nodes && k'.seen == k.seen
            && Offers(k'.graph.edges) == Offers(k.graph.edges) + OffersFor(id, ops)
  {
    hide InStep, KeyPair, Offers, OfferOp;
    if ops != [] {
      var n := |ops| - 1;
      OfferAllOk(s, key, k, id, ops[..n]);
      OfferOpOk(s, key, OfferAll(s, key, k, id, ops[..n]), id, ops[n]);
      assert OffersFor(id, ops) == OffersFor(id, ops[..n]) + [Offered(ops[n], id)];
    }
  }

  lemma {:induction false} HoldAllOk(s: Scheme, key: RootKey, k: KernelState, id: Id, caps: seq<Id>)
    requires KeyPair(s, key) && InStep(s, k) && id in k.graph.nodes
    ensures var k' := HoldAll(s, key, k, id, caps);
            InStep(s, k') && id in k'.graph.nodes && k'.seen == k.seen && Offers(k'.graph.edges) == Offers(k.graph.edges)
  {
    hide InStep, KeyPair, Offers, HoldCap;
    if caps != [] {
      var n := |caps| - 1;
      HoldAllOk(s, key, k, id, caps[..n]);
      HoldCapOk(s, key, HoldAll(s, key, k, id, caps[..n]), id, caps[n]);
    }
  }

  /** Registration keeps graph, log and tool registry in step, adds exactly the entry's offers on its first
      call for an id, and nothing on any later one. */
  lemma RegisterOk(s: Scheme, key: RootKey, k: KernelState, id: Id, grant: Grant, profile: Profile)
    requires KeyPair(s, key) && InStep(s, k)
    ensures var k' := Registered(s, key, k, id, grant, profile);
            && InStep(s, k') && k'.seen == k.seen + {id}
            && Offers(k'.graph.edges) == Offers(k.graph.edges) + (if id in k.seen then [] else OffersFor(id, grant.contracts))
            && Registered(s, key, k', id, grant, profile) == k'
  {
    if id !in k.seen {
      var started := WithNode(k.(seen := k.seen + {id}), PrincipalNode(id, profile));
      UpsertIndexed(k.graph, PrincipalNode(id, profile));
      OfferAllOk(s, key, started, id, grant.contracts);
      HoldAllOk(s, key, OfferAll(s, key, started, id, grant.contracts), id, grant.capabilities);
    }
  }

  lemma NothingIndexed()
    ensures Indexed(EMPTY_GRAPH)
  {
  }

  lemma GenesisOk(s: Scheme, key: RootKey)
    requires KeyPair(s, key)
    ensures var k := Genesis(s, key);
            && InStep(s, k) && k.seen == {} && Offers(k.graph.edges) == [] && |k.log| == 2
  {
    hide KeyPair, Indexed;
    NothingIndexed();
    var k0 := KernelState(EMPTY_GRAPH, [], map[], {});
    var k1 := WithNode(k0, CapabilityNode(SCHEMA));
    var k2 := WithNode(k1, Node(KERNEL, Principal, Some(ATOMIC), None));
    var k3 := WithNode(k2, Node(EVERYONE, Principal, None, None));
    var k4 := WithNode(k3, Node(STATE_ARBITRATOR, Principal, Some(ATOMIC), Some(false)));
    var k5 := WithNode(k4, CapabilityNode(CAP_SELF_DESCRIBE));
    UpsertIndexed(k0.graph, CapabilityNode(SCHEMA));
    UpsertIndexed(k1.graph, Node(KERNEL, Principal, Some(ATOMIC), None));
    UpsertIndexed(k2.graph, Node(EVERYONE, Principal, None, None));
    UpsertIndexed(k3.graph, Node(STATE_ARBITRATOR, Principal, Some(ATOMIC), Some(false)));
    UpsertIndexed(k4.graph, CapabilityNode(CAP_SELF_DESCRIBE));
    assert KERNEL in k5.graph.nodes && SCHEMA in k5.graph.nodes && CAP_SELF_DESCRIBE in k5.graph.nodes;
    GrantStepOk(s, key, k5, KERNEL, KERNEL, CAP_SELF_DESCRIBE, Hold);
    GrantStepOk(s, key, GrantStep(s, key, k5, KERNEL, KERNEL, CAP_SELF_DESCRIBE, Hold), KERNEL, SCHEMA, CAP_SELF_DESCRIBE, Hold);
  }

  // ---- which edges a registration adds ----

  datatype Arc = Arc(to: Id, capability: Id, kind: EdgeKind)

  function Arcs(edges: seq<Edge>): seq<Arc> {
    seq(|edges|, i requires 0 <= i < |edges| => Arc(edges[i].to, edges[i].capability, edges[i].kind))
  }

  function OfferArcs(id: Id, ops: seq<Id>): seq<Arc> {
    seq(|ops|, i requires 0 <= i < |ops| => Arc(id, ops[i], Offer))
  }

  function HoldArcs(id: Id, caps: seq<Id>): seq<Arc> {
    seq(|caps|, i requires 0 <= i < |caps| => Arc(id, StripPort(caps[i]), Hold))
  }

  lemma OfferArc(s: Scheme, key: RootKey, k: KernelState, id: Id, op: Id)
    ensures Arcs(OfferOp(s, key, k, id, op).graph.edges) == Arcs(k.graph.edges) + [Arc(id, op, Offer)]
  {
  }

  lemma HoldArc(s: Scheme, key: RootKey, k: KernelState, id: Id, cap: Id)
    ensures Arcs(HoldCap(s, key, k, id, cap).graph.edges) == Arcs(k.graph.edges) + [Arc(id, StripPort(cap), Hold)]
  {
  }

  lemma {:induction false} OfferAllArcs(s: Scheme, key: RootKey, k: KernelState, id: Id, ops: seq<Id>)
    ensures Arcs(OfferAll(s, key, k, id, ops).graph.edges) == Arcs(k.graph.edges) + OfferArcs(id, ops)
  {
    hide OfferOp;
    if ops != [] {
      var n := |ops| - 1;
      OfferAllArcs(s, key, k, id, ops[..n]);
      OfferArc(s, key, OfferAll(s, key, k, id, ops[..n]), id, ops[n]);
      hide Arcs;
      assert OfferArcs(id, ops) == OfferArcs(id, ops[..n]) + [Arc(id, ops[n], Offer)];
    }
  }

  lemma {:induction false} HoldAllArcs(s: Scheme, key: RootKey, k: KernelState, id: Id, caps: seq<Id>)
    ensures Arcs(HoldAll(s, key, k, id, caps).graph.edges) == Arcs(k.graph.edges) + HoldArcs(id, caps)
  {
    hide HoldCap, StripPort;
    if caps != [] {
      var n := |caps| - 1;
      HoldAllArcs(s, key, k, id, caps[..n]);
      HoldArc(s, key, HoldAll(s, key, k, id, caps[..n]), id, caps[n]);
      hide Arcs;
      assert HoldArcs(id, caps) == HoldArcs(id, caps[..n]) + [Arc(id, StripPort(caps[n]), Hold)];
    }
  }

  /** The first registration of an id appends its offers, then its holds; later ones append nothing. */
  lemma RegistrationArcs(s: Scheme, key: RootKey, k: KernelState, id: Id, grant: Grant, profile: Profile)
    ensures Arcs(Registered(s, key, k, id, grant, profile).graph.edges)
            == Arcs(k.graph.edges) + if id in k.seen then [] else OfferArcs(id, grant.contracts) + HoldArcs(id, grant.capabilities)
  {
    hide OfferAll, HoldAll, Arcs, OfferArcs, HoldArcs, PrincipalNode;
    if id !in k.seen {
      var started := WithNode(k.(seen := k.seen + {id}), PrincipalNode(id, profile));
      OfferAllArcs(s, key, started, id, grant.contracts);
      HoldAllArcs(s, key, OfferAll(s, key, started, id, grant.contracts), id, grant.capabilities);
    }
  }

  // ---- whole runs of registrations ----

  datatype Registration = Registration(id: Id, grant: Grant, profile: Profile)

  function RegisterRun(s: Scheme, key: RootKey, k: KernelState, rs: seq<Registration>): KernelState {
    if rs == [] then k
    else
      var before, r := RegisterRun(s, key, k, rs[..|rs| - 1]), rs[|rs| - 1];
      Registered(s, key, before, r.id, r.grant, r.profile)
  }

  /** After the bootstrap and any run of registrations, repeated ones included, the i-th edge carries the
      i-th record, which is numbered i and names the same holder and capability, and the chain verifies. */
  lemma {:induction false} EveryRunInStep(s: Scheme, key: RootKey, rs: seq<Registration>)
    requires KeyPair(s, key)
    ensures InStep(s, RegisterRun(s, key, Genesis(s, key), rs))
  {
    hide InStep, Registered, KeyPair, Genesis;
    if rs == [] {
      GenesisOk(s, key);
    } else {
      var n := |rs| - 1;
      EveryRunInStep(s, key, rs[..n]);
      RegisterOk(s, key, RegisterRun(s, key, Genesis(s, key), rs[..n]), rs[n].id, rs[n].grant, rs[n].profile);
    }
  }

  // ---- the kernel objects ----

  class KernelRouter {
    const scheme: Scheme
    const key: RootKey
    const graph: CapabilityGraph
    const audit: AuditLog
    const tools: ToolRegistry
    var graphSeen: set<Id>

    ghost function View(): KernelState
      reads this, graph, audit, tools
    {
      KernelState(graph.View(), audit.entries, tools.generations, graphSeen)
    }

    /** Graph and log in step; the tool registry may lag behind by one offer. */
    ghost predicate Linked()
      reads this, graph, audit
    {
      && graph.scheme == scheme && audit.scheme == scheme && audit.key == key
      && graph.Valid() && audit.Valid() && ChainOk(scheme, graph.edges, audit.entries)
    }

    ghost predicate Valid()
      reads this, graph, audit, tools
    {
      Linked() && ToolsIndexed(tools.generations, Offers(graph.edges))
    }

    constructor (scheme: Scheme, key: RootKey)
      requires KeyPair(scheme, key)
      ensures Valid() && View() == Genesis(scheme, key)
      ensures fresh(graph) && fresh(audit) && fresh(tools) && this.scheme == scheme && this.key == key
    {
      hide Indexed, ToolsIndexed, Offers, Verify, ChainVerifies, Numbered, KeyPair, NextGrant;
      this.scheme, this.key, graphSeen := scheme, key, {};
      audit := new AuditLog(scheme, key);
      graph := new CapabilityGraph(scheme);
      tools := new ToolRegistry();
      new;
      AddNode(CapabilityNode(SCHEMA));
      AddNode(Node(KERNEL, Principal, Some(ATOMIC), None));
      AddNode(Node(EVERYONE, Principal, None, None));
      AddNode(Node(STATE_ARBITRATOR, Principal, Some(ATOMIC), Some(false)));
      AddNode(CapabilityNode(CAP_SELF_DESCRIBE));
      RecordAndGrant(KERNEL, KERNEL, CAP_SELF_DESCRIBE, Hold);
      RecordAndGrant(KERNEL, SCHEMA, CAP_SELF_DESCRIBE, Hold);
      GenesisOk(scheme, key);
    }

    method AddNode(n: Node)
      requires Linked()
      modifies graph
      ensures Linked() && View() == WithNode(old(View()), n)
    {
      graph.UpsertNode(n);
    }

    /** The record is made first and the edge is never refused. */
    method RecordAndGrant(from: Id, to: Id, capability: Id, kind: EdgeKind)
      requires Linked() && from in graph.nodes && to in graph.nodes && capability in graph.nodes
      modifies graph, audit
      ensures Linked() && View() == GrantStep(scheme, key, old(View()), from, to, capability, kind)
    {
      hide Indexed, ChainOk, Offers, Verify, ChainVerifies, Numbered, KeyPair, NextGrant, AddEdge;
      GrantStepOk(scheme, key, View(), from, to, capability, kind);
      var g := audit.Record(from, to, capability);
      var ok := graph.Grant(from, to, capability, g, kind);
      assert ok;
    }

    /** One entry's offers and holds, once per id. */
    method RegisterGraph(id: Id, grant: Grant, profile: Profile)
      requires Valid()
      modifies this`graphSeen, graph, audit, tools
      ensures Valid() && View() == Registered(scheme, key, old(View()), id, grant, profile)
    {
      hide Indexed, ToolsIndexed, ChainOk, Offers, Verify, ChainVerifies, Numbered, KeyPair, GrantStep, OfferOp, HoldCap;
      RegisterOk(scheme, key, View(), id, grant, profile);
      if id in graphSeen {
        return;
      }
      graphSeen := graphSeen + {id};
      AddNode(PrincipalNode(id, profile));
      RegisterOffers(id, grant.contracts);
      RegisterHolds(id, grant.capabilities);
    }

    method RegisterOffers(id: Id, contracts: seq<Id>)
      requires Valid() && id in graph.nodes
      modifies graph, audit, tools
      ensures Valid() && id in graph.nodes && View() == OfferAll(scheme, key, old(View()), id, contracts)
    {
      hide Indexed, ToolsIndexed, ChainOk, Offers, Verify, ChainVerifies, Numbered, KeyPair, OfferOp;
      assert contracts[..|contracts|] == contracts;
      for i := 0 to |contracts|
        invariant Valid() && id in graph.nodes
        invariant View() == OfferAll(scheme, key, old(View()), id, contracts[..i])
      {
        RegisterOffer(id, contracts[i]);
        assert contracts[..i + 1][..i] == contracts[..i];
      }
    }

    method RegisterOffer(id: Id, op: Id)
      requires Valid() && id in graph.nodes
      modifies graph, audit, tools
      ensures Valid() && id in graph.nodes && View() == OfferOp(scheme, key, old(View()), id, op)
    {
      hide Indexed, ToolsIndexed, ChainOk, Offers, Verify, ChainVerifies, Numbered, KeyPair, GrantStep, Published, LastIndexOf;
      OfferOpOk(scheme, key, View(), id, op);
      AddNode(CapabilityNode(op));
      RecordAndGrant(id, id, op, Offer);
      var at := LastIndexOf(op, AT);
      tools.Publish(if at > 0 then op[..at] else op, if at > 0 then op[at + 1..] else ONE, id);
    }

    method RegisterHolds(id: Id, capabilities: seq<Id>)
      requires Valid() && id in graph.nodes
      modifies graph, audit
      ensures Valid() && id in graph.nodes && View() == HoldAll(scheme, key, old(View()), id, capabilities)
    {
      hide Indexed, ToolsIndexed, ChainOk, Offers, Verify, ChainVerifies, Numbered, KeyPair, HoldCap;
      assert capabilities[..|capabilities|] == capabilities;
      for i := 0 to |capabilities|
        invariant Valid() && id in graph.nodes
        invariant View() == HoldAll(scheme, key, old(View()), id, capabilities[..i])
      {
        RegisterHold(id, capabilities[i]);
        assert capabilities[..i + 1][..i] == capabilities[..i];
      }
    }

    method RegisterHold(id: Id, cap: Id)
      requires Valid() && id in graph.nodes
      modifies graph, audit
      ensures Valid() && id in graph.nodes && View() == HoldCap(scheme, key, old(View()), id, cap)
    {
      hide Indexed, ToolsIndexed, ChainOk, Offers, Verify, ChainVerifies, Numbered, KeyPair, GrantStep;
      HoldCapOk(scheme, key, View(), id, cap);
      var held := if PORT_PREFIX <= cap then cap[|PORT_PREFIX|..] else cap;
      if held !in graph.nodes {
        AddNode(CapabilityNode(held));
      }
      RecordAndGrant(id, id, held, Hold);
    }
  }
}

/** The capability graph: nodes, grant edges in order of grant, and three indexes over the edges. */
module CapabilityGraph {
  import opened Wrappers
  import opened Ordered
  import opened JsonText
  import opened Signing
  import opened Logs = AuditLog

  type Id = Text

  datatype NodeKind = Principal | Capability

  datatype Node = Node(id: Id, kind: NodeKind, granularity: Option<Text>, extractionCandidate: Option<bool>)

  datatype EdgeKind = Offer | Hold

  datatype Edge = Edge(to: Id, capability: Id, kind: EdgeKind, grant: SignedGrant)

  datatype Graph = Graph(nodes: map<Id, Node>, offerors: map<Id, seq<Id>>, holders: map<Id, seq<Id>>,
                         outgoing: map<Id, seq<Id>>, edges: seq<Edge>)

  const EMPTY_GRAPH := Graph(map[], map[], map[], map[], [])

  function Ids(index: map<Id, seq<Id>>, x: Id): seq<Id> {
    if x in index then index[x] else []
  }

  // ---- what the indexes stand for ----

  /** Who the edges of one kind grant a capability to, in order of first grant. */
  function Targets(edges: seq<Edge>, capability: Id, kind: EdgeKind): seq<Id> {
    if edges == [] then []
    else
      var init, e := edges[..|edges| - 1], edges[|edges| - 1];
      if e.capability == capability && e.kind == kind then Including(Targets(init, capability, kind), e.to)
      else Targets(init, capability, kind)
  }

  lemma {:induction false} TargetsAre(edges: seq<Edge>, capability: Id, kind: EdgeKind)
    ensures NoRepeats(Targets(edges, capability, kind))
    ensures forall x :: x in Targets(edges, capability, kind)
                        <==> exists i | 0 <= i < |edges| :: edges[i].capability == capability && edges[i].kind == kind && edges[i].to == x
  {
    if edges != [] {
      var init := edges[..|edges| - 1];
      TargetsAre(init, capability, kind);
      assert forall i | 0 <= i < |edges| - 1 :: edges[i] == init[i];
    }
  }

  /** The capabilities granted to a node, in order of first grant. */
  function Granted(edges: seq<Edge>, to: Id): seq<Id> {
    if edges == [] then []
    else
      var init, e := edges[..|edges| - 1], edges[|edges| - 1];
      if e.to == to then Including(Granted(init, to), e.capability) else Granted(init, to)
  }

  lemma {:induction false} GrantedAre(edges: seq<Edge>, to: Id)
    ensures NoRepeats(Granted(edges, to))
    ensures forall x :: x in Granted(edges, to) <==> exists i | 0 <= i < |edges| :: edges[i].to == to && edges[i].capability == x
  {
    if edges != [] {
      var init := edges[..|edges| - 1];
      GrantedAre(init, to);
      assert forall i | 0 <= i < |edges| - 1 :: edges[i] == init[i];
    }
  }

  predicate EdgesInside(nodes: set<Id>, edges: seq<Edge>) {
    forall i | 0 <= i < |edges| :: edges[i].to in nodes && edges[i].capability in nodes
  }

  ghost predicate KindIndexed(nodes: set<Id>, index: map<Id, seq<Id>>, edges: seq<Edge>, kind: EdgeKind) {
    index.Keys == nodes && forall x | x in nodes :: index[x] == Targets(edges, x, kind)
  }

  ghost predicate OutgoingIndexed(nodes: set<Id>, index: map<Id, seq<Id>>, edges: seq<Edge>) {
    index.Keys == nodes && forall x | x in nodes :: index[x] == Granted(edges, x)
  }

  /** Every index is exactly what the edge list says. */
  ghost predicate Indexed(g: Graph) {
    && EdgesInside(g.nodes.Keys, g.edges)
    && KindIndexed(g.nodes.Keys, g.offerors, g.edges, Offer)
    && KindIndexed(g.nodes.Keys, g.holders, g.edges, Hold)
    && OutgoingIndexed(g.nodes.Keys, g.outgoing, g.edges)
  }

  // ---- operations ----

  function Upserted(g: Graph, n: Node): Graph {
    g.(nodes := g.nodes[n.id := n],
       offerors := if n.id in g.offerors then g.offerors else g.offerors[n.id := []],
       holders := if n.id in g.holders then g.holders else g.holders[n.id := []],
       outgoing := if n.id in g.outgoing then g.outgoing else g.outgoing[n.id := []])
  }

  function AddEdge(g: Graph, e: Edge): Graph {
    g.(edges := g.edges + [e],
       offerors := if e.kind == Offer then g.offerors[e.capability := Including(Ids(g.offerors, e.capability), e.to)] else g.offerors,
       holders := if e.kind == Hold then g.holders[e.capability := Including(Ids(g.holders, e.capability), e.to)] else g.holders,
       outgoing := g.outgoing[e.to := Including(Ids(g.outgoing, e.to), e.capability)])
  }

  lemma KindSnoc(nodes: set<Id>, index: map<Id, seq<Id>>, edges: seq<Edge>, kind: EdgeKind, e: Edge)
    requires KindIndexed(nodes, index, edges, kind) && e.capability in nodes
    ensures KindIndexed(nodes, if e.kind == kind then index[e.capability := Including(Ids(index, e.capability), e.to)] else index,
                        edges + [e], kind)
  {
  }

  lemma OutgoingSnoc(nodes: set<Id>, index: map<Id, seq<Id>>, edges: seq<Edge>, e: Edge)
    requires OutgoingIndexed(nodes, index, edges) && e.to in nodes
    ensures OutgoingIndexed(nodes, index[e.to := Including(Ids(index, e.to), e.capability)], edges + [e])
  {
  }

  lemma AddEdgeIndexed(g: Graph, e: Edge)
    requires Indexed(g) && e.to in g.nodes && e.capability in g.nodes
    ensures Indexed(AddEdge(g, e))
  {
    hide KindIndexed, OutgoingIndexed, EdgesInside, Including;
    KindSnoc(g.nodes.Keys, g.offerors, g.edges, Offer, e);
    KindSnoc(g.nodes.Keys, g.holders, g.edges, Hold, e);
    OutgoingSnoc(g.nodes.Keys, g.outgoing, g.edges, e);
    InsideSnoc(g.nodes.Keys, g.edges, e);
  }

  lemma InsideSnoc(nodes: set<Id>, edges: seq<Edge>, e: Edge)
    requires EdgesInside(nodes, edges) && e.to in nodes && e.capability in nodes
    ensures EdgesInside(nodes, edges + [e])
  {
  }

  /** A node is added or replaced; the others and the edges stay. */
  lemma UpsertReplaces(g: Graph, n: Node)
    ensures Upserted(g, n).edges == g.edges && Upserted(g, n).nodes.Keys == g.nodes.Keys + {n.id}
    ensures Upserted(g, n).nodes[n.id] == n && forall x | x in g.nodes && x != n.id :: Upserted(g, n).nodes[x] == g.nodes[x]
  {
  }

  /** A node that was not there has no edge, so its fresh index entries are right. */
  lemma UpsertIndexed(g: Graph, n: Node)
    requires Indexed(g)
    ensures Indexed(Upserted(g, n))
  {
    if n.id !in g.nodes {
      NoEdgeNoIds(g.edges, g.nodes.Keys, n.id);
    }
  }

  lemma NoEdgeNoIds(edges: seq<Edge>, nodes: set<Id>, x: Id)
    requires EdgesInside(nodes, edges) && x !in nodes
    ensures Targets(edges, x, Offer) == [] && Targets(edges, x, Hold) == [] && Granted(edges, x) == []
  {
  }

  // ---- components ----

  /** One grant edge joins the two nodes, in either direction. */
  ghost predicate Joined(edges: seq<Edge>, a: Id, b: Id) {
    exists i | 0 <= i < |edges| :: (edges[i].to == a && edges[i].capability == b) || (edges[i].to == b && edges[i].capability == a)
  }

  function Neighbours(g: Graph, x: Id): seq<Id> {
    Ids(g.outgoing, x) + Ids(g.offerors, x) + Ids(g.holders, x)
  }

  /** The three index lookups of the search are the two directions of the edge relation. */
  lemma NeighboursAreJoined(g: Graph, x: Id, y: Id)
    requires Indexed(g)
    ensures y in Neighbours(g, x) <==> x in g.nodes && Joined(g.edges, x, y)
  {
    TargetsAre(g.edges, x, Offer);
    TargetsAre(g.edges, x, Hold);
    GrantedAre(g.edges, x);
    hide Targets, Granted;
  }

  ghost predicate IsPath(edges: seq<Edge>, p: seq<Id>) {
    p != [] && forall i | 0 <= i < |p| - 1 :: Joined(edges, p[i], p[i + 1])
  }

  ghost predicate Connected(edges: seq<Edge>, a: Id, b: Id) {
    exists p :: IsPath(edges, p) && p[0] == a && p[|p| - 1] == b
  }

  /** The nodes grant edges lead to from `x`, in either direction, `x` included. */
  ghost function Component(g: Graph, x: Id): set<Id> {
    set y | y in g.nodes && Connected(g.edges, x, y)
  }

  lemma ConnectedSelf(edges: seq<Edge>, a: Id)
    ensures Connected(edges, a, a)
  {
    assert IsPath(edges, [a]);
  }

  lemma ConnectedStep(edges: seq<Edge>, a: Id, b: Id, c: Id)
    requires Connected(edges, a, b) && Joined(edges, b, c)
    ensures Connected(edges, a, c)
  {
    var p :| IsPath(edges, p) && p[0] == a && p[|p| - 1] == b;
    hide Joined;
    assert IsPath(edges, p + [c]);
  }

  lemma PathTail(edges: seq<Edge>, p: seq<Id>)
    requires IsPath(edges, p) && |p| > 1
    ensures IsPath(edges, p[1..])
  {
  }

  lemma {:induction false} ConnectedTransitive(edges: seq<Edge>, a: Id, b: Id, p: seq<Id>)
    requires Connected(edges, a, b) && IsPath(edges, p) && p[0] == b
    ensures Connected(edges, a, p[|p| - 1])
    decreases |p|
  {
    if |p| > 1 {
      hide Joined;
      ConnectedStep(edges, a, b, p[1]);
      hide Connected;
      PathTail(edges, p);
      ConnectedTransitive(edges, a, p[1], p[1..]);
    }
  }

  lemma {:induction false} PathBack(edges: seq<Edge>, p: seq<Id>)
    requires IsPath(edges, p)
    ensures Connected(edges, p[|p| - 1], p[0])
    decreases |p|
  {
    var n := |p| - 1;
    if n == 0 {
      ConnectedSelf(edges, p[0]);
    } else {
      assert Joined(edges, p[n], p[n - 1]) by { assert Joined(edges, p[n - 1], p[n]); }
      hide Joined;
      ConnectedSelf(edges, p[n]);
      ConnectedStep(edges, p[n], p[n], p[n - 1]);
      assert IsPath(edges, p[..n]);
      PathBack(edges, p[..n]);
      var q :| IsPath(edges, q) && q[0] == p[n - 1] && q[|q| - 1] == p[0];
      hide Connected;
      ConnectedTransitive(edges, p[n], p[n - 1], q);
    }
  }

  /** Two connected nodes have the same component: connection is symmetric and transitive. */
  lemma SameComponent(g: Graph, a: Id, b: Id)
    requires Connected(g.edges, a, b)
    ensures Component(g, a) == Component(g, b)
  {
    var p :| IsPath(g.edges, p) && p[0] == a && p[|p| - 1] == b;
    PathBack(g.edges, p);
    forall y ensures Connected(g.edges, a, y) <==> Connected(g.edges, b, y) {
      if Connected(g.edges, b, y) {
        var q :| IsPath(g.edges, q) && q[0] == b && q[|q| - 1] == y;
        ConnectedTransitive(g.edges, a, b, q);
      }
      if Connected(g.edges, a, y) {
        var q :| IsPath(g.edges, q) && q[0] == a && q[|q| - 1] == y;
        ConnectedTransitive(g.edges, b, a, q);
      }
    }
  }

  /** How many other nodes are in the component of `id`; an unknown node has none. */
  ghost function Radius(g: Graph, id: Id): nat {
    if id in g.nodes then |Component(g, id) - {id}| else 0
  }

  /** Nodes of one component have the same radius: the size of the component less one. */
  lemma SameRadius(g: Graph, a: Id, b: Id)
    requires a in g.nodes && b in g.nodes && Connected(g.edges, a, b)
    ensures Radius(g, a) == Radius(g, b) == |Component(g, a)| - 1
  {
    SameComponent(g, a, b);
    ConnectedSelf(g.edges, a);
    ConnectedSelf(g.edges, b);
    assert a in Component(g, a) && b in Component(g, b);
  }

  /** A set that keeps every neighbour of its members keeps everything a path from inside reaches. */
  lemma {:induction false} ClosedKeepsPaths(g: Graph, seen: set<Id>, p: seq<Id>)
    requires Indexed(g) && IsPath(g.edges, p) && p[0] in seen && seen <= g.nodes.Keys
    requires forall x, y | x in seen && y in Neighbours(g, x) :: y in seen
    ensures p[|p| - 1] in seen
    decreases |p|
  {
    if |p| > 1 {
      assert Joined(g.edges, p[0], p[1]);
      NeighboursAreJoined(g, p[0], p[1]);
      hide Joined, Indexed, Neighbours;
      PathTail(g.edges, p);
      ClosedKeepsPaths(g, seen, p[1..]);
    }
  }

  lemma ClosedIsComponent(g: Graph, id: Id, seen: set<Id>)
    requires Indexed(g) && id in seen && seen <= Component(g, id)
    requires forall x, y | x in seen && y in Neighbours(g, x) :: y in seen
    ensures seen == Component(g, id)
  {
    forall y | y in Component(g, id) ensures y in seen {
      var p :| IsPath(g.edges, p) && p[0] == id && p[|p| - 1] == y;
      ClosedKeepsPaths(g, seen, p);
    }
  }

  lemma NeighboursStayInside(g: Graph, id: Id, x: Id)
    requires Indexed(g) && x in Component(g, id)
    ensures forall y | y in Neighbours(g, x) :: y in Component(g, id)
  {
    forall y | y in Neighbours(g, x) ensures y in Component(g, id) {
      NeighboursAreJoined(g, x, y);
      assert y in g.nodes by {
        hide Connected;
        var i :| 0 <= i < |g.edges| && ((g.edges[i].to == x && g.edges[i].capability == y) || (g.edges[i].to == y && g.edges[i].capability == x));
      }
      ConnectedStep(g.edges, id, x, y);
    }
  }

  lemma IndexesHaveNodes(g: Graph)
    requires Indexed(g)
    ensures g.offerors.Keys == g.nodes.Keys && g.holders.Keys == g.nodes.Keys && g.outgoing.Keys == g.nodes.Keys
  {
  }

  // ---- breadth-first search ----

  /** What is seen is reachable, and every neighbour of it is seen or still queued. */
  ghost predicate Searching(g: Graph, component: set<Id>, id: Id, seen: set<Id>, queue: seq<Id>) {
    && id in seen && seen <= component
    && (forall x | x in queue :: x in component)
    && (forall x, y | x in seen && y in Neighbours(g, x) :: y in seen || y in queue)
  }

  lemma SearchStarts(g: Graph, id: Id)
    requires Indexed(g) && id in g.nodes
    ensures Searching(g, Component(g, id), id, {id}, Neighbours(g, id))
  {
    ConnectedSelf(g.edges, id);
    NeighboursStayInside(g, id, id);
  }

  lemma SearchSkips(g: Graph, component: set<Id>, id: Id, seen: set<Id>, queue: seq<Id>)
    requires queue != [] && queue[0] in seen && Searching(g, component, id, seen, queue)
    ensures Searching(g, component, id, seen, queue[1..])
  {
  }

  lemma SearchVisits(g: Graph, component: set<Id>, id: Id, seen: set<Id>, queue: seq<Id>)
    requires Indexed(g) && component == Component(g, id)
    requires queue != [] && queue[0] !in seen && Searching(g, component, id, seen, queue)
    ensures Searching(g, component, id, seen + {queue[0]}, queue[1..] + Neighbours(g, queue[0]))
    ensures |component - (seen + {queue[0]})| < |component - seen|
  {
    hide Neighbours, Indexed, Component;
    NeighboursStayInside(g, id, queue[0]);
    assert queue == [queue[0]] + queue[1..];
    VisitShrinks(component, seen, queue[0]);
  }

  lemma VisitShrinks(component: set<Id>, seen: set<Id>, x: Id)
    requires x in component && x !in seen
    ensures |component - (seen + {x})| < |component - seen|
  {
    assert component - seen == (component - (seen + {x})) + {x};
  }

  lemma SearchEnds(g: Graph, id: Id, seen: set<Id>)
    requires Indexed(g) && Searching(g, Component(g, id), id, seen, [])
    ensures seen == Component(g, id)
  {
    hide Neighbours;
    ClosedIsComponent(g, id, seen);
  }

  // ---- the graph object ----

  class CapabilityGraph {
    const scheme: Scheme
    var nodes: map<Id, Node>
    var offerors: map<Id, seq<Id>>
    var holders: map<Id, seq<Id>>
    var outgoing: map<Id, seq<Id>>
    var edges: seq<Edge>

    ghost function View(): Graph
      reads this
    {
      Graph(nodes, offerors, holders, outgoing, edges)
    }

    /** The indexes match the edge list and every edge carries a grant that verifies. */
    ghost predicate Valid()
      reads this
    {
      Indexed(View()) && forall i | 0 <= i < |edges| :: Verify(scheme, edges[i].grant)
    }

    constructor (scheme: Scheme)
      ensures Valid() && View() == EMPTY_GRAPH && this.scheme == scheme
    {
      this.scheme := scheme;
      nodes, offerors, holders, outgoing, edges := map[], map[], map[], map[], [];
    }

    method UpsertNode(n: Node)
      requires Valid()
      modifies this
      ensures Valid() && View() == Upserted(old(View()), n)
    {
      UpsertIndexed(View(), n);
      nodes := nodes[n.id := n];
      if n.id !in offerors {
        offerors := offerors[n.id := []];
      }
      if n.id !in holders {
        holders := holders[n.id := []];
      }
      if n.id !in outgoing {
        outgoing := outgoing[n.id := []];
      }
    }

    /** Refuses (throws) on an unknown node or a grant that does not verify, and then changes nothing. */
    method Grant(from: Id, to: Id, capability: Id, g: SignedGrant, kind: EdgeKind) returns (ok: bool)
      requires Valid()
      modifies this
      ensures Valid()
      ensures ok <==> from in old(nodes) && to in old(nodes) && capability in old(nodes) && Verify(scheme, g)
      ensures View() == if ok then AddEdge(old(View()), Edge(to, capability, kind, g)) else old(View())
    {
      hide Verify, Indexed, Including;
      if from !in nodes || to !in nodes || capability !in nodes || !Verify(scheme, g) {
        return false;
      }
      AddEdgeIndexed(View(), Edge(to, capability, kind, g));
      IndexesHaveNodes(View());
      edges := edges + [Edge(to, capability, kind, g)];
      if kind == Offer {
        offerors := offerors[capability := Including(offerors[capability], to)];
      } else {
        holders := holders[capability := Including(holders[capability], to)];
      }
      outgoing := outgoing[to := Including(outgoing[to], capability)];
      ok := true;
    }

    /** The distinct offering edge targets, in order of first grant. */
    method WhoOffers(capability: Id) returns (r: seq<Id>)
      requires Valid()
      ensures r == Targets(edges, capability, Offer)
    {
      if capability !in nodes {
        NoEdgeNoIds(edges, nodes.Keys, capability);
      }
      r := if capability in offerors then offerors[capability] else [];
    }

    method FanIn(id: Id) returns (n: nat)
      requires Valid()
      ensures n == |Targets(edges, id, Offer)| + |Targets(edges, id, Hold)|
    {
      if id !in nodes {
        NoEdgeNoIds(edges, nodes.Keys, id);
      }
      n := (if id in offerors then |offerors[id]| else 0) + (if id in holders then |holders[id]| else 0);
    }

    method NeighboursOf(x: Id) returns (r: seq<Id>)
      ensures r == Neighbours(View(), x)
    {
      r := (if x in outgoing then outgoing[x] else [])
           + (if x in offerors then offerors[x] else [])
           + (if x in holders then holders[x] else []);
    }

    /** How many other nodes are in the component of `id`. */
    method BlastRadius(id: Id) returns (r: nat)
      requires Valid()
      ensures r == Radius(View(), id)
    {
      hide Verify, Searching, Indexed, Neighbours, Component;
      if id !in nodes {
        return 0;
      }
      ghost var g, component := View(), Component(View(), id);
      var seen := {id};
      var queue := NeighboursOf(id);
      SearchStarts(g, id);
      while queue != []
        invariant Searching(g, component, id, seen, queue)
        invariant component == Component(g, id)
        decreases |component - seen|, |queue|
      {
        var next := queue[0];
        if next in seen {
          SearchSkips(g, component, id, seen, queue);
          queue := queue[1..];
        } else {
          var more := NeighboursOf(next);
          SearchVisits(g, component, id, seen, queue);
          queue := queue[1..];
          seen := seen + {next};
          queue := queue + more;
        }
      }
      SearchEnds(g, id, seen);
      seen := seen - {id};
      r := |seen|;
    }
  }
}

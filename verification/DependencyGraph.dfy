/** Finite dependency graphs: walks, cycles and topological orders, shared by both cycle
    detectors and by the depth guard. */
module DependencyGraph {

  type Id = string

  /** Adjacency lists. A target need not be a key (an unknown dependency). */
  type Graph = map<Id, seq<Id>>

  ghost predicate Edge(g: Graph, a: Id, b: Id) {
    a in g && b in g[a]
  }

  ghost predicate IsWalk(g: Graph, p: seq<Id>) {
    |p| > 0 && forall i | 0 <= i < |p| - 1 :: Edge(g, p[i], p[i + 1])
  }

  ghost predicate IsCycle(g: Graph, p: seq<Id>) {
    |p| >= 2 && IsWalk(g, p) && p[0] == p[|p| - 1]
  }

  ghost predicate Cyclic(g: Graph) {
    exists p :: IsCycle(g, p)
  }

  predicate Distinct<T(==)>(s: seq<T>) {
    forall i, j | 0 <= i < j < |s| :: s[i] != s[j]
  }

  /** The dependencies that name known nodes, with their multiplicity. */
  function KeepKnown(deps: seq<Id>, known: set<Id>): (kept: seq<Id>)
    ensures forall d :: d in kept <==> d in deps && d in known
  {
    if deps == [] then []
    else if deps[0] in known then [deps[0]] + KeepKnown(deps[1..], known)
    else KeepKnown(deps[1..], known)
  }

  /** Known dependencies keep their order and multiplicity. */
  lemma {:induction false} KeptInOrder(before: seq<Id>, d: Id, after: seq<Id>, known: set<Id>)
    ensures KeepKnown(before + [d] + after, known)
            == KeepKnown(before, known) + (if d in known then [d] else []) + KeepKnown(after, known)
    ensures KeepKnown([], known) == []
    decreases |before|
  {
    if before == [] {
      assert [] + [d] + after == [d] + after;
      assert ([d] + after)[1..] == after;
    } else {
      assert (before + [d] + after)[1..] == before[1..] + [d] + after;
      KeptInOrder(before[1..], d, after, known);
    }
  }

  /** Every dependency of a listed node that is itself a node is listed earlier. */
  ghost predicate Ordered(g: Graph, order: seq<Id>) {
    forall i | 0 <= i < |order| ::
      order[i] in g && forall d | d in g[order[i]] && d in g :: d in order[..i]
  }

  /** `order` lists every node once, dependencies first. */
  ghost predicate Topological(g: Graph, order: seq<Id>) {
    Distinct(order) && (forall k | k in g :: k in order) && Ordered(g, order)
  }

  ghost function IndexOf(s: seq<Id>, x: Id): (i: nat)
    requires x in s
    ensures i < |s| && s[i] == x
  {
    var i :| 0 <= i < |s| && s[i] == x; i
  }

  lemma EdgeDescends(g: Graph, order: seq<Id>, a: Id, b: Id)
    requires Topological(g, order) && a in g && b in g && Edge(g, a, b)
    ensures a in order && b in order && IndexOf(order, b) < IndexOf(order, a)
  {
  }

  /** Along a walk that stays on nodes, positions in a topological order go down. */
  lemma {:induction false} WalkDescends(g: Graph, order: seq<Id>, p: seq<Id>)
    requires Topological(g, order) && IsWalk(g, p) && |p| >= 2
    requires forall x | x in p :: x in g
    ensures IndexOf(order, p[|p| - 1]) < IndexOf(order, p[0])
  {
    hide Topological, IndexOf;
    var n := |p|;
    assert Edge(g, p[n - 2], p[n - 2 + 1]);
    assert p[n - 2] in p && p[n - 1] in p;
    EdgeDescends(g, order, p[n - 2], p[n - 1]);
    if n > 2 {
      var q := p[..n - 1];
      assert forall k | 0 <= k < |q| - 1 :: Edge(g, p[k], p[k + 1]);
      WalkDescends(g, order, q);
    }
  }

  /** A graph with a topological order has no cycle. */
  lemma TopologicalMeansAcyclic(g: Graph, order: seq<Id>)
    requires Topological(g, order)
    ensures !Cyclic(g)
  {
    forall p ensures !IsCycle(g, p) {
      if IsCycle(g, p) {
        forall x | x in p ensures x in g {
          var i :| 0 <= i < |p| && p[i] == x;
          if i == |p| - 1 {
            assert Edge(g, p[0], p[0 + 1]);
          } else {
            assert Edge(g, p[i], p[i + 1]);
          }
        }
        WalkDescends(g, order, p);
      }
    }
  }

  lemma {:induction false} DistinctFits(s: seq<Id>, nodes: set<Id>)
    requires Distinct(s) && forall x | x in s :: x in nodes
    ensures |s| <= |nodes|
  {
    if s != [] {
      var n := |s| - 1;
      assert forall x | x in s[..n] :: x != s[n];
      DistinctFits(s[..n], nodes - {s[n]});
    }
  }

  /** A walk that repeats its last node contains a cycle. */
  lemma WalkRepeats(g: Graph, p: seq<Id>, i: nat)
    requires IsWalk(g, p) && i < |p| - 1 && p[i] == p[|p| - 1]
    ensures IsCycle(g, p[i..])
  {
  }

  ghost predicate HasExit(g: Graph, stuck: set<Id>, x: Id) {
    exists y :: y in stuck && Edge(g, x, y)
  }

  /** A non-empty set of nodes each of which depends on a member of the set holds a cycle:
      follow dependencies inside the set until one repeats. */
  lemma {:induction false} StuckWalk(g: Graph, stuck: set<Id>, p: seq<Id>)
    requires forall x | x in stuck :: HasExit(g, stuck, x)
    requires IsWalk(g, p) && Distinct(p) && forall x | x in p :: x in stuck
    ensures Cyclic(g)
    decreases |stuck| - |p|
  {
    var last := p[|p| - 1];
    assert last in p && HasExit(g, stuck, last);
    var y :| y in stuck && Edge(g, last, y);
    WalkOn(g, p, y);
    hide Edge, IsWalk, Cyclic, HasExit;
    if y in p {
      RepeatIsCycle(g, p, y);
    } else {
      assert Distinct(p + [y]);
      hide Distinct;
      DistinctFits(p + [y], stuck);
      StuckWalk(g, stuck, p + [y]);
    }
  }

  lemma RepeatIsCycle(g: Graph, p: seq<Id>, y: Id)
    requires IsWalk(g, p + [y]) && y in p
    ensures Cyclic(g)
  {
    hide IsWalk;
    var i :| 0 <= i < |p| && p[i] == y;
    WalkRepeats(g, p + [y], i);
  }

  lemma WalkOn(g: Graph, p: seq<Id>, y: Id)
    requires IsWalk(g, p) && Edge(g, p[|p| - 1], y)
    ensures IsWalk(g, p + [y])
  {
    hide Edge;
    var q := p + [y];
    forall k | 0 <= k < |q| - 1 ensures Edge(g, q[k], q[k + 1]) {
      if k < |p| - 1 {
        assert Edge(g, p[k], p[k + 1]);
      }
    }
  }

  lemma StuckSetHasCycle(g: Graph, stuck: set<Id>)
    requires stuck != {} && forall x | x in stuck :: HasExit(g, stuck, x)
    ensures Cyclic(g)
  {
    var x :| x in stuck;
    StuckWalk(g, stuck, [x]);
  }

  /** A node whose known dependencies are all listed may be listed next. */
  lemma OrderedSnoc(g: Graph, order: seq<Id>, x: Id)
    requires Ordered(g, order) && x in g && forall d | d in g[x] && d in g :: d in order
    ensures Ordered(g, order + [x])
  {
    var next := order + [x];
    forall i | 0 <= i < |next|
      ensures next[i] in g && forall d | d in g[next[i]] && d in g :: d in next[..i]
    {
      if i < |order| {
        assert next[..i] == order[..i] && next[i] == order[i];
      } else {
        assert next[..i] == order;
      }
    }
  }

  /** Extend a partial order of an acyclic graph to a full topological order. */
  lemma {:induction false} CompleteOrder(g: Graph, done: seq<Id>) returns (order: seq<Id>)
    requires !Cyclic(g) && Distinct(done) && Ordered(g, done)
    ensures Topological(g, order)
    decreases |g.Keys - (set x | x in done)|
  {
    hide Ordered, Cyclic;
    var left := g.Keys - (set x | x in done);
    if left == {} {
      forall k | k in g ensures k in done {
        assert k !in left;
      }
      return done;
    }
    hide Topological;
    var x := NextNode(g, done, left);
    OrderedSnoc(g, done, x);
    assert g.Keys - (set y | y in done + [x]) == left - {x};
    order := CompleteOrder(g, done + [x]);
  }

  /** Some unlisted node has only listed dependencies: otherwise the unlisted ones hold a cycle. */
  lemma NextNode(g: Graph, done: seq<Id>, left: set<Id>) returns (x: Id)
    requires !Cyclic(g) && left == g.Keys - (set x | x in done) && left != {}
    ensures x in left && forall d | d in g[x] && d in g :: d in done
  {
    if forall x | x in left :: HasExit(g, left, x) {
      StuckSetHasCycle(g, left);
    }
    x :| x in left && !HasExit(g, left, x);
    forall d | d in g[x] && d in g ensures d in done {
      assert Edge(g, x, d);
    }
  }

  /** Some walk from `x` comes back to a node it passed. */
  ghost predicate ReachesCycle(g: Graph, x: Id) {
    exists p :: IsWalk(g, p) && p[0] == x && !Distinct(p)
  }

  /** A walk from a listed node stays among the nodes listed before it, and so passes none twice. */
  lemma {:induction false} OrderedWalk(g: Graph, order: seq<Id>, n: nat, p: seq<Id>)
    requires Distinct(order) && Ordered(g, order) && n < |order|
    requires forall k, d | k in g && d in g[k] :: d in g
    requires IsWalk(g, p) && p[0] == order[n]
    ensures Distinct(p) && forall i | 0 < i < |p| :: p[i] in order[..n]
    decreases |p|
  {
    if |p| > 1 {
      assert Edge(g, p[0], p[0 + 1]);
      var m :| 0 <= m < n && order[m] == p[1];
      WalkTail(g, p);
      hide IsWalk, Ordered, Edge;
      OrderedWalk(g, order, m, p[1..]);
      forall i | 0 < i < |p| ensures p[i] in order[..n] {
        assert p[i] == p[1..][i - 1];
        assert i > 1 ==> p[1..][i - 1] in order[..m];
      }
    }
  }

  lemma WalkTail(g: Graph, p: seq<Id>)
    requires IsWalk(g, p) && |p| > 1
    ensures IsWalk(g, p[1..])
  {
    forall i | 0 <= i < |p| - 2 ensures Edge(g, p[1..][i], p[1..][i + 1]) {
      assert Edge(g, p[i + 1], p[i + 1 + 1]);
    }
  }

  lemma OrderedReachesNone(g: Graph, order: seq<Id>, x: Id)
    requires Distinct(order) && Ordered(g, order) && x in order
    requires forall k, d | k in g && d in g[k] :: d in g
    ensures !ReachesCycle(g, x)
  {
    var n :| 0 <= n < |order| && order[n] == x;
    forall p | IsWalk(g, p) && p[0] == x ensures Distinct(p) {
      OrderedWalk(g, order, n, p);
    }
  }

  /** A graph is acyclic exactly when it has a topological order. */
  lemma AcyclicIffOrdered(g: Graph)
    ensures !Cyclic(g) <==> exists order :: Topological(g, order)
  {
    if !Cyclic(g) {
      var order := CompleteOrder(g, []);
      assert Topological(g, order);
    } else {
      if order :| Topological(g, order) {
        TopologicalMeansAcyclic(g, order);
      }
    }
  }

}

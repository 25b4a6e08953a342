/** The layer registry check: unknown dependencies, and cycles by Kahn's algorithm. */
module LayerDag {
  import opened DependencyGraph
  import PlanCycle

  datatype LayerEntry = LayerEntry(id: Id, dependsOn: seq<Id>)

  datatype Issue =
    | UnknownDependency(layer: Id, dep: Id)
    | CycleInvolving(layers: seq<Id>)

  /** The registry parser has already refused repeated layer ids. */
  predicate UniqueIds(layers: seq<LayerEntry>) {
    forall i, j | 0 <= i < j < |layers| :: layers[i].id != layers[j].id
  }

  function LayerIds(layers: seq<LayerEntry>): set<Id> {
    set l | l in layers :: l.id
  }

  /** `g` gives each layer its known dependencies, with their multiplicity. */
  ghost predicate GraphOf(layers: seq<LayerEntry>, g: Graph) {
    && g.Keys == LayerIds(layers)
    && forall l | l in layers :: g[l.id] == KeepKnown(l.dependsOn, LayerIds(layers))
  }

  ghost predicate RepeatsDependency(g: Graph) {
    exists k :: k in g && !Distinct(g[k])
  }

  // ---- counting resolved dependencies ----

  ghost function Resolved(deps: seq<Id>, order: seq<Id>): set<Id> {
    set d | d in deps && d in order
  }

  lemma {:induction false} ResolvedCount(deps: seq<Id>, order: seq<Id>)
    ensures |Resolved(deps, order)| <= |deps|
    ensures |Resolved(deps, order)| == |deps| <==> Distinct(deps) && forall d | d in deps :: d in order
  {
    if deps == [] {
      assert Resolved(deps, order) == {};
    } else {
      var init, x := deps[..|deps| - 1], deps[|deps| - 1];
      assert deps == init + [x];
      ResolvedCount(init, order);
      LastResolved(init, x, order);
      DistinctLast(init, x);
      hide Resolved, Distinct;
    }
  }

  /** A last dependency adds one to the count when it is new and emitted. */
  lemma LastResolved(init: seq<Id>, x: Id, order: seq<Id>)
    ensures |Resolved(init + [x], order)| == |Resolved(init, order)| + if x in order && x !in init then 1 else 0
  {
    var r := Resolved(init, order);
    assert x in r <==> x in init && x in order;
    assert Resolved(init + [x], order) == if x in order then r + {x} else r;
  }

  lemma DistinctLast(init: seq<Id>, x: Id)
    ensures Distinct(init + [x]) <==> Distinct(init) && x !in init
  {
    var s := init + [x];
    assert forall i | 0 <= i < |init| :: s[i] == init[i];
    assert s[|init|] == x;
  }

  lemma ResolvedSnoc(deps: seq<Id>, order: seq<Id>, x: Id)
    requires x !in order
    ensures |Resolved(deps, order + [x])| == |Resolved(deps, order)| + if x in deps then 1 else 0
  {
    var r := Resolved(deps, order);
    assert Resolved(deps, order + [x]) == if x in deps then r + {x} else r;
  }

  /** Unresolved dependencies of `k`, repeated ones counted each time. */
  ghost function Missing(g: Graph, k: Id, order: seq<Id>): int
    requires k in g
  {
    |g[k]| - |Resolved(g[k], order)|
  }

  lemma MissingSnoc(g: Graph, k: Id, order: seq<Id>, x: Id)
    requires k in g && x !in order
    ensures Missing(g, k, order + [x]) == Missing(g, k, order) - if x in g[k] then 1 else 0
    ensures Missing(g, k, order + [x]) >= 0
  {
    ResolvedSnoc(g[k], order, x);
    ResolvedCount(g[k], order + [x]);
  }

  // ---- the loop invariant ----

  /** `order` is emitted and `queue` is ready. In-degrees count the missing dependencies; for the
      layers in `todo` the last emitted layer is not yet accounted for. */
  ghost predicate Progress(g: Graph, todo: set<Id>, emitted: seq<Id>, order: seq<Id>, queue: seq<Id>, indeg: map<Id, int>) {
    && indeg.Keys == g.Keys
    && Distinct(order) && Distinct(queue)
    && (forall x | x in order :: x in g && x !in queue)
    && (forall x | x in queue :: x in g)
    && (forall k | k in g :: indeg[k] == Missing(g, k, if k in todo then emitted else order))
    && (forall k | k in g :: k in order || k in queue <==> indeg[k] == 0)
  }

  ghost predicate Keyed(g: Graph, keys: seq<Id>) {
    Distinct(keys) && forall k :: k in keys <==> k in g
  }

  ghost function Rest(keys: seq<Id>, n: nat): set<Id>
    requires n <= |keys|
  {
    set j | n <= j < |keys| :: keys[j]
  }

  /** A node without missing dependencies has all its known ones emitted. */
  lemma HeadIsReady(g: Graph, order: seq<Id>, x: Id, indeg: map<Id, int>)
    requires x in g && x in indeg && indeg[x] == Missing(g, x, order) && indeg[x] == 0
    ensures forall d | d in g[x] && d in g :: d in order
  {
    ResolvedCount(g[x], order);
  }

  /** Emitting the head of the queue keeps a topological order. */
  lemma EmitHead(g: Graph, order: seq<Id>, queue: seq<Id>, indeg: map<Id, int>)
    requires queue != [] && Ordered(g, order)
    requires Progress(g, {}, order, order, queue, indeg)
    ensures Ordered(g, order + [queue[0]]) && queue[0] !in order
    ensures Progress(g, g.Keys, order, order + [queue[0]], queue[1..], indeg)
  {
    hide Ordered, Missing;
    var x := queue[0];
    assert x in queue;
    HeadIsReady(g, order, x, indeg);
    OrderedSnoc(g, order, x);
    assert queue == [x] + queue[1..];
    assert forall y :: y in queue <==> y == x || y in queue[1..];
    assert x !in queue[1..];
  }

  /** One step of the inner loop over layers. */
  lemma Decrement(g: Graph, todo: set<Id>, k: Id, emitted: seq<Id>, x: Id, queue: seq<Id>, indeg: map<Id, int>,
                  queue': seq<Id>, indeg': map<Id, int>)
    requires k in todo && k in g && x !in emitted
    requires Progress(g, todo, emitted, emitted + [x], queue, indeg)
    requires indeg' == if x in g[k] then indeg[k := indeg[k] - 1] else indeg
    requires queue' == if x in g[k] && indeg'[k] == 0 then queue + [k] else queue
    ensures Progress(g, todo - {k}, emitted, emitted + [x], queue', indeg')
  {
    MissingSnoc(g, k, emitted, x);
    if x in g[k] {
      assert indeg[k] != 0;
      assert k !in emitted + [x] && k !in queue;
    }
  }

  lemma RestStep(g: Graph, keys: seq<Id>, n: nat)
    requires Keyed(g, keys) && n < |keys|
    ensures keys[n] in Rest(keys, n) && keys[n] in g
    ensures Rest(keys, n + 1) == Rest(keys, n) - {keys[n]}
  {
  }

  lemma RestEnds(g: Graph, keys: seq<Id>)
    requires Keyed(g, keys)
    ensures Rest(keys, 0) == g.Keys && Rest(keys, |keys|) == {}
  {
  }

  /** Emits layers whose dependencies are all emitted, until none is ready. */
  method KahnOrder(layers: seq<LayerEntry>, g: Graph) returns (order: seq<Id>)
    requires UniqueIds(layers) && GraphOf(layers, g)
    ensures Emitted(g, order)
  {
    var indeg, queue := InitialDegrees(layers, g);
    order := [];
    while queue != []
      invariant Progress(g, {}, order, order, queue, indeg) && Ordered(g, order)
      decreases |g.Keys| - |order|
    {
      EmitHead(g, order, queue, indeg);
      queue, order, indeg := EmitOne(layers, g, queue, order, indeg);
      DistinctFits(order, g.Keys);
    }
    Exhausted(g, order, indeg);
  }

  /** Takes the head of the queue and walks the registry once, lowering in-degrees. */
  method EmitOne(layers: seq<LayerEntry>, g: Graph, queue0: seq<Id>, order0: seq<Id>, indeg0: map<Id, int>)
    returns (queue: seq<Id>, order: seq<Id>, indeg: map<Id, int>)
    requires UniqueIds(layers) && GraphOf(layers, g)
    requires queue0 != [] && queue0[0] !in order0
    requires Progress(g, g.Keys, order0, order0 + [queue0[0]], queue0[1..], indeg0)
    ensures order == order0 + [queue0[0]] && Progress(g, {}, order, order, queue, indeg)
  {
    ghost var keys := Keys(layers);
    KeysAreKeyed(layers, g);
    RestEnds(g, keys);
    var id := queue0[0];
    queue := queue0[1..];
    order := order0 + [id];
    indeg := indeg0;
    for n := 0 to |layers|
      invariant Progress(g, Rest(keys, n), order0, order, queue, indeg)
    {
      RestStep(g, keys, n);
      queue, indeg := LowerDegree(layers, g, n, Rest(keys, n), order0, id, queue, indeg);
    }
  }

  method LowerDegree(layers: seq<LayerEntry>, ghost g: Graph, n: nat, ghost todo: set<Id>, ghost emitted: seq<Id>, id: Id,
                     queue0: seq<Id>, indeg0: map<Id, int>)
    returns (queue: seq<Id>, indeg: map<Id, int>)
    requires GraphOf(layers, g) && n < |layers| && layers[n].id in todo && layers[n].id in g && id !in emitted
    requires Progress(g, todo, emitted, emitted + [id], queue0, indeg0)
    ensures Progress(g, todo - {layers[n].id}, emitted, emitted + [id], queue, indeg)
  {
    queue, indeg := queue0, indeg0;
    var k := layers[n].id;
    IncludesIffKnown(layers, g, n, emitted, id, queue0, indeg0, todo);
    if id in layers[n].dependsOn {
      var m := indeg[k] - 1;
      indeg := indeg[k := m];
      if m == 0 {
        queue := queue + [k];
      }
    }
    Decrement(g, todo, k, emitted, id, queue0, indeg0, queue, indeg);
  }

  lemma IncludesIffKnown(layers: seq<LayerEntry>, g: Graph, n: nat, emitted: seq<Id>, id: Id, queue: seq<Id>,
                         indeg: map<Id, int>, todo: set<Id>)
    requires GraphOf(layers, g) && n < |layers|
    requires Progress(g, todo, emitted, emitted + [id], queue, indeg)
    ensures layers[n].id in g && layers[n].id in indeg
    ensures id in layers[n].dependsOn <==> id in g[layers[n].id]
  {
  }

  /** What Kahn's loop leaves: an order closed under being unblocked. */
  ghost predicate Emitted(g: Graph, order: seq<Id>) {
    && Distinct(order) && Ordered(g, order)
    && (forall k | k in order :: k in g)
    && (forall k | k in g :: k in order <==> Distinct(g[k]) && forall d | d in g[k] :: d in order)
  }

  function Keys(layers: seq<LayerEntry>): seq<Id> {
    seq(|layers|, i requires 0 <= i < |layers| => layers[i].id)
  }

  lemma KeysAreKeyed(layers: seq<LayerEntry>, g: Graph)
    requires UniqueIds(layers) && GraphOf(layers, g)
    ensures Keyed(g, Keys(layers))
  {
    forall k ensures k in Keys(layers) <==> k in g {
      if k in g {
        var l :| l in layers && l.id == k;
        var i :| 0 <= i < |layers| && layers[i] == l;
        assert Keys(layers)[i] == k;
      }
      if k in Keys(layers) {
        var i :| 0 <= i < |layers| && Keys(layers)[i] == k;
        assert layers[i] in layers;
      }
    }
  }

  lemma CountKeys(g: Graph, keys: seq<Id>)
    requires Keyed(g, keys)
    ensures |g.Keys| == |keys|
  {
    assert g.Keys == set x | x in keys;
    SetOfDistinct(keys);
  }

  lemma {:induction false} SetOfDistinct(s: seq<Id>)
    requires Distinct(s)
    ensures |set x | x in s| == |s|
  {
    if s == [] {
      assert (set x | x in s) == {};
    } else {
      var n := |s| - 1;
      SetOfDistinct(s[..n]);
      assert s == s[..n] + [s[n]];
      assert (set x | x in s) == (set x | x in s[..n]) + {s[n]};
      assert s[n] !in s[..n];
    }
  }

  method InitialDegrees(layers: seq<LayerEntry>, g: Graph) returns (indeg: map<Id, int>, queue: seq<Id>)
    requires UniqueIds(layers) && GraphOf(layers, g)
    ensures Progress(g, {}, [], [], queue, indeg)
  {
    indeg := map k | k in g :: |g[k]|;
    queue := ReadyIds(layers, indeg);
    forall k | k in g ensures Missing(g, k, []) == |g[k]| {
      assert Resolved(g[k], []) == {};
    }
  }

  method ReadyIds(layers: seq<LayerEntry>, indeg: map<Id, int>) returns (queue: seq<Id>)
    requires UniqueIds(layers) && indeg.Keys == LayerIds(layers)
    ensures Distinct(queue)
    ensures forall x :: x in queue <==> x in indeg && indeg[x] == 0
  {
    queue := [];
    for n := 0 to |layers|
      invariant Distinct(queue)
      invariant forall x :: x in queue <==> x in LayerIds(layers[..n]) && x in indeg && indeg[x] == 0
    {
      assert layers[..n + 1] == layers[..n] + [layers[n]];
      assert LayerIds(layers[..n + 1]) == LayerIds(layers[..n]) + {layers[n].id};
      assert layers[n] in layers && layers[n].id !in LayerIds(layers[..n]);
      if indeg[layers[n].id] == 0 {
        queue := queue + [layers[n].id];
      }
    }
    assert layers[..|layers|] == layers;
  }

  /** With an empty queue, exactly the unblocked layers have been emitted. */
  lemma Exhausted(g: Graph, order: seq<Id>, indeg: map<Id, int>)
    requires Progress(g, {}, order, order, [], indeg) && Ordered(g, order)
    ensures Emitted(g, order)
  {
    forall k | k in g
      ensures k in order <==> Distinct(g[k]) && forall d | d in g[k] :: d in order
    {
      assert indeg[k] == Missing(g, k, order);
      ResolvedCount(g[k], order);
    }
  }

  // ---- the check ----

  /** One issue per unknown dependency, in registry order. */
  function UnknownIssues(layers: seq<LayerEntry>, known: set<Id>): seq<Issue> {
    if layers == [] then []
    else UnknownIssues(layers[..|layers| - 1], known) + UnknownOf(layers[|layers| - 1].id, layers[|layers| - 1].dependsOn, known)
  }

  function UnknownOf(id: Id, deps: seq<Id>, known: set<Id>): (issues: seq<Issue>)
    ensures forall x | x in issues :: x.UnknownDependency? && x.layer == id && x.dep in deps && x.dep !in known
    ensures forall d | d in deps && d !in known :: UnknownDependency(id, d) in issues
  {
    if deps == [] then []
    else (if deps[0] in known then [] else [UnknownDependency(id, deps[0])]) + UnknownOf(id, deps[1..], known)
  }

  function KnownGraph(layers: seq<LayerEntry>): (g: Graph)
    requires UniqueIds(layers)
    ensures GraphOf(layers, g)
  {
    KnownOf(layers, LayerIds(layers))
  }

  /** Per layer the dependencies that are in `known`. */
  function KnownOf(layers: seq<LayerEntry>, known: set<Id>): Graph
    requires UniqueIds(layers)
  {
    map l | l in layers :: l.id := KeepKnown(l.dependsOn, known)
  }

  function Unemitted(layers: seq<LayerEntry>, order: seq<Id>): (ids: seq<Id>)
    ensures forall x :: x in ids <==> x in LayerIds(layers) && x !in order
  {
    if layers == [] then []
    else (if layers[0].id in order then [] else [layers[0].id]) + Unemitted(layers[1..], order)
  }

  /** A registry reports its layers one after the other, and of each the unknown dependencies in their order. */
  lemma {:induction false} ReportedInOrder(before: seq<LayerEntry>, id: Id, deps: seq<Id>, d: Id, known: set<Id>)
    ensures UnknownIssues([], known) == []
    ensures UnknownIssues(before + [LayerEntry(id, [])], known) == UnknownIssues(before, known)
    ensures UnknownIssues(before + [LayerEntry(id, deps + [d])], known)
            == UnknownIssues(before + [LayerEntry(id, deps)], known) + if d in known then [] else [UnknownDependency(id, d)]
  {
    hide UnknownOf;
    ReportsLast(before, LayerEntry(id, []), known);
    ReportsLast(before, LayerEntry(id, deps), known);
    ReportsLast(before, LayerEntry(id, deps + [d]), known);
    UnknownOfSnoc(id, deps, d, known);
    UnknownOfNone(id, known);
    assert UnknownIssues(before, known) + [] == UnknownIssues(before, known);
  }

  lemma ReportsLast(before: seq<LayerEntry>, l: LayerEntry, known: set<Id>)
    ensures UnknownIssues(before + [l], known) == UnknownIssues(before, known) + UnknownOf(l.id, l.dependsOn, known)
  {
    hide UnknownOf;
    assert (before + [l])[..|before|] == before;
  }

  lemma UnknownOfNone(id: Id, known: set<Id>)
    ensures UnknownOf(id, [], known) == []
  {
  }

  lemma {:induction false} UnknownOfSnoc(id: Id, deps: seq<Id>, d: Id, known: set<Id>)
    ensures UnknownOf(id, deps + [d], known) == UnknownOf(id, deps, known) + if d in known then [] else [UnknownDependency(id, d)]
    decreases |deps|
  {
    if deps == [] {
      assert [] + [d] == [d];
      assert ([d])[1..] == [];
    } else {
      assert (deps + [d])[1..] == deps[1..] + [d];
      UnknownOfSnoc(id, deps[1..], d, known);
    }
  }

  /** From the layer dependencies lead back to a layer they passed, or to one that repeats a dependency. */
  ghost predicate IsStuck(g: Graph, k: Id) {
    exists p :: IsWalk(g, p) && p[0] == k && (!Distinct(p) || (p[|p| - 1] in g && !Distinct(g[p[|p| - 1]])))
  }

  /** Those layers, in registry order. */
  ghost function StuckLayers(layers: seq<LayerEntry>, g: Graph): seq<Id> {
    if layers == [] then []
    else (if IsStuck(g, layers[0].id) then [layers[0].id] else []) + StuckLayers(layers[1..], g)
  }

  /** The emitted layers are those that are not stuck. */
  lemma EmittedIffNotStuck(g: Graph, order: seq<Id>, k: Id)
    requires Emitted(g, order) && k in g
    requires forall x, d | x in g && d in g[x] :: d in g
    ensures k in order <==> !IsStuck(g, k)
  {
    if k in order {
      var n :| 0 <= n < |order| && order[n] == k;
      forall p | IsWalk(g, p) && p[0] == k ensures Distinct(p) && (p[|p| - 1] in g ==> Distinct(g[p[|p| - 1]])) {
        OrderedWalk(g, order, n, p);
      }
    } else {
      MissingReaches(g, order, [k]);
    }
  }

  /** From a layer left out dependencies lead on through layers left out until one repeats. */
  lemma {:induction false} MissingReaches(g: Graph, order: seq<Id>, p: seq<Id>)
    requires Emitted(g, order) && forall x, d | x in g && d in g[x] :: d in g
    requires IsWalk(g, p) && Distinct(p) && forall i | 0 <= i < |p| :: p[i] in g && p[i] !in order
    ensures IsStuck(g, p[0])
    decreases |g.Keys| - |p|
  {
    var last := p[|p| - 1];
    if Distinct(g[last]) {
      var d :| d in g[last] && d !in order;
      WalkOn(g, p, d);
      if d in p {
        var i :| 0 <= i < |p| && p[i] == d;
        assert (p + [d])[i] == (p + [d])[|p|];
        assert !Distinct(p + [d]);
      } else {
        hide IsWalk, Emitted, IsStuck;
        assert Distinct(p + [d]);
        DistinctFits(p + [d], g.Keys);
        MissingReaches(g, order, p + [d]);
      }
    }
  }

  lemma {:induction false} UnemittedAreStuck(layers: seq<LayerEntry>, g: Graph, order: seq<Id>)
    requires Emitted(g, order) && forall x, d | x in g && d in g[x] :: d in g
    requires forall l | l in layers :: l.id in g
    ensures Unemitted(layers, order) == StuckLayers(layers, g)
  {
    hide Emitted, IsStuck;
    if layers != [] {
      assert layers[0] in layers && forall l | l in layers[1..] :: l in layers;
      EmittedIffNotStuck(g, order, layers[0].id);
      UnemittedAreStuck(layers[1..], g, order);
    }
  }

  ghost predicate LayerCheckReports(layers: seq<LayerEntry>)
    requires UniqueIds(layers)
  {
    Cyclic(KnownGraph(layers)) || RepeatsDependency(KnownGraph(layers))
  }

  /** Unknown dependencies are reported one by one. A cycle is reported exactly when the
      known-dependency graph has a cycle or some layer lists a known dependency twice; it names, in registry
      order, the layers from which one of these is reached. */
  method CheckLayerDag(layers: seq<LayerEntry>) returns (issues: seq<Issue>)
    requires UniqueIds(layers)
    ensures |issues| > 0 && issues[|issues| - 1].CycleInvolving? <==> LayerCheckReports(layers)
    ensures UnknownIssues(layers, LayerIds(layers)) ==
            if |issues| > 0 && issues[|issues| - 1].CycleInvolving? then issues[..|issues| - 1] else issues
    ensures |issues| > 0 && issues[|issues| - 1].CycleInvolving? ==>
              issues[|issues| - 1].layers == StuckLayers(layers, KnownGraph(layers))
  {
    hide Blocked, UnknownIssues, Unemitted, Emitted, Cyclic, RepeatsDependency, IsStuck, StuckLayers;
    var g := KnownGraph(layers);
    issues := ReportUnknown(layers, LayerIds(layers));
    LastIsUnknown(issues);
    var order := KahnOrder(layers, g);
    CompleteIffSound(layers, g, order);
    KnownTargets(layers, g);
    UnemittedAreStuck(layers, g, order);
    if |order| != |layers| {
      issues := issues + [CycleInvolving(Unemitted(layers, order))];
    }
  }

  method ReportUnknown(layers: seq<LayerEntry>, known: set<Id>) returns (issues: seq<Issue>)
    ensures issues == UnknownIssues(layers, known)
    ensures forall x | x in issues :: x.UnknownDependency?
  {
    issues := [];
    for n := 0 to |layers|
      invariant issues == UnknownIssues(layers[..n], known)
    {
      assert layers[..n + 1][..n] == layers[..n];
      issues := issues + UnknownOf(layers[n].id, layers[n].dependsOn, known);
    }
    assert layers[..|layers|] == layers;
    OnlyUnknown(layers, known);
  }

  lemma LastIsUnknown(issues: seq<Issue>)
    requires forall x | x in issues :: x.UnknownDependency?
    ensures issues != [] ==> issues[|issues| - 1].UnknownDependency?
  {
  }

  /** The reported layers are closed under being blocked: each repeats a dependency or has a
      reported one, and no layer outside the report does. */
  ghost predicate Blocked(g: Graph, ids: seq<Id>) {
    && ids != []
    && (forall k | k in ids :: k in g)
    && (forall k | k in g :: k in ids <==> !Distinct(g[k]) || exists d :: d in g[k] && d in ids)
  }

  lemma {:induction false} OnlyUnknown(layers: seq<LayerEntry>, known: set<Id>)
    ensures forall x | x in UnknownIssues(layers, known) :: x.UnknownDependency?
  {
    if layers != [] {
      OnlyUnknown(layers[..|layers| - 1], known);
    }
  }

  /** Every layer is emitted exactly when the graph is acyclic and repeats no dependency; otherwise
      the missing layers are the blocked ones. */
  lemma CompleteIffSound(layers: seq<LayerEntry>, g: Graph, order: seq<Id>)
    requires UniqueIds(layers) && GraphOf(layers, g) && Emitted(g, order)
    ensures |order| == |layers| <==> !Cyclic(g) && !RepeatsDependency(g)
    ensures |order| != |layers| ==> Blocked(g, Unemitted(layers, order))
  {
    CountEmitted(layers, g, order);
    KnownTargets(layers, g);
    if g.Keys - (set x | x in order) == {} {
      AllEmitted(g, order);
    } else {
      SomeMissing(g, order);
      MissingAreBlocked(layers, g, order);
    }
  }

  lemma AllEmitted(g: Graph, order: seq<Id>)
    requires Emitted(g, order) && g.Keys - (set x | x in order) == {}
    ensures !Cyclic(g) && !RepeatsDependency(g)
  {
    forall k | k in g ensures k in order {
      assert k !in g.Keys - set x | x in order;
    }
    TopologicalMeansAcyclic(g, order);
  }

  lemma SomeMissing(g: Graph, order: seq<Id>)
    requires Emitted(g, order) && g.Keys - (set x | x in order) != {}
    requires forall k, d | k in g && d in g[k] :: d in g
    ensures Cyclic(g) || RepeatsDependency(g)
  {
    var stuck := g.Keys - set x | x in order;
    if !RepeatsDependency(g) {
      forall x | x in stuck ensures HasExit(g, stuck, x) {
        MissingHasExit(g, order, stuck, x);
      }
      StuckSetHasCycle(g, stuck);
    }
  }

  lemma MissingHasExit(g: Graph, order: seq<Id>, stuck: set<Id>, x: Id)
    requires Emitted(g, order) && x in g && x !in order && Distinct(g[x])
    requires forall d | d in g[x] :: d in g
    requires forall d | d in g && d !in order :: d in stuck
    ensures HasExit(g, stuck, x)
  {
  }

  lemma CountEmitted(layers: seq<LayerEntry>, g: Graph, order: seq<Id>)
    requires UniqueIds(layers) && GraphOf(layers, g)
    requires Distinct(order) && forall k | k in order :: k in g
    ensures |order| == |layers| <==> g.Keys - (set x | x in order) == {}
  {
    hide GraphOf, UniqueIds, Keyed;
    KeysAreKeyed(layers, g);
    CountKeys(g, Keys(layers));
    SetOfDistinct(order);
    CountRest(g.Keys, set x | x in order);
  }

  lemma CountRest(all: set<Id>, some: set<Id>)
    requires some <= all
    ensures |some| == |all| <==> all - some == {}
  {
    assert some + (all - some) == all && some !! (all - some);
  }

  lemma MissingAreBlocked(layers: seq<LayerEntry>, g: Graph, order: seq<Id>)
    requires GraphOf(layers, g) && Emitted(g, order)
    requires g.Keys - (set x | x in order) != {}
    requires forall k, d | k in g && d in g[k] :: d in g
    ensures Blocked(g, Unemitted(layers, order))
  {
  }

  lemma KnownTargets(layers: seq<LayerEntry>, g: Graph)
    requires GraphOf(layers, g)
    ensures forall k, d | k in g && d in g[k] :: d in g
  {
  }

  // ---- agreement with the plan detector ----

  /** The same nodes and dependency lists, written as a plan. */
  function AsPlan(layers: seq<LayerEntry>): seq<PlanCycle.PlanStep> {
    seq(|layers|, i requires 0 <= i < |layers| => PlanCycle.PlanStep(layers[i].id, "", layers[i].dependsOn))
  }

  lemma {:induction false} PlanAdjacency(layers: seq<LayerEntry>, known: set<Id>)
    requires UniqueIds(layers)
    ensures PlanCycle.AdjacencyUpTo(AsPlan(layers), known) == KnownOf(layers, known)
  {
    if layers == [] {
      assert AsPlan(layers) == [];
    } else {
      hide PlanCycle.AdjacencyUpTo, AsPlan, KeepKnown, KnownOf;
      LayerAdds(layers, known);
      PlanAdjacency(layers[..|layers| - 1], known);
      PlanStepAdds(layers, known);
    }
  }

  lemma PlanStepAdds(layers: seq<LayerEntry>, known: set<Id>)
    requires layers != []
    ensures PlanCycle.AdjacencyUpTo(AsPlan(layers), known)
            == PlanCycle.AdjacencyUpTo(AsPlan(layers[..|layers| - 1]), known)[layers[|layers| - 1].id := KeepKnown(layers[|layers| - 1].dependsOn, known)]
  {
    assert AsPlan(layers)[..|layers| - 1] == AsPlan(layers[..|layers| - 1]);
  }

  lemma LayerAdds(layers: seq<LayerEntry>, known: set<Id>)
    requires UniqueIds(layers) && layers != []
    ensures UniqueIds(layers[..|layers| - 1])
    ensures KnownOf(layers, known) == KnownOf(layers[..|layers| - 1], known)[layers[|layers| - 1].id := KeepKnown(layers[|layers| - 1].dependsOn, known)]
  {
    var init, last := layers[..|layers| - 1], layers[|layers| - 1];
    assert layers == init + [last];
    assert UniqueIds(init);
    hide KeepKnown, KnownOf, UniqueIds;
    forall k ensures AddsAt(KnownOf(layers, known), KnownOf(init, known), last.id, KeepKnown(last.dependsOn, known), k) {
      LayerAddsAt(layers, known, k);
    }
  }

  predicate AddsAt(g: Graph, h: Graph, id: Id, deps: seq<Id>, k: Id) {
    (k in g <==> k in h || k == id) && (k in g ==> g[k] == if k == id then deps else h[k])
  }

  lemma LayerAddsAt(layers: seq<LayerEntry>, known: set<Id>, k: Id)
    requires UniqueIds(layers) && layers != [] && UniqueIds(layers[..|layers| - 1])
    ensures var init, last := layers[..|layers| - 1], layers[|layers| - 1];
            AddsAt(KnownOf(layers, known), KnownOf(init, known), last.id, KeepKnown(last.dependsOn, known), k)
  {
    hide KeepKnown, KnownOf, UniqueIds;
    var init, last := layers[..|layers| - 1], layers[|layers| - 1];
    var h := KnownOf(init, known);
    assert layers == init + [last];
    KnownAt(layers, known, k);
    KnownAt(init, known, k);
    KnownEntry(layers, known, last);
    if k in h {
      var l :| l in init && l.id == k && h[k] == KeepKnown(l.dependsOn, known);
      KnownEntry(layers, known, l);
      OtherId(layers, l);
    }
  }

  lemma OtherId(layers: seq<LayerEntry>, l: LayerEntry)
    requires UniqueIds(layers) && layers != [] && l in layers[..|layers| - 1]
    ensures l.id != layers[|layers| - 1].id
  {
  }

  lemma KnownAt(layers: seq<LayerEntry>, known: set<Id>, k: Id)
    requires UniqueIds(layers)
    ensures k in KnownOf(layers, known) <==> exists l :: l in layers && l.id == k
    ensures k in KnownOf(layers, known) ==> exists l :: l in layers && l.id == k && KnownOf(layers, known)[k] == KeepKnown(l.dependsOn, known)
  {
    hide KeepKnown;
  }

  lemma KnownEntry(layers: seq<LayerEntry>, known: set<Id>, l: LayerEntry)
    requires UniqueIds(layers) && l in layers
    ensures l.id in KnownOf(layers, known) && KnownOf(layers, known)[l.id] == KeepKnown(l.dependsOn, known)
  {
    hide KeepKnown;
  }

  /** Both detectors look at one graph: the layer check reports whatever the plan detector reports, and
      for registries that list no known dependency twice the two verdicts are one. */
  lemma DetectorsAgree(layers: seq<LayerEntry>)
    requires UniqueIds(layers)
    ensures PlanCycle.Adjacency(AsPlan(layers)) == KnownGraph(layers)
    ensures Cyclic(PlanCycle.Adjacency(AsPlan(layers))) ==> LayerCheckReports(layers)
    ensures !RepeatsDependency(KnownGraph(layers)) ==>
              (LayerCheckReports(layers) <==> Cyclic(PlanCycle.Adjacency(AsPlan(layers))))
  {
    SameIds(layers);
    PlanAdjacency(layers, LayerIds(layers));
  }

  lemma SameIds(layers: seq<LayerEntry>)
    ensures PlanCycle.StepIds(AsPlan(layers)) == LayerIds(layers)
  {
    var steps := AsPlan(layers);
    forall x ensures x in PlanCycle.StepIds(steps) <==> x in LayerIds(layers) {
      if x in LayerIds(layers) {
        var l :| l in layers && l.id == x;
        var i :| 0 <= i < |layers| && layers[i] == l;
        assert steps[i] in steps && steps[i].stepId == x;
      }
      if x in PlanCycle.StepIds(steps) {
        var s :| s in steps && s.stepId == x;
        var i :| 0 <= i < |steps| && steps[i] == s;
        assert layers[i] in layers;
      }
    }
  }

  /** Otherwise they can differ: a dependency listed twice is reported as a cycle, of which the plan detector
      finds none. */
  lemma RepeatedDependencyIsReported()
    ensures exists layers :: UniqueIds(layers) && LayerCheckReports(layers) && !Cyclic(PlanCycle.Adjacency(AsPlan(layers)))
  {
    var layers := [LayerEntry("a", []), LayerEntry("b", ["a", "a"])];
    var g := map["a" := [], "b" := ["a", "a"]];
    TwiceOnA();
    hide KnownGraph, KeepKnown, UniqueIds, AsPlan, PlanCycle.Adjacency;
    DetectorsAgree(layers);
    assert UniqueIds(layers) && KnownGraph(layers) == g;
    assert ["a", "b"][..1] == ["a"];
    assert Topological(g, ["a", "b"]);
    TopologicalMeansAcyclic(g, ["a", "b"]);
    assert RepeatsDependency(g) by {
      assert g["b"][0] == g["b"][1];
      assert !Distinct(g["b"]);
    }
  }

  lemma TwiceOnA()
    ensures UniqueIds([LayerEntry("a", []), LayerEntry("b", ["a", "a"])])
    ensures KnownGraph([LayerEntry("a", []), LayerEntry("b", ["a", "a"])]) == map["a" := [], "b" := ["a", "a"]]
  {
    var layers := [LayerEntry("a", []), LayerEntry("b", ["a", "a"])];
    assert layers[0] in layers && layers[1] in layers;
    assert LayerIds(layers) == {"a", "b"};
    assert KeepKnown(["a", "a"], {"a", "b"}) == ["a", "a"] by {
      assert ["a", "a"][1..] == ["a"] && ["a"][1..] == [];
    }
  }
}

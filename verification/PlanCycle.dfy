/** Plan templates: the three-colour cycle detector and the memoised depth guard. */
module PlanCycle {
  import opened Wrappers
  import opened DependencyGraph

  datatype PlanStep = PlanStep(stepId: Id, stepType: string, dependsOn: seq<Id>)

  datatype Color = White | Gray | Black

  // ---- the graph the detector sees ----

  /** The step ids in order of first occurrence: the iteration order of the id set. */
  function DistinctIds(steps: seq<PlanStep>): (ids: seq<Id>)
    ensures Distinct(ids)
    ensures forall x :: x in ids <==> exists s :: s in steps && s.stepId == x
  {
    if steps == [] then []
    else
      var init := DistinctIds(steps[..|steps| - 1]);
      var last := steps[|steps| - 1];
      assert steps == steps[..|steps| - 1] + [last];
      if last.stepId in init then init else init + [last.stepId]
  }

  /** Known dependencies per step id; a repeated step id keeps its last list. */
  function AdjacencyUpTo(steps: seq<PlanStep>, known: set<Id>): (g: Graph)
    ensures g.Keys == set s | s in steps :: s.stepId
    ensures forall k, d | k in g && d in g[k] :: d in known
  {
    if steps == [] then map[]
    else
      var last := steps[|steps| - 1];
      assert steps == steps[..|steps| - 1] + [last];
      AdjacencyUpTo(steps[..|steps| - 1], known)[last.stepId := KeepKnown(last.dependsOn, known)]
  }

  function StepIds(steps: seq<PlanStep>): set<Id> {
    set s | s in steps :: s.stepId
  }

  function Adjacency(steps: seq<PlanStep>): Graph {
    AdjacencyUpTo(steps, StepIds(steps))
  }

  /** Of steps with one id the detector sees the last. */
  lemma {:induction false} AdjacencyIsLast(steps: seq<PlanStep>, known: set<Id>, i: nat)
    requires i < |steps| && forall j | i < j < |steps| :: steps[j].stepId != steps[i].stepId
    ensures steps[i].stepId in AdjacencyUpTo(steps, known)
    ensures AdjacencyUpTo(steps, known)[steps[i].stepId] == KeepKnown(steps[i].dependsOn, known)
  {
    var n := |steps| - 1;
    if i < n {
      AdjacencyIsLast(steps[..n], known, i);
    }
  }

  /** The detector follows the dependencies that the last step with an id lists and that are ids of steps. */
  lemma DetectorFollowsLast(steps: seq<PlanStep>, a: Id, b: Id)
    ensures Edge(Adjacency(steps), a, b) <==>
              exists n | 0 <= n < |steps| ::
                && steps[n].stepId == a && (forall j | n < j < |steps| :: steps[j].stepId != a)
                && b in steps[n].dependsOn && exists m | 0 <= m < |steps| :: steps[m].stepId == b
  {
    hide AdjacencyUpTo;
    KnownIsAStep(steps, b);
    forall n: nat | n < |steps| && steps[n].stepId == a && forall j | n < j < |steps| :: steps[j].stepId != a
      ensures a in Adjacency(steps) && Adjacency(steps)[a] == KeepKnown(steps[n].dependsOn, StepIds(steps))
    {
      AdjacencyIsLast(steps, StepIds(steps), n);
    }
    if a in Adjacency(steps) {
      KnownIsAStep(steps, a);
      var n := LastWith(steps, a);
    }
  }

  lemma KnownIsAStep(steps: seq<PlanStep>, x: Id)
    ensures x in StepIds(steps) <==> exists m | 0 <= m < |steps| :: steps[m].stepId == x
  {
    if m :| 0 <= m < |steps| && steps[m].stepId == x {
      assert steps[m] in steps;
    }
  }

  lemma {:induction false} LastWith(steps: seq<PlanStep>, x: Id) returns (n: nat)
    requires exists m | 0 <= m < |steps| :: steps[m].stepId == x
    ensures n < |steps| && steps[n].stepId == x && forall j | n < j < |steps| :: steps[j].stepId != x
  {
    n := |steps| - 1;
    if steps[n].stepId != x {
      n := LastWith(steps[..n], x);
    }
  }

  /** What a reported list means: the root twice, then a walk that passes no node twice but for its final
      one, which already occurs in it; from that earlier occurrence the list is a cycle. */
  ghost predicate ReportsCycle(g: Graph, r: seq<Id>) {
    && |r| >= 3
    && r[0] == r[1]
    && IsWalk(g, r[1..])
    && Distinct(r[1..|r| - 1])
    && exists j :: 0 < j < |r| - 1 && LastEarlier(r, j) && IsCycle(g, r[j..])
  }

  ghost predicate LastEarlier(r: seq<Id>, j: nat)
    requires |r| > 0 && j < |r| - 1
  {
    r[j] == r[|r| - 1] && forall k | j < k < |r| - 1 :: r[k] != r[|r| - 1]
  }

  /** Of the dependencies of `x`, `y` is the first from which a cycle is reached. */
  ghost predicate FirstExit(g: Graph, x: Id, y: Id) {
    x in g && exists n | 0 <= n < |g[x]| :: g[x][n] == y && ReachesCycle(g, y) && forall i | 0 <= i < n :: !ReachesCycle(g, g[x][i])
  }

  /** From position `n` on the list follows such dependencies. */
  ghost predicate FollowsFirst(g: Graph, r: seq<Id>, n: nat) {
    forall k | n <= k < |r| - 1 :: FirstExit(g, r[k], r[k + 1])
  }

  /** The list starts at the first step from which a cycle is reached and always follows the first dependency from
      which one is. */
  ghost predicate IsFirstReport(steps: seq<PlanStep>, r: seq<Id>) {
    && |r| >= 3 && r[0] == r[1]
    && (exists n | 0 <= n < |steps| ::
          steps[n].stepId == r[0] && ReachesCycle(Adjacency(steps), r[0])
          && forall i | 0 <= i < n :: !ReachesCycle(Adjacency(steps), steps[i].stepId))
    && FollowsFirst(Adjacency(steps), r, 1)
  }

  /** The first of the listed ids from which a cycle is reached. */
  ghost predicate FirstReaching(g: Graph, ids: seq<Id>, x: Id) {
    exists n | 0 <= n < |ids| :: ids[n] == x && ReachesCycle(g, x) && forall i | 0 <= i < n :: !ReachesCycle(g, ids[i])
  }

  /** Depth-first search state: `stack` is the chain of gray nodes and `done` lists the black
      nodes in finishing order. */
  ghost predicate SearchState(adj: Graph, color: map<Id, Color>, done: seq<Id>, stack: seq<Id>) {
    && (forall k, d | k in adj && d in adj[k] :: d in adj)
    && color.Keys == adj.Keys
    && (forall x | x in adj :: color[x] == Gray <==> x in stack)
    && (forall x | x in adj :: color[x] == Black <==> x in done)
    && Distinct(done)
    && Ordered(adj, done)
  }

  ghost function Whites(color: map<Id, Color>): set<Id> {
    set x | x in color && color[x] == White
  }

  /** The walk from the root through the gray chain to `id`. */
  ghost predicate OnChain(adj: Graph, above: seq<Id>, id: Id) {
    Distinct(above) && id !in above && IsWalk(adj, above + [id])
  }

  ghost function Root(above: seq<Id>, id: Id): Id {
    if above == [] then id else above[0]
  }

  lemma TurnGray(adj: Graph, color: map<Id, Color>, done: seq<Id>, above: seq<Id>, id: Id)
    requires SearchState(adj, color, done, above) && id in adj && color[id] == White
    ensures SearchState(adj, color[id := Gray], done, above + [id])
    ensures Whites(color[id := Gray]) == Whites(color) - {id}
  {
  }

  lemma TurnBlack(adj: Graph, color: map<Id, Color>, done: seq<Id>, above: seq<Id>, id: Id)
    requires SearchState(adj, color, done, above + [id]) && id in adj && id !in above
    requires forall d | d in adj[id] :: d in done
    ensures SearchState(adj, color[id := Black], done + [id], above)
    ensures Whites(color[id := Black]) == Whites(color)
  {
    hide Ordered, Distinct;
    OrderedSnoc(adj, done, id);
    SnocMembers(above, id);
    SnocMembers(done, id);
    assert id !in done;
    SnocDistinct(done, id);
    ColorBlack(adj, color, done, above, id);
    WhitesStay(color, id);
    hide Whites;
  }

  lemma ColorBlack(adj: Graph, color: map<Id, Color>, done: seq<Id>, above: seq<Id>, id: Id)
    requires color.Keys == adj.Keys && id in adj && id !in above
    requires forall x | x in adj :: color[x] == Gray <==> x in above || x == id
    requires forall x | x in adj :: color[x] == Black <==> x in done
    ensures color[id := Black].Keys == adj.Keys
    ensures forall x | x in adj :: color[id := Black][x] == Gray <==> x in above
    ensures forall x | x in adj :: color[id := Black][x] == Black <==> x in done || x == id
  {
  }

  lemma WhitesStay(color: map<Id, Color>, id: Id)
    requires id in color && color[id] != White
    ensures Whites(color[id := Black]) == Whites(color)
  {
  }

  lemma SnocMembers(s: seq<Id>, x: Id)
    ensures forall y :: y in s + [x] <==> y in s || y == x
  {
  }

  lemma SnocDistinct(s: seq<Id>, x: Id)
    requires Distinct(s) && x !in s
    ensures Distinct(s + [x])
  {
  }

  lemma StepDown(adj: Graph, above: seq<Id>, id: Id, d: Id)
    requires OnChain(adj, above, id) && Edge(adj, id, d)
    ensures IsWalk(adj, above + [id] + [d])
    ensures d !in above + [id] ==> OnChain(adj, above + [id], d)
  {
  }

  lemma ClosesCycle(adj: Graph, above: seq<Id>, id: Id, d: Id, found: seq<Id>)
    requires OnChain(adj, above, id) && Edge(adj, id, d) && d in above + [id]
    requires found == [Root(above, id)] + above + [id, d]
    ensures ReportsCycle(adj, found)
  {
    var p := above + [id];
    var q := p + [d];
    StepDown(adj, above, id, d);
    assert found[1..] == q;
    var i :| 0 <= i < |p| && p[i] == d;
    WalkRepeats(adj, q, i);
    assert found[i + 1..] == q[i..];
    assert LastEarlier(found, i + 1) by {
      assert forall k | i + 1 < k < |found| - 1 :: found[k] == p[k - 1];
      assert Distinct(p);
    }
  }

  /** Coming back to the chain, the current node and the one come back to reach a cycle. */
  lemma ChainReaches(adj: Graph, above: seq<Id>, id: Id, d: Id)
    requires OnChain(adj, above, id) && Edge(adj, id, d) && d in above + [id]
    ensures ReachesCycle(adj, d) && ReachesCycle(adj, id)
  {
    var p := above + [id];
    StepDown(adj, above, id, d);
    var i :| 0 <= i < |p| && p[i] == d;
    WalkRepeats(adj, p + [d], i);
    var q := (p + [d])[i..];
    assert q[0] == q[|q| - 1] == d;
    assert ReachesCycle(adj, d);
    ReachStep(adj, id, d);
  }

  lemma ReachStep(g: Graph, a: Id, b: Id)
    requires Edge(g, a, b) && ReachesCycle(g, b)
    ensures ReachesCycle(g, a)
  {
    var p :| IsWalk(g, p) && p[0] == b && !Distinct(p);
    var q := [a] + p;
    forall i | 0 <= i < |q| - 1 ensures Edge(g, q[i], q[i + 1]) {
      if i > 0 {
        assert Edge(g, p[i - 1], p[i - 1 + 1]);
      }
    }
    var i, j :| 0 <= i < j < |p| && p[i] == p[j];
    assert q[i + 1] == q[j + 1];
    assert !Distinct(q) && IsWalk(g, q) && q[0] == a;
  }

  /** No cycle is reached from a black node. */
  lemma DoneReachesNone(adj: Graph, color: map<Id, Color>, done: seq<Id>, stack: seq<Id>)
    requires SearchState(adj, color, done, stack)
    ensures forall x | x in done :: !ReachesCycle(adj, x)
  {
    hide ReachesCycle;
    forall x | x in done ensures !ReachesCycle(adj, x) {
      OrderedReachesNone(adj, done, x);
    }
  }

  lemma FirstOfDeps(adj: Graph, id: Id, n: nat)
    requires id in adj && n < |adj[id]| && ReachesCycle(adj, adj[id][n])
    requires forall i | 0 <= i < n :: !ReachesCycle(adj, adj[id][i])
    ensures FirstExit(adj, id, adj[id][n])
  {
  }

  lemma FollowsOne(g: Graph, r: seq<Id>, n: nat)
    requires n + 1 < |r| && FirstExit(g, r[n], r[n + 1]) && FollowsFirst(g, r, n + 1)
    ensures FollowsFirst(g, r, n)
  {
  }

  lemma FollowsNone(g: Graph, r: seq<Id>, n: nat)
    requires n + 1 >= |r|
    ensures FollowsFirst(g, r, n)
  {
  }

  /** What the colour of a node says. */
  lemma LookAt(adj: Graph, color: map<Id, Color>, done: seq<Id>, stack: seq<Id>, d: Id)
    requires SearchState(adj, color, done, stack) && d in adj
    ensures d in color && (color[d] == Gray <==> d in stack) && (color[d] == Black <==> d in done)
    ensures color[d] == White <==> d in Whites(color)
  {
  }

  lemma Follow(adj: Graph, color: map<Id, Color>, done: seq<Id>, stack: seq<Id>, id: Id, n: nat)
    requires SearchState(adj, color, done, stack) && id in adj && n < |adj[id]|
    ensures adj[id][n] in adj && Edge(adj, id, adj[id][n])
    ensures var d := adj[id][n]; d in color && (color[d] == Gray <==> d in stack) && (color[d] == Black <==> d in done)
  {
  }

  /** What is reported below the n-th dependency follows first exits from `id` on. */
  lemma Found(adj: Graph, color: map<Id, Color>, done: seq<Id>, stack: seq<Id>, path: seq<Id>, id: Id, n: nat, r: seq<Id>)
    requires SearchState(adj, color, done, stack) && id in adj && n < |adj[id]| && ReachesCycle(adj, adj[id][n])
    requires forall i | 0 <= i < n :: adj[id][i] in done
    requires path + [id] + [adj[id][n]] <= r && FollowsFirst(adj, r, |path| + 1)
    ensures FollowsFirst(adj, r, |path|)
  {
    hide SearchState, ReachesCycle, FirstExit, FollowsFirst;
    DoneReachesNone(adj, color, done, stack);
    FirstOfDeps(adj, id, n);
    assert r[|path|] == id && r[|path| + 1] == adj[id][n];
    FollowsOne(adj, r, |path|);
  }

  class DepthFirst {
    const adj: Graph
    var color: map<Id, Color>
    ghost var done: seq<Id>

    ghost predicate Valid(stack: seq<Id>)
      reads this
    {
      SearchState(adj, color, done, stack)
    }

    constructor (g: Graph)
      requires forall k, d | k in g && d in g[k] :: d in g
      ensures Valid([]) && adj == g && done == []
    {
      adj := g;
      color := map k | k in g :: White;
      done := [];
    }

    /** `path` is the root followed by the ancestors of `id`. */
    method Visit(id: Id, path: seq<Id>, ghost above: seq<Id>) returns (r: Option<seq<Id>>)
      requires Valid(above) && id in adj && color[id] == White
      requires OnChain(adj, above, id) && path == [Root(above, id)] + above
      modifies this
      ensures r.None? ==> Valid(above) && id in done && old(done) <= done && Whites(color) <= Whites(old(color))
      ensures r.Some? ==> ReportsCycle(adj, r.value)
      ensures r.Some? ==> path + [id] <= r.value && FollowsFirst(adj, r.value, |path|) && ReachesCycle(adj, id)
      decreases Whites(color)
    {
      hide SearchState, ReportsCycle, OnChain, Edge, Whites, ReachesCycle, FirstExit, FollowsFirst;
      ghost var stack := above + [id];
      LookAt(adj, color, done, above, id);
      TurnGray(adj, color, done, above, id);
      color := color[id := Gray];
      for n := 0 to |adj[id]|
        invariant Valid(stack) && old(done) <= done
        invariant Whites(color) <= Whites(old(color)) - {id}
        invariant forall i | 0 <= i < n :: adj[id][i] in done
      {
        var d := adj[id][n];
        Follow(adj, color, done, stack, id, n);
        var c := color[d];
        if c == Gray {
          ClosesCycle(adj, above, id, d, path + [id, d]);
          ChainReaches(adj, above, id, d);
          assert path + [id, d] == path + [id] + [d];
          FollowsNone(adj, path + [id, d], |path| + 1);
          Found(adj, color, done, stack, path, id, n, path + [id, d]);
          return Some(path + [id, d]);
        }
        if c == White {
          StepDown(adj, above, id, d);
          assert path + [id] == [Root(stack, d)] + stack;
          ghost var before, known := color, done;
          r := Visit(d, path + [id], stack);
          if r.Some? {
            ReachStep(adj, id, d);
            Found(adj, before, known, stack, path, id, n, r.value);
            return r;
          }
        }
      }
      TurnBlack(adj, color, done, above, id);
      color := color[id := Black];
      done := done + [id];
      r := None;
    }
  }

  method BuildAdjacency(steps: seq<PlanStep>, known: set<Id>) returns (adj: Graph)
    ensures adj == AdjacencyUpTo(steps, known)
  {
    adj := map[];
    for n := 0 to |steps|
      invariant adj == AdjacencyUpTo(steps[..n], known)
    {
      assert steps[..n + 1][..n] == steps[..n];
      adj := adj[steps[n].stepId := KeepKnown(steps[n].dependsOn, known)];
    }
    assert steps[..|steps|] == steps;
  }

  /** Reports a cycle exactly when the known-dependency graph has one, and always the first: from the first step
      that reaches one along the first dependencies that do. */
  method DetectCycle(steps: seq<PlanStep>) returns (r: Option<seq<Id>>)
    ensures r.None? <==> !Cyclic(Adjacency(steps))
    ensures r.Some? ==> ReportsCycle(Adjacency(steps), r.value) && IsFirstReport(steps, r.value)
  {
    hide ReportsCycle, FirstReaching, FollowsFirst, Cyclic, ReachesCycle;
    var ids := DistinctIds(steps);
    assert (set x | x in ids) == StepIds(steps);
    var adj := BuildAdjacency(steps, set x | x in ids);
    r := SearchFrom(adj, ids);
    if r.Some? {
      ghost var n := FirstIdIsFirstStep(adj, steps, r.value[0]);
    }
  }

  /** The distinct ids stand in order of first occurrence. */
  lemma {:induction false} FirstIdIsFirstStep(g: Graph, steps: seq<PlanStep>, x: Id) returns (n: nat)
    requires FirstReaching(g, DistinctIds(steps), x)
    ensures n < |steps| && steps[n].stepId == x && ReachesCycle(g, x)
    ensures forall i | 0 <= i < n :: !ReachesCycle(g, steps[i].stepId)
  {
    var m := |steps| - 1;
    LastDistinctId(steps);
    hide DistinctIds, ReachesCycle;
    assert DistinctIds(steps) != [];
    hide FirstReaching;
    LastReaching(g, DistinctIds(steps[..m]), DistinctIds(steps), x);
    if FirstReaching(g, DistinctIds(steps[..m]), x) {
      n := FirstIdIsFirstStep(g, steps[..m], x);
      assert forall i | 0 <= i < n :: steps[i] == steps[..m][i];
    } else {
      n := m;
    }
  }

  /** Of ids with at most one more at the end, the first that reaches a cycle is the same or that one. */
  lemma LastReaching(g: Graph, init: seq<Id>, ids: seq<Id>, x: Id)
    requires FirstReaching(g, ids, x) && init <= ids && |ids| <= |init| + 1
    ensures FirstReaching(g, init, x) || (|ids| == |init| + 1 && x == ids[|init|] && ReachesCycle(g, x) && forall y | y in init :: !ReachesCycle(g, y))
  {
    hide ReachesCycle;
    var n :| 0 <= n < |ids| && ids[n] == x && ReachesCycle(g, x) && forall i | 0 <= i < n :: !ReachesCycle(g, ids[i]);
    if n < |init| {
      assert init[n] == x && forall i | 0 <= i < n :: init[i] == ids[i];
    } else {
      forall y | y in init ensures !ReachesCycle(g, y) {
        var k :| 0 <= k < |init| && init[k] == y;
        assert ids[k] == y;
      }
    }
  }

  lemma LastDistinctId(steps: seq<PlanStep>)
    ensures steps == [] ==> DistinctIds(steps) == []
    ensures steps != [] ==>
              var init, x := DistinctIds(steps[..|steps| - 1]), steps[|steps| - 1].stepId;
              && DistinctIds(steps) == (if x in init then init else init + [x])
              && forall i | 0 <= i < |steps| - 1 :: steps[i].stepId in init
  {
    if steps != [] {
      forall i | 0 <= i < |steps| - 1 ensures steps[i].stepId in DistinctIds(steps[..|steps| - 1]) {
        assert steps[..|steps| - 1][i] in steps[..|steps| - 1];
      }
    }
  }

  /** The outer loop: start a visit at every id still white. */
  method SearchFrom(adj: Graph, ids: seq<Id>) returns (r: Option<seq<Id>>)
    requires forall k, d | k in adj && d in adj[k] :: d in adj
    requires forall k :: k in ids <==> k in adj
    ensures r.None? <==> !Cyclic(adj)
    ensures r.Some? ==> ReportsCycle(adj, r.value) && |r.value| >= 3 && r.value[0] == r.value[1]
    ensures r.Some? ==> FirstReaching(adj, ids, r.value[0]) && FollowsFirst(adj, r.value, 1)
  {
    hide ReportsCycle, Cyclic, Topological, SearchState, OnChain, Whites, ReachesCycle, FollowsFirst;
    var search := new DepthFirst(adj);
    for n := 0 to |ids|
      invariant search.Valid([])
      invariant forall i | 0 <= i < n :: ids[i] in search.done
    {
      assert ids[n] in adj;
      LookAt(adj, search.color, search.done, [], ids[n]);
      if search.color[ids[n]] == White {
        AloneOnChain(adj, ids[n]);
        DoneReachesNone(adj, search.color, search.done, []);
        r := search.Visit(ids[n], [ids[n]], []);
        if r.Some? {
          ReportIsCyclic(adj, r.value);
          return r;
        }
      }
    }
    DoneIsOrdered(adj, search.color, search.done);
    AllDone(adj, search.done, ids);
    r := None;
  }

  lemma AloneOnChain(adj: Graph, id: Id)
    ensures OnChain(adj, [], id) && [id] == [Root([], id)] + []
  {
    assert [] + [id] == [id];
  }

  lemma DoneIsOrdered(adj: Graph, color: map<Id, Color>, done: seq<Id>)
    requires SearchState(adj, color, done, [])
    ensures Distinct(done) && Ordered(adj, done)
  {
  }

  lemma AllDone(adj: Graph, done: seq<Id>, ids: seq<Id>)
    requires Distinct(done) && Ordered(adj, done) && forall i | 0 <= i < |ids| :: ids[i] in done
    requires forall k :: k in ids <==> k in adj
    ensures !Cyclic(adj)
  {
    assert Topological(adj, done);
    TopologicalMeansAcyclic(adj, done);
  }

  lemma ReportIsCyclic(g: Graph, r: seq<Id>)
    requires ReportsCycle(g, r)
    ensures Cyclic(g) && |r| >= 3 && r[0] == r[1]
  {
  }
}

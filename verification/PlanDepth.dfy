/** The depth guard over plan templates: the longest dependency chain, computed with a memo. */
module PlanDepth {
  import opened Wrappers
  import opened DependencyGraph
  import opened PlanCycle

  /** The first step carrying an id. */
  function FindStep(steps: seq<PlanStep>, id: Id): (r: Option<PlanStep>)
    ensures r.None? <==> id !in StepIds(steps)
    ensures r.Some? ==> r.value in steps && r.value.stepId == id
  {
    if steps == [] then None
    else if steps[0].stepId == id then Some(steps[0])
    else FindStep(steps[1..], id)
  }

  /** The graph the depth guard walks: first step per id, unknown dependencies kept. */
  function FirstGraph(steps: seq<PlanStep>): (g: Graph)
    ensures g.Keys == StepIds(steps)
  {
    map id | id in StepIds(steps) :: FindStep(steps, id).value.dependsOn
  }

  lemma {:induction false} FindStepIsFirst(steps: seq<PlanStep>, id: Id, n: nat)
    requires n < |steps| && steps[n].stepId == id && forall j | 0 <= j < n :: steps[j].stepId != id
    ensures FindStep(steps, id) == Some(steps[n])
  {
    if n > 0 {
      assert steps[1..][n - 1] == steps[n];
      assert forall j | 0 <= j < n - 1 :: steps[1..][j] == steps[j + 1];
      FindStepIsFirst(steps[1..], id, n - 1);
    }
  }

  lemma {:induction false} FirstWith(steps: seq<PlanStep>, id: Id) returns (n: nat)
    requires id in StepIds(steps)
    ensures n < |steps| && steps[n].stepId == id && forall j | 0 <= j < n :: steps[j].stepId != id
  {
    n := 0;
    if steps[0].stepId != id {
      assert steps == [steps[0]] + steps[1..];
      var m := FirstWith(steps[1..], id);
      assert forall j | 0 < j < |steps| :: steps[1..][j - 1] == steps[j];
      n := m + 1;
    }
  }

  /** The guard follows every dependency that the first step with an id lists, known or not. */
  lemma GuardFollowsFirst(steps: seq<PlanStep>, a: Id, b: Id)
    ensures Edge(FirstGraph(steps), a, b) <==>
              exists n | 0 <= n < |steps| ::
                steps[n].stepId == a && (forall j | 0 <= j < n :: steps[j].stepId != a) && b in steps[n].dependsOn
  {
    if a in StepIds(steps) {
      var n := FirstWith(steps, a);
      FindStepIsFirst(steps, a, n);
      hide FindStep;
    } else {
      forall n | 0 <= n < |steps| ensures steps[n].stepId != a {
        assert steps[n] in steps;
      }
    }
  }

  /** A dependency chain is a walk; its last node may be an unknown id. */
  ghost predicate ChainFrom(g: Graph, id: Id, p: seq<Id>) {
    IsWalk(g, p) && p[0] == id
  }

  ghost predicate Attains(g: Graph, id: Id, n: nat) {
    exists p :: ChainFrom(g, id, p) && |p| == n
  }

  ghost predicate AtMost(g: Graph, id: Id, n: nat) {
    forall p :: ChainFrom(g, id, p) ==> |p| <= n
  }

  /** `n` is the number of nodes on the longest chain starting at `id`. */
  ghost predicate IsDepth(g: Graph, id: Id, n: nat) {
    Attains(g, id, n) && AtMost(g, id, n)
  }

  lemma AtMostMore(g: Graph, id: Id, n: nat, m: nat)
    requires AtMost(g, id, n) && n <= m
    ensures AtMost(g, id, m)
  {
  }

  lemma LeafDepth(g: Graph, id: Id)
    requires id in g ==> g[id] == []
    ensures IsDepth(g, id, 1)
  {
    assert ChainFrom(g, id, [id]);
    forall p | ChainFrom(g, id, p) ensures |p| <= 1 {
      assert |p| > 1 ==> Edge(g, p[0], p[0 + 1]);
    }
  }

  lemma LinkChain(g: Graph, id: Id, p: seq<Id>)
    requires |p| > 0 && Edge(g, id, p[0]) && IsWalk(g, p)
    ensures ChainFrom(g, id, [id] + p)
  {
  }

  lemma DropFirst(g: Graph, p: seq<Id>)
    requires IsWalk(g, p) && |p| > 1
    ensures Edge(g, p[0], p[1]) && ChainFrom(g, p[1], p[1..])
  {
  }

  /** One more link than the deepest dependency. */
  lemma NodeDepth(g: Graph, id: Id, best: Id, m: nat)
    requires id in g && best in g[id] && Attains(g, best, m)
    requires forall i | 0 <= i < |g[id]| :: AtMost(g, g[id][i], m)
    ensures IsDepth(g, id, m + 1)
  {
    var p :| ChainFrom(g, best, p) && |p| == m;
    LinkChain(g, id, p);
    assert |[id] + p| == m + 1;
    forall r | ChainFrom(g, id, r) ensures |r| <= m + 1 {
      if |r| > 1 {
        DropFirst(g, r);
        var i :| 0 <= i < |g[id]| && g[id][i] == r[1];
        assert AtMost(g, g[id][i], m);
      }
    }
  }

  ghost predicate MemoAgrees(g: Graph, depth: map<Id, nat>) {
    forall id | id in depth :: IsDepth(g, id, depth[id])
  }

  ghost function Rank(order: seq<Id>, id: Id): nat {
    if id in order then 1 + IndexOf(order, id) else 0
  }

  lemma DependencyRanksLower(g: Graph, order: seq<Id>, id: Id, d: Id)
    requires Topological(g, order) && id in g && d in g[id]
    requires forall x | x in order :: x in g
    ensures Rank(order, d) < Rank(order, id)
  {
  }

  class DepthMemo {
    const steps: seq<PlanStep>
    var depth: map<Id, nat>

    constructor (plan: seq<PlanStep>)
      ensures steps == plan && depth == map[]
    {
      steps := plan;
      depth := map[];
    }

    method Compute(id: Id, ghost order: seq<Id>) returns (n: nat)
      requires Topological(FirstGraph(steps), order) && forall x | x in order :: x in StepIds(steps)
      requires MemoAgrees(FirstGraph(steps), depth)
      modifies this
      ensures MemoAgrees(FirstGraph(steps), depth)
      ensures IsDepth(FirstGraph(steps), id, n)
      decreases Rank(order, id), 1
    {
      if id in depth {
        return depth[id];
      }
      var s := FindStep(steps, id);
      if s.None? || s.value.dependsOn == [] {
        LeafDepth(FirstGraph(steps), id);
        n := 1;
      } else {
        forall i | 0 <= i < |s.value.dependsOn| ensures Rank(order, s.value.dependsOn[i]) < Rank(order, id) {
          DependencyRanksLower(FirstGraph(steps), order, id, s.value.dependsOn[i]);
        }
        ghost var best;
        n, best := Deepest(s.value.dependsOn, order, Rank(order, id));
        NodeDepth(FirstGraph(steps), id, best, n);
        n := n + 1;
      }
      depth := depth[id := n];
    }

    /** The maximum of the depths of a non-empty list of ids. */
    method Deepest(ids: seq<Id>, ghost order: seq<Id>, ghost bound: nat) returns (n: nat, ghost best: Id)
      requires Topological(FirstGraph(steps), order) && forall x | x in order :: x in StepIds(steps)
      requires MemoAgrees(FirstGraph(steps), depth)
      requires ids != [] && forall i | 0 <= i < |ids| :: Rank(order, ids[i]) < bound
      modifies this
      ensures MemoAgrees(FirstGraph(steps), depth)
      ensures best in ids && Attains(FirstGraph(steps), best, n)
      ensures forall i | 0 <= i < |ids| :: AtMost(FirstGraph(steps), ids[i], n)
      decreases bound, 0
    {
      hide Attains, AtMost, MemoAgrees, Rank, Topological, FirstGraph;
      ghost var g := FirstGraph(steps);
      n := Compute(ids[0], order);
      best := ids[0];
      for i := 1 to |ids|
        invariant MemoAgrees(g, depth)
        invariant best in ids && Attains(g, best, n)
        invariant forall j | 0 <= j < i :: AtMost(g, ids[j], n)
      {
        var m := Compute(ids[i], order);
        forall j | 0 <= j <= i ensures AtMost(g, ids[j], if m > n then m else n) {
          AtMostMore(g, ids[j], if j < i then n else m, if m > n then m else n);
        }
        if m > n {
          n, best := m, ids[i];
        }
      }
    }
  }

  /** A chain that starts at a step of the plan. */
  ghost predicate PlanChain(steps: seq<PlanStep>, p: seq<Id>) {
    IsWalk(FirstGraph(steps), p) && p[0] in StepIds(steps)
  }

  /** The length of the longest chain of the plan; `None` stands for the -Infinity the source
      returns on a plan without steps. The recursion of the source ends exactly on acyclic
      first-step graphs (`DepthExistsIffAcyclic`). */
  method MaxDependencyDepth(steps: seq<PlanStep>) returns (r: Option<nat>)
    requires !Cyclic(FirstGraph(steps))
    ensures r.None? <==> steps == []
    ensures r.Some? ==> exists p :: PlanChain(steps, p) && |p| == r.value
    ensures r.Some? ==> forall p :: PlanChain(steps, p) ==> |p| <= r.value
    ensures r.Some? ==> r.value <= |steps| + 1
  {
    if steps == [] {
      return None;
    }
    ghost var order := ListOrder(FirstGraph(steps));
    var memo := new DepthMemo(steps);
    var ids := seq(|steps|, i requires 0 <= i < |steps| => steps[i].stepId);
    var n, best := memo.Deepest(ids, order, |order| + 1);
    LongestOverall(steps, ids, best, n);
    r := Some(n);
  }

  lemma ListOrder(g: Graph) returns (order: seq<Id>)
    requires !Cyclic(g)
    ensures Topological(g, order) && forall x | x in order :: x in g
  {
    order := CompleteOrder(g, []);
    forall x | x in order ensures x in g {
      var i :| 0 <= i < |order| && order[i] == x;
    }
  }

  lemma LongestOverall(steps: seq<PlanStep>, ids: seq<Id>, best: Id, n: nat)
    requires !Cyclic(FirstGraph(steps))
    requires |ids| == |steps| && forall i | 0 <= i < |ids| :: ids[i] == steps[i].stepId
    requires best in ids && Attains(FirstGraph(steps), best, n)
    requires forall j | 0 <= j < |ids| :: AtMost(FirstGraph(steps), ids[j], n)
    ensures exists p :: PlanChain(steps, p) && |p| == n
    ensures forall p :: PlanChain(steps, p) ==> |p| <= n
    ensures n <= |steps| + 1
  {
    var g := FirstGraph(steps);
    var p :| ChainFrom(g, best, p) && |p| == n;
    assert PlanChain(steps, p);
    forall q | PlanChain(steps, q) ensures |q| <= n {
      var s :| s in steps && s.stepId == q[0];
      var j :| 0 <= j < |steps| && steps[j] == s;
      assert AtMost(g, ids[j], n) && ChainFrom(g, ids[j], q);
    }
    ChainBound(g, p);
    FewIds(steps);
  }

  lemma {:induction false} FewIds(steps: seq<PlanStep>)
    ensures |StepIds(steps)| <= |steps|
  {
    if steps == [] {
      assert StepIds(steps) == {};
    } else {
      FewIds(steps[1..]);
      assert steps == [steps[0]] + steps[1..];
      assert StepIds(steps) == {steps[0].stepId} + StepIds(steps[1..]);
    }
  }

  /** In an acyclic graph a chain visits each known id once, with at most one unknown id last. */
  lemma ChainBound(g: Graph, p: seq<Id>)
    requires !Cyclic(g) && IsWalk(g, p)
    ensures |p| <= |g.Keys| + 1
  {
    var q := p[..|p| - 1];
    forall i | 0 <= i < |q| ensures q[i] in g.Keys {
      assert Edge(g, p[i], p[i + 1]);
    }
    forall i, j | 0 <= i < j < |q| ensures q[i] != q[j] {
      if q[i] == q[j] {
        var w := p[..j + 1];
        assert forall k | 0 <= k < |w| - 1 :: Edge(g, p[k], p[k + 1]);
        WalkRepeats(g, w, i);
      }
    }
    DistinctFits(q, g.Keys);
  }

  // ---- when the guard terminates, and how it relates to the detector ----

  /** Going round a cycle gives chains longer than any bound. */
  lemma {:induction false} RoundAndRound(g: Graph, c: seq<Id>, n: nat) returns (p: seq<Id>)
    requires IsCycle(g, c)
    ensures ChainFrom(g, c[0], p) && |p| > n && p[|p| - 1] == c[0]
  {
    if n == 0 {
      p := c;
    } else {
      var q := RoundAndRound(g, c, n - 1);
      p := q + c[1..];
      forall i | 0 <= i < |p| - 1 ensures Edge(g, p[i], p[i + 1]) {
        if i < |q| - 1 {
          assert Edge(g, q[i], q[i + 1]);
        } else {
          var k := i - (|q| - 1);
          assert Edge(g, c[k], c[k + 1]);
        }
      }
    }
  }

  ghost predicate DepthDefined(g: Graph, id: Id) {
    exists n :: IsDepth(g, id, n)
  }

  /** Every step has a depth exactly when the first-step graph is acyclic. */
  lemma DepthExistsIffAcyclic(steps: seq<PlanStep>)
    ensures (forall id | id in StepIds(steps) :: DepthDefined(FirstGraph(steps), id)) <==> !Cyclic(FirstGraph(steps))
  {
    var g := FirstGraph(steps);
    if c :| IsCycle(g, c) {
      assert Edge(g, c[0], c[0 + 1]);
      if n :| IsDepth(g, c[0], n) {
        var p := RoundAndRound(g, c, n);
        assert false;
      }
      assert !DepthDefined(g, c[0]);
    } else {
      var order := ListOrder(g);
      forall id | id in StepIds(steps) ensures DepthDefined(g, id) {
        DepthByRank(g, order, id);
      }
    }
  }

  lemma {:induction false} DepthByRank(g: Graph, order: seq<Id>, id: Id)
    requires Topological(g, order) && forall x | x in order :: x in g
    ensures DepthDefined(g, id)
    decreases Rank(order, id)
  {
    if id !in g || g[id] == [] {
      LeafDepth(g, id);
      assert IsDepth(g, id, 1);
    } else {
      forall d | d in g[id] ensures DepthDefined(g, d) {
        DependencyRanksLower(g, order, id, d);
        DepthByRank(g, order, d);
      }
      var best, m := DeepestOf(g, g[id]);
      NodeDepth(g, id, best, m);
    }
  }

  lemma {:induction false} DeepestOf(g: Graph, deps: seq<Id>) returns (best: Id, m: nat)
    requires deps != [] && forall d | d in deps :: DepthDefined(g, d)
    ensures best in deps && Attains(g, best, m)
    ensures forall j | 0 <= j < |deps| :: AtMost(g, deps[j], m)
  {
    var n := |deps| - 1;
    assert deps[n] in deps;
    var k :| IsDepth(g, deps[n], k);
    best, m := deps[n], k;
    if n > 0 {
      var b, l := DeepestOf(g, deps[..n]);
      if l > k {
        best, m := b, l;
      }
    }
  }

  predicate DistinctStepIds(steps: seq<PlanStep>) {
    forall i, j | 0 <= i < j < |steps| :: steps[i].stepId != steps[j].stepId
  }

  lemma AdjacencyAt(steps: seq<PlanStep>, known: set<Id>, s: PlanStep)
    requires DistinctStepIds(steps) && s in steps
    ensures AdjacencyUpTo(steps, known)[s.stepId] == KeepKnown(s.dependsOn, known)
  {
    var i :| 0 <= i < |steps| && steps[i] == s;
    AdjacencyIsLast(steps, known, i);
  }

  /** With distinct step ids the detector guards the depth computation: it finds no cycle exactly
      when the computation ends. */
  lemma DetectorGuardsDepth(steps: seq<PlanStep>)
    requires DistinctStepIds(steps)
    ensures Cyclic(Adjacency(steps)) <==> Cyclic(FirstGraph(steps))
  {
    var g, h := Adjacency(steps), FirstGraph(steps);
    forall a, b
      ensures Edge(g, a, b) <==> Edge(h, a, b) && b in StepIds(steps)
    {
      if a in h {
        AdjacencyAt(steps, StepIds(steps), FindStep(steps, a).value);
      }
    }
    if p :| IsCycle(g, p) {
      assert IsCycle(h, p);
    }
    if p :| IsCycle(h, p) {
      forall i | 0 <= i < |p| - 1 ensures Edge(g, p[i], p[i + 1]) {
        assert Edge(h, p[i], p[i + 1]);
        if i + 1 < |p| - 1 {
          assert Edge(h, p[i + 1], p[i + 1 + 1]);
        } else {
          assert Edge(h, p[0], p[0 + 1]);
        }
      }
      assert IsCycle(g, p);
    }
  }

  // ---- exactly when the detector guards the depth ----

  predicate HasIds(steps: seq<PlanStep>, ids: seq<Id>) {
    |steps| == |ids| && forall i | 0 <= i < |ids| :: steps[i].stepId == ids[i]
  }

  /** Every plan with these step ids that the detector passes has a depth computation that ends. */
  ghost predicate Guarded(ids: seq<Id>) {
    forall steps :: HasIds(steps, ids) && !Cyclic(Adjacency(steps)) ==> !Cyclic(FirstGraph(steps))
  }

  /** A plan in which only step `f` has a dependency, on its own id. */
  function SelfLoop(ids: seq<Id>, f: nat): seq<PlanStep>
    requires f < |ids|
  {
    seq(|ids|, i requires 0 <= i < |ids| => PlanStep(ids[i], "", if i == f then [ids[f]] else []))
  }

  /** Nobody, or nobody but `x`, has dependencies. */
  ghost predicate Cleared(g: Graph, x: Id, all: bool) {
    forall y | y in g && (all || y != x) :: g[y] == []
  }

  lemma StepClears(g: Graph, id: Id, deps: seq<Id>, x: Id, all: bool)
    requires Cleared(g, x, all)
    ensures deps == [] ==> Cleared(g[id := deps], x, all || id == x)
    ensures id == x && !all ==> Cleared(g[id := deps], x, false)
  {
  }

  /** When only step `f` has dependencies, a later step of its id overwrites all the detector might see. */
  lemma {:induction false} Overwritten(steps: seq<PlanStep>, f: nat, j: nat, n: nat, known: set<Id>)
    requires f < j < |steps| && steps[f].stepId == steps[j].stepId && n <= |steps|
    requires forall k | 0 <= k < |steps| && k != f :: steps[k].dependsOn == []
    ensures Cleared(AdjacencyUpTo(steps[..n], known), steps[f].stepId, n > j)
  {
    hide Cleared, AdjacencyUpTo;
    var x := steps[f].stepId;
    if n == 0 {
      NothingYet(steps, known, x);
    } else {
      var g, last := AdjacencyUpTo(steps[..n - 1], known), steps[n - 1];
      Overwritten(steps, f, j, n - 1, known);
      AdjacencyStep(steps, n - 1, known);
      StepClears(g, last.stepId, KeepKnown(last.dependsOn, known), x, n - 1 > j);
      ClearedEither(AdjacencyUpTo(steps[..n], known), x);
    }
  }

  lemma NothingYet(steps: seq<PlanStep>, known: set<Id>, x: Id)
    ensures Cleared(AdjacencyUpTo(steps[..0], known), x, false)
  {
  }

  lemma ClearedEither(g: Graph, x: Id)
    ensures Cleared(g, x, true) ==> Cleared(g, x, false)
  {
  }

  lemma AdjacencyStep(steps: seq<PlanStep>, k: nat, known: set<Id>)
    requires k < |steps|
    ensures AdjacencyUpTo(steps[..k + 1], known)
            == AdjacencyUpTo(steps[..k], known)[steps[k].stepId := KeepKnown(steps[k].dependsOn, known)]
  {
    assert steps[..k + 1][..k] == steps[..k];
  }

  lemma NoEdgesNoCycle(g: Graph)
    requires exists x :: Cleared(g, x, true)
    ensures !Cyclic(g)
  {
    forall p ensures !IsCycle(g, p) {
      if IsCycle(g, p) {
        CycleHasEdge(g, p);
      }
    }
  }

  lemma CycleHasEdge(g: Graph, p: seq<Id>)
    requires IsCycle(g, p)
    ensures p[0] in g && g[p[0]] != []
  {
    assert Edge(g, p[0], p[0 + 1]);
  }

  /** The first of two steps with one id depends on that id: the detector sees no cycle, the guard does not
      end. */
  lemma RepeatedIdEscapesDetector(ids: seq<Id>, f: nat, j: nat)
    requires f < j < |ids| && ids[f] == ids[j] && forall k | 0 <= k < f :: ids[k] != ids[f]
    ensures HasIds(SelfLoop(ids, f), ids)
    ensures !Cyclic(Adjacency(SelfLoop(ids, f))) && Cyclic(FirstGraph(SelfLoop(ids, f)))
  {
    var steps := SelfLoop(ids, f);
    assert HasIds(steps, ids) && steps[f].dependsOn == [ids[f]];
    assert forall k | 0 <= k < |ids| && k != f :: steps[k].dependsOn == [];
    hide SelfLoop, AdjacencyUpTo;
    assert forall k | 0 <= k < |ids| :: steps[k].stepId == ids[k];
    Overwritten(steps, f, j, |ids|, StepIds(steps));
    assert steps[..|ids|] == steps;
    NoEdgesNoCycle(Adjacency(steps));
    FindStepIsFirst(steps, ids[f], f);
    GuardLoops(steps, f);
  }

  lemma GuardLoops(steps: seq<PlanStep>, f: nat)
    requires f < |steps| && FindStep(steps, steps[f].stepId) == Some(steps[f]) && steps[f].dependsOn == [steps[f].stepId]
    ensures Cyclic(FirstGraph(steps))
  {
    var h, x := FirstGraph(steps), steps[f].stepId;
    assert steps[f] in steps && h[x] == [x];
    assert Edge(h, x, x) && IsCycle(h, [x, x]);
  }

  lemma {:induction false} FirstOccurrence(ids: seq<Id>, i: nat) returns (f: nat)
    requires i < |ids|
    ensures f <= i && ids[f] == ids[i] && forall k | 0 <= k < f :: ids[k] != ids[f]
  {
    if k: nat :| k < i && ids[k] == ids[i] {
      f := FirstOccurrence(ids, k);
    } else {
      f := i;
    }
  }

  /** The detector guards the depth computation of every plan with given step ids exactly when the ids are
      distinct: of steps with one id the detector keeps the last, the computation the first. */
  lemma DetectorGuardsIffDistinct(ids: seq<Id>)
    ensures Guarded(ids) <==> Distinct(ids)
  {
    if Distinct(ids) {
      forall steps | HasIds(steps, ids) && !Cyclic(Adjacency(steps)) ensures !Cyclic(FirstGraph(steps)) {
        DetectorGuardsDepth(steps);
      }
    } else {
      var i, j :| 0 <= i < j < |ids| && ids[i] == ids[j];
      var f := FirstOccurrence(ids, i);
      RepeatedIdEscapesDetector(ids, f, j);
    }
  }
}

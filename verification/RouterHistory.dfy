/** What the router remembers of a whole run: how many calls it posted to each compartment, and what was declared
    when a compartment registered. */
module RouterHistory {
  import opened Wrappers
  import opened RouterState
  import opened RouterInvariant
  import opened RouterEvents
  import opened RouterRuns
  import opened RouterSlots
  import opened RouterDeadlines
  import opened RouterOutcomes

  // ---- delivery counters ----

  ghost function PostedTo(s: State, t: PluginId): set<nat> {
    set c | 0 <= c < |s.calls| && s.calls[c].item.target == t && s.calls[c].posts > 0
  }

  /** The counter of a compartment counts the calls posted to it. */
  ghost predicate Counted(s: State) {
    && (forall t | t in s.delivered :: s.delivered[t] == |PostedTo(s, t)|)
    && (forall t | t !in s.delivered :: PostedTo(s, t) == {})
  }

  ghost predicate SamePosts(s: State, s': State, but: set<nat>) {
    && |s.calls| <= |s'.calls|
    && (forall d | 0 <= d < |s.calls| :: s'.calls[d].item == s.calls[d].item)
    && (forall d | 0 <= d < |s.calls| && d !in but :: s'.calls[d].posts == s.calls[d].posts)
    && (forall d | |s.calls| <= d < |s'.calls| && d !in but :: s'.calls[d].posts == 0)
  }

  /** The step posts no call and counts none. */
  ghost predicate PostsNone(s: State, s': State) {
    SamePosts(s, s', {}) && s'.delivered == s.delivered
  }

  /** The step posts call `c` for the first time and counts it. */
  ghost predicate PostsOne(s: State, s': State, c: nat) {
    && SamePosts(s, s', {c}) && c < |s'.calls| && s'.calls[c].posts == 1 && (c < |s.calls| ==> s.calls[c].posts == 0)
    && var t := s'.calls[c].item.target; t in s.delivered && s'.delivered == s.delivered[t := s.delivered[t] + 1]
  }

  lemma NoneCounted(s: State, s': State)
    requires Counted(s) && PostsNone(s, s')
    ensures Counted(s')
  {
    forall t ensures PostedTo(s', t) == PostedTo(s, t) {
    }
  }

  lemma OneCounted(s: State, s': State, c: nat)
    requires Counted(s) && PostsOne(s, s', c)
    ensures Counted(s')
  {
    hide SamePosts, PostedTo, PostsOne;
    forall t ensures if t in s'.delivered then s'.delivered[t] == |PostedTo(s', t)| else PostedTo(s', t) == {} {
      OneCountedAt(s, s', c, t);
    }
  }

  lemma OneCountedAt(s: State, s': State, c: nat, t: PluginId)
    requires Counted(s) && PostsOne(s, s', c)
    ensures if t in s'.delivered then s'.delivered[t] == |PostedTo(s', t)| else PostedTo(s', t) == {}
  {
    hide SamePosts, PostedTo;
    PostedAfter(s, s', c, t);
    var before := PostedTo(s, t);
    if t == s'.calls[c].item.target {
      assert PostedTo(s', t) == before + {c} && |before + {c}| == |before| + 1;
    } else {
      assert PostedTo(s', t) == before + {} == before;
    }
  }

  lemma PostedAfter(s: State, s': State, c: nat, t: PluginId)
    requires SamePosts(s, s', {c}) && c < |s'.calls| && s'.calls[c].posts > 0 && (c < |s.calls| ==> s.calls[c].posts == 0)
    ensures PostedTo(s', t) == PostedTo(s, t) + (if t == s'.calls[c].item.target then {c} else {}) && c !in PostedTo(s, t)
  {
    forall d ensures d in PostedTo(s', t) <==> d in PostedTo(s, t) || (d == c && t == s'.calls[c].item.target) {
      if 0 <= d < |s'.calls| && d != c {
        assert d !in {c};
      }
    }
  }

  lemma EndPosts(s: State, s': State, key: Key, r: PortResult)
    requires Valid(s) && key in s.pending && EndsServed(s, s', key, r)
    ensures PostsNone(s, s') || exists c :: PostsOne(s, s', c)
  {
    hide Inv, PlacesPassed, Late;
    var t := s.pending[key].target;
    var q, n := Queue(s, t), LateCount(Queue(s, t), s.clock);
    QueuedLinks(s, t);
    QueuedUnposted(s, t);
    ServedCall(s, key);
    ServedNotQueuedHere(s, key);
    if n < |q| {
      assert !AmongFirst(q, n, q[n].call);
      assert PostsOne(s, s', q[n].call);
    }
  }

  lemma ServedNotQueuedHere(s: State, key: Key)
    requires Valid(s) && key in s.pending
    ensures forall i | 0 <= i < |Queue(s, s.pending[key].target)| :: Queue(s, s.pending[key].target)[i].call != s.pending[key].call
  {
    hide Inv;
    ServedCall(s, key);
    ServedNotQueued(s, key);
  }

  lemma QueuedUnposted(s: State, t: PluginId)
    requires Valid(s)
    ensures var q := Queue(s, t);
            && (forall i | 0 <= i < |q| :: q[i].call < |s.calls| && s.calls[q[i].call].posts == 0 && q[i].target == t && t in s.delivered)
            && (forall i, j | 0 <= i < j < |q| :: q[i].call != q[j].call)
  {
    hide CallsOk, PendingOk, PlacesOk, KeysOk, SlotsOk, TimersOk, AdmissionOk;
    var q := Queue(s, t);
    forall i | 0 <= i < |q| ensures q[i].call < |s.calls| && s.calls[q[i].call].item == q[i] && s.calls[q[i].call].posts == 0 && q[i].target == t && t in s.delivered {
      assert q[i] in At(s.waiting, t);
    }
    assert InOrder(q);
  }

  lemma HandedPosts(s: State, s': State, it: Item)
    requires HandedOver(s, s', it) && it.call == |s.calls|
    ensures PostsNone(s, s') || exists c :: PostsOne(s, s', c)
  {
    if s'.calls[|s.calls|].posts > 0 {
      assert PostsOne(s, s', |s.calls|);
    }
  }

  lemma RegisterCounted(s: State, id: PluginId, cap: Option<int>, priorities: map<string, Priority>)
    requires Counted(s) && id !in s.delivered
    ensures Counted(Register(s, id, cap, priorities))
  {
    forall t ensures PostedTo(Register(s, id, cap, priorities), t) == PostedTo(s, t) {
    }
  }

  lemma StepCounted(s: State, e: Event)
    requires Valid(s) && Enabled(s, e) && Counted(s)
    ensures Counted(Step(s, e))
  {
    hide Inv, Counted, Deliver, OnReturn, OnTimer, OnChunk, FailInflight, Register, EndsServed, HandedOver, PostsNone, PostsOne;
    match e
    case DeliverEv(t, key, op, deadlineMs, streaming) =>
      DeliverIsExact(s, t, key, op, deadlineMs, streaming);
      HandedPosts(s, Step(s, e), Step(s, e).calls[|s.calls|].item);
      Recount(s, Step(s, e));
    case ReturnEv(plugin, key, r) =>
      ReturnIsExact(s, plugin, key, r);
      if key in s.pending {
        EndPosts(s, Step(s, e), key, r);
        Recount(s, Step(s, e));
      }
    case TimerEv(c) =>
      TimerIsExact(s, c);
      EndPosts(s, Step(s, e), s.calls[c].item.key, RUN_BUDGET);
      Recount(s, Step(s, e));
    case ChunkEv(from, key, chunk) =>
      ChunkIsExact(s, from, key, chunk);
      assert PostsNone(s, Step(s, e)) by { ChunkPostsNone(s, Step(s, e)); }
      Recount(s, Step(s, e));
    case FailEv(t, reason) =>
      FailIsExact(s, t, reason);
      assert PostsNone(s, Step(s, e)) by { ChunkPostsNone(s, Step(s, e)); }
      Recount(s, Step(s, e));
    case RegisterEv(id, cap, priorities) => RegisterCounted(s, id, cap, priorities);
    case TickEv(_) =>
      assert PostsNone(s, Step(s, e)) by { ChunkPostsNone(s, Step(s, e)); }
      Recount(s, Step(s, e));
  }

  lemma ChunkPostsNone(s: State, s': State)
    requires |s'.calls| == |s.calls| && s'.delivered == s.delivered
    requires forall c | 0 <= c < |s.calls| :: s'.calls[c].item == s.calls[c].item && s'.calls[c].posts == s.calls[c].posts
    ensures PostsNone(s, s')
  {
  }

  lemma Recount(s: State, s': State)
    requires Counted(s) && (PostsNone(s, s') || exists c :: PostsOne(s, s', c))
    ensures Counted(s')
  {
    hide Counted, PostsNone, PostsOne;
    if c :| PostsOne(s, s', c) {
      OneCounted(s, s', c);
    } else {
      NoneCounted(s, s');
    }
  }

  lemma {:induction false} RunsCount(s: State, es: seq<Event>, s': State)
    requires Valid(s) && Runs(s, es, s') && Counted(s)
    ensures Counted(s')
    decreases |es|
  {
    hide Inv, Step, Enabled, Counted;
    if es != [] {
      StepCounted(s, es[0]);
      StepInv(s, es[0]);
      RunsCount(Step(s, es[0]), es[1..], s');
    }
  }

  lemma NothingCounted()
    ensures Counted(INITIAL)
  {
  }

  /** In every run from the start the delivery counter of a compartment is the number of calls posted to it. */
  lemma CountersCountPosts(es: seq<Event>, s: State)
    requires Runs(INITIAL, es, s)
    ensures forall t | t in s.delivered :: s.delivered[t] == |PostedTo(s, t)|
  {
    InitialIsValid();
    NothingCounted();
    RunsCount(INITIAL, es, s);
  }

  // ---- declarations ----

  /** No compartment that registers in `es` declares a class for the op. */
  predicate NotDeclared(es: seq<Event>, op: string) {
    forall i | 0 <= i < |es| && es[i].RegisterEv? :: op !in es[i].priorities
  }

  lemma DeclaredStep(s: State, e: Event)
    requires Valid(s) && Enabled(s, e)
    ensures e.RegisterEv? ==>
              && Step(s, e).delivered == s.delivered[e.id := 0]
              && MaxInflight(Step(s, e), e.id) == (if e.cap.Some? then e.cap.value else 4)
              && (forall t | t != e.id :: MaxInflight(Step(s, e), t) == MaxInflight(s, t))
              && (forall op :: op in Step(s, e).opPriority <==> op in e.priorities || op in s.opPriority)
              && (forall op | op in Step(s, e).opPriority ::
                    Step(s, e).opPriority[op] == if op in e.priorities then e.priorities[op] else s.opPriority[op])
    ensures !e.RegisterEv? ==> Step(s, e).delivered.Keys == s.delivered.Keys && Step(s, e).caps == s.caps && Step(s, e).opPriority == s.opPriority
  {
    hide Inv, Deliver, OnReturn, OnTimer, OnChunk, FailInflight, CallsEnded, PlacesPassed;
    match e
    case DeliverEv(t, key, op, deadlineMs, streaming) => DeliverIsExact(s, t, key, op, deadlineMs, streaming);
    case ReturnEv(plugin, key, r) => ReturnIsExact(s, plugin, key, r);
    case TimerEv(c) => TimerIsExact(s, c);
    case ChunkEv(from, key, chunk) => ChunkIsExact(s, from, key, chunk);
    case FailEv(t, reason) => FailIsExact(s, t, reason);
    case RegisterEv(_, _, _) =>
    case TickEv(_) =>
  }

  /** Over any run a compartment keeps the cap with which it registered, 4 without one. */
  lemma {:induction false} CapIsDeclared(s: State, es: seq<Event>, s': State, id: PluginId)
    requires Valid(s) && Runs(s, es, s')
    ensures id in s.delivered ==> id in s'.delivered && MaxInflight(s', id) == MaxInflight(s, id)
    ensures forall i | 0 <= i < |es| && es[i].RegisterEv? && es[i].id == id ::
              MaxInflight(s', id) == if es[i].cap.Some? then es[i].cap.value else 4
    decreases |es|
  {
    hide Inv, Step;
    if es != [] {
      DeclaredStep(s, es[0]);
      StepInv(s, es[0]);
      assert es[0].RegisterEv? ==> es[0].id !in s.delivered;
      hide Enabled;
      CapIsDeclared(Step(s, es[0]), es[1..], s', id);
      assert forall i | 0 < i < |es| :: es[i] == es[1..][i - 1];
    }
  }

  /** Over any run the class of an op is the one declared last, or the one before the run. */
  lemma {:induction false} PriorityIsDeclared(s: State, es: seq<Event>, s': State, op: string)
    requires Valid(s) && Runs(s, es, s')
    ensures NotDeclared(es, op) ==> (op in s'.opPriority <==> op in s.opPriority) && (op in s.opPriority ==> s'.opPriority[op] == s.opPriority[op])
    ensures forall i | 0 <= i < |es| && es[i].RegisterEv? && op in es[i].priorities && NotDeclared(es[i + 1..], op) ::
              op in s'.opPriority && s'.opPriority[op] == es[i].priorities[op]
    decreases |es|
  {
    hide Inv, Step;
    if es != [] {
      DeclaredStep(s, es[0]);
      StepInv(s, es[0]);
      hide Enabled;
      PriorityIsDeclared(Step(s, es[0]), es[1..], s', op);
      assert forall i | 0 < i < |es| :: es[i] == es[1..][i - 1] && es[i + 1..] == es[1..][i..];
    }
  }
}

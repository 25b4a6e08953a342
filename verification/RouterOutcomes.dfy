/** Why calls are answered and when they are posted, on every run, and what a crash takes away. */
module RouterOutcomes {
  import opened Wrappers
  import opened Ordered
  import opened RouterState
  import opened RouterInvariant
  import opened RouterEvents
  import opened RouterRuns
  import opened RouterSlots
  import opened RouterDeadlines

  // ---- crash and terminate ----

  /** What a crash or termination of `t` leaves: its queue, slots, pending calls and timers are gone, those of
      other compartments stay. */
  ghost predicate Cleared(s: State, s': State, t: PluginId) {
    && (forall u :: Queue(s', u) == if u == t then [] else Queue(s, u))
    && (forall u :: Inflight(s', u) == if u == t then [] else Inflight(s, u))
    && s'.pending == (map k | k in s.pending && s.pending[k].target != t :: s.pending[k])
    && s'.timers == (map c | c in s.timers && (c < |s.calls| ==> s.calls[c].item.target != t) :: s.timers[c])
    && s'.delivered == s.delivered && s'.clock == s.clock && s'.caps == s.caps && s'.opPriority == s.opPriority
  }

  /** Nothing but what is at `t` may have gone. */
  ghost predicate OnlyAt(s: State, s': State, t: PluginId) {
    && |s'.calls| == |s.calls| && (forall c | 0 <= c < |s.calls| :: s'.calls[c].item == s.calls[c].item)
    && (forall u | u != t :: Queue(s', u) == Queue(s, u) && Inflight(s', u) == Inflight(s, u))
    && (forall k | k in s'.pending :: k in s.pending && s'.pending[k] == s.pending[k])
    && (forall k | k in s.pending && s.pending[k].target != t :: k in s'.pending)
    && s'.delivered == s.delivered && s'.clock == s.clock && s'.caps == s.caps && s'.opPriority == s.opPriority
  }

  lemma OnlyAtTransitive(a: State, b: State, c: State, t: PluginId)
    requires OnlyAt(a, b, t) && OnlyAt(b, c, t)
    ensures OnlyAt(a, c, t)
  {
    assert forall i | 0 <= i < |a.calls| :: c.calls[i].item == b.calls[i].item;
    assert forall u | u != t :: Queue(c, u) == Queue(b, u) && Inflight(c, u) == Inflight(b, u);
  }

  lemma {:induction false} FailQueueOnlyAt(s: State, t: PluginId, r: PortResult)
    requires QueueReady(s, t)
    ensures OnlyAt(s, FailQueue(s, t, r), t)
    decreases |Queue(s, t)|
  {
    hide OnlyAt;
    if Queue(s, t) == [] {
      SameOnlyAt(s, t);
    } else {
      var next := Settle(Pop(s, t), Queue(s, t)[0].call, r);
      assert Queue(s, t)[0] in Queue(s, t);
      PoppedOnlyAt(s, t, r);
      FailQueueOnlyAt(next, t, r);
      OnlyAtTransitive(s, next, FailQueue(s, t, r), t);
    }
  }

  lemma SameOnlyAt(s: State, t: PluginId)
    ensures OnlyAt(s, s, t) && OnlyAt(s, s.(waiting := s.waiting - {t}), t)
  {
  }

  lemma PoppedOnlyAt(s: State, t: PluginId, r: PortResult)
    requires Queue(s, t) != [] && Queue(s, t)[0].call < |s.calls|
    ensures OnlyAt(s, Settle(Pop(s, t), Queue(s, t)[0].call, r), t)
  {
  }

  lemma {:induction false} FailKeysOnlyAt(s: State, t: PluginId, r: PortResult)
    requires Inv(s, {}, None) && Queue(s, t) == []
    requires forall k | k in s.pending :: s.pending[k].call < |s.calls|
    ensures OnlyAt(s, FailKeys(s, t, r), t)
    decreases |Inflight(s, t)|
  {
    hide Inv, OnlyAt, FailedFirst;
    if Inflight(s, t) != [] {
      FailFirst(s, t, r);
      FirstKey(s, t);
      FirstOnlyAt(s, t, r);
      FailKeysOnlyAt(FailedFirst(s, t, r), t, r);
      OnlyAtTransitive(s, FailedFirst(s, t, r), FailKeys(s, t, r), t);
    } else {
      SameOnlyAt(s, t);
      assert FailKeys(s, t, r) == s;
    }
  }

  lemma FirstOnlyAt(s: State, t: PluginId, r: PortResult)
    requires Inflight(s, t) != [] && Inflight(s, t)[0] in s.pending
    requires s.pending[Inflight(s, t)[0]].call < |s.calls| && s.pending[Inflight(s, t)[0]].target == t
    ensures OnlyAt(s, FailedFirst(s, t, r), t)
  {
    hide Without;
  }

  /** A crash or termination answers exactly the outstanding calls of that compartment, each with the stated
      reason, and clears its places alone. */
  lemma FailIsExact(s: State, t: PluginId, reason: string)
    requires Valid(s)
    ensures var s' := Step(s, FailEv(t, reason));
            && Cleared(s, s', t) && |s'.calls| == |s.calls|
            && forall c | 0 <= c < |s.calls| ::
                 s'.calls[c] == if s.calls[c].results == [] && s.calls[c].item.target == t
                                then s.calls[c].(results := [Err(Degraded, reason)]) else s.calls[c]
  {
    hide Inv, FailQueue, FailKeys, Cleared, OnlyAt;
    InvIsReady(s, {}, None);
    var s', r := Step(s, FailEv(t, reason)), Err(Degraded, reason);
    FailSettles(s, t, reason);
    forall c | 0 <= c < |s.calls|
      ensures s'.calls[c] == if s.calls[c].results == [] && s.calls[c].item.target == t then s.calls[c].(results := [r]) else s.calls[c]
    {
      FailResolvesExactly(s, t, reason, c);
    }
    FailQueueFrame(s, t, r);
    FailQueueInv(s, t, r);
    FailQueueOnlyAt(s, t, r);
    var failed := FailQueue(s, t, r);
    var flushed := failed.(waiting := failed.waiting - {t});
    DropQueueInv(failed, t);
    SameOnlyAt(failed, t);
    FailKeysOnlyAt(flushed, t, r);
    OnlyAtTransitive(s, failed, flushed, t);
    OnlyAtTransitive(s, flushed, s', t);
    FailInv(s, t, reason);
    ClearedFrom(s, s', t);
  }

  lemma ClearedFrom(s: State, s': State, t: PluginId)
    requires Valid(s) && Valid(s') && OnlyAt(s, s', t) && Queue(s', t) == [] && Inflight(s', t) == []
    ensures Cleared(s, s', t)
  {
    hide CallsOk, PendingOk, QueuesOk, PlacesOk, KeysOk, SlotsOk, TimersOk, AdmissionOk;
    PendingFrom(s, s', t);
    forall c: nat ensures (c in s'.timers <==> c in s.timers && (c < |s.calls| ==> s.calls[c].item.target != t))
                     && (c in s'.timers && c in s.timers ==> s'.timers[c] == s.timers[c])
    {
      TimersFrom(s, s', t, c);
    }
  }

  lemma PendingFrom(s: State, s': State, t: PluginId)
    requires SlotsOk(s'.inflight, s'.pending, s'.delivered.Keys) && OnlyAt(s, s', t) && Inflight(s', t) == []
    ensures s'.pending == map k | k in s.pending && s.pending[k].target != t :: s.pending[k]
  {
  }

  lemma TimersFrom(s: State, s': State, t: PluginId, c: nat)
    requires Valid(s) && Valid(s') && OnlyAt(s, s', t)
    requires s'.pending == map k | k in s.pending && s.pending[k].target != t :: s.pending[k]
    ensures c in s'.timers <==> c in s.timers && (c < |s.calls| ==> s.calls[c].item.target != t)
    ensures c in s'.timers && c in s.timers ==> s'.timers[c] == s.timers[c]
  {
    hide CallsOk, PendingOk, QueuesOk, PlacesOk, KeysOk, SlotsOk, AdmissionOk;
    if c < |s.calls| {
      assert Serving(s'.calls[c], s'.pending) <==> Serving(s.calls[c], s.pending) && s.calls[c].item.target != t;
    }
  }

  // ---- budgets are kept, on every run ----

  /** The step gives call `c` its result `r`. */
  ghost predicate Answers(s: State, s': State, c: nat, r: PortResult) {
    c < |s'.calls| && s'.calls[c].results == [r] && (c < |s.calls| ==> s.calls[c].results == [])
  }

  ghost predicate Posts(s: State, s': State, c: nat) {
    c < |s'.calls| && s'.calls[c].posts > if c < |s.calls| then s.calls[c].posts else 0
  }

  /** Why a step of the router can answer a call: its compartment returned that, it is late, its target is not
      registered, or its target failed. */
  ghost predicate Cause(s: State, e: Event, it: Item, posts: nat, r: PortResult) {
    || e == ReturnEv(it.target, it.key, r)
    || (Late(it, s.clock) && r == Err(Budget, if posts > 0 then "deadline exceeded" else "deadline exceeded in queue"))
    || (e.DeliverEv? && e.target == it.target && it.target !in s.delivered && r == Err(Refused, "no compartment"))
    || (e.FailEv? && e.failed == it.target && r == Err(Degraded, e.reason))
  }

  lemma OfferedCause(s: State, hands: set<nat>, free: Option<PluginId>, t: PluginId, c: nat, after: CallLog)
    requires Inv(s, hands, free) && c < |s.calls| && after == OfferedTo(Queue(s, t), LateCount(Queue(s, t), s.clock), c, s.calls[c])
    ensures after.item == s.calls[c].item
    ensures after.results != s.calls[c].results ==>
              Late(after.item, s.clock) && after.posts == 0 && after.results == s.calls[c].results + [QUEUE_BUDGET]
    ensures after.posts != s.calls[c].posts ==> !Late(after.item, s.clock) && after.item.target == t && s.calls[c].posts == 0 && after.posts == 1
  {
    hide CallsOk, PendingOk, PlacesOk, KeysOk, SlotsOk, TimersOk, AdmissionOk, InOrder, LateCount, Late;
    var q := Queue(s, t);
    forall i | 0 <= i < |q| ensures q[i].call < |s.calls| && s.calls[q[i].call].item == q[i] && s.calls[q[i].call].posts == 0 && q[i].target == t {
      assert q[i] in At(s.waiting, t);
    }
  }

  /** A step answers a call only with cause. */
  lemma AnswerHasCause(s: State, e: Event, c: nat, r: PortResult)
    requires Valid(s) && Enabled(s, e) && Answers(s, Step(s, e), c, r)
    ensures Cause(s, e, Step(s, e).calls[c].item, Step(s, e).calls[c].posts, r)
  {
    hide Inv, Step, Enabled, OfferedTo, LateCount, Late, HandedOver, SlotPassed, Cleared, CallsEnded;
    match e
    case ReturnEv(plugin, key, result) =>
      ReturnIsExact(s, plugin, key, result);
      if key in s.pending {
        ReturnFromServer(s, plugin, key, result);
        EndAnswers(s, Step(s, e), key, result, c, r);
      }
    case TimerEv(d) =>
      TimerIsExact(s, d);
      EndAnswers(s, Step(s, e), s.calls[d].item.key, RUN_BUDGET, c, r);
    case DeliverEv(t, key, op, deadlineMs, streaming) =>
      DeliverIsExact(s, t, key, op, deadlineMs, streaming);
      NewCallCause(s, Step(s, e), Step(s, e).calls[|s.calls|].item, c, r);
    case FailEv(t, reason) => FailIsExact(s, t, reason);
    case ChunkEv(from, key, chunk) => ChunkIsExact(s, from, key, chunk);
    case RegisterEv(_, _, _) => SameCalls(s, e);
    case TickEv(_) => SameCalls(s, e);
  }

  lemma EndAnswers(s: State, s': State, key: Key, result: PortResult, c: nat, r: PortResult)
    requires Valid(s) && key in s.pending && CallsEnded(s, s', key, result) && Answers(s, s', c, r)
    ensures var log := s'.calls[c];
            || (log.item == s.pending[key] && log.item.key == key && r == result && log.posts > 0)
            || (Late(log.item, s.clock) && r == QUEUE_BUDGET && log.posts == 0)
  {
    hide Inv, OfferedTo, LateCount, Late;
    EndCause(s, s', key, result, c);
    assert ([r])[0] == r && ([] + [QUEUE_BUDGET])[0] == QUEUE_BUDGET && ([result])[0] == result;
  }

  lemma SameCalls(s: State, e: Event)
    requires Valid(s) && Enabled(s, e) && (e.RegisterEv? || e.TickEv?)
    ensures Step(s, e).calls == s.calls
  {
    hide Inv;
  }

  lemma ReturnFromServer(s: State, plugin: PluginId, key: Key, r: PortResult)
    requires Valid(s) && Enabled(s, ReturnEv(plugin, key, r)) && key in s.pending
    ensures s.pending[key].target == plugin
  {
    ServedBy(s, plugin, key);
  }

  lemma NewCallCause(s: State, s': State, it: Item, c: nat, r: PortResult)
    requires HandedOver(s, s', it) && |s'.calls| > |s.calls| && Answers(s, s', c, r)
    ensures s'.calls[c].item == it && it.target !in s.delivered && r == Err(Refused, "no compartment")
  {
  }

  /** Of the calls a served one's end touches: itself with the given result, or a late one in its queue. */
  lemma EndCause(s: State, s': State, key: Key, result: PortResult, c: nat)
    requires Valid(s) && key in s.pending && CallsEnded(s, s', key, result)
    ensures c < |s.calls| && s'.calls[c].results != s.calls[c].results ==>
              || (s'.calls[c].item == s.pending[key] && s'.calls[c].item.key == key && s'.calls[c].results == [result] && s'.calls[c].posts > 0)
              || (Late(s'.calls[c].item, s.clock) && s'.calls[c].posts == 0 && s'.calls[c].results == s.calls[c].results + [QUEUE_BUDGET])
    ensures c < |s.calls| && s'.calls[c].posts != s.calls[c].posts ==>
              !Late(s'.calls[c].item, s.clock) && s'.calls[c].item.target == s.pending[key].target && s.calls[c].posts == 0 && s'.calls[c].posts == 1
  {
    hide Inv, OfferedTo, LateCount, Late;
    ServedCall(s, key);
    if c < |s.calls| && c != s.pending[key].call {
      OfferedCause(s, {}, None, s.pending[key].target, c, s'.calls[c]);
    }
  }

  lemma ServedCall(s: State, key: Key)
    requires Valid(s) && key in s.pending
    ensures var it := s.pending[key];
            it.call < |s.calls| && s.calls[it.call].item == it && it.key == key && s.calls[it.call].posts == 1
  {
    hide CallsOk, QueuesOk, PlacesOk, KeysOk, SlotsOk, TimersOk, AdmissionOk;
    PendingAt(s.calls, s.pending, key);
  }

  /** A step posts a call only while it is within its deadline, and only once. */
  lemma PostIsTimely(s: State, e: Event, c: nat)
    requires Valid(s) && Enabled(s, e) && Posts(s, Step(s, e), c)
    ensures !Late(Step(s, e).calls[c].item, s.clock)
    ensures (c < |s.calls| ==> s.calls[c].posts == 0) && Step(s, e).calls[c].posts == 1
  {
    hide Inv, Step, OfferedTo, LateCount, SlotPassed, Cleared;
    match e
    case ReturnEv(plugin, key, result) =>
      ReturnIsExact(s, plugin, key, result);
      if key in s.pending {
        EndCause(s, Step(s, e), key, result, c);
      }
    case TimerEv(d) =>
      TimerIsExact(s, d);
      EndCause(s, Step(s, e), s.calls[d].item.key, RUN_BUDGET, c);
    case DeliverEv(t, key, op, deadlineMs, streaming) => DeliverIsExact(s, t, key, op, deadlineMs, streaming);
    case FailEv(t, reason) => FailIsExact(s, t, reason);
    case ChunkEv(from, key, chunk) => ChunkIsExact(s, from, key, chunk);
    case RegisterEv(_, _, _) => SameCalls(s, e);
    case TickEv(_) => SameCalls(s, e);
  }

  /** At the i-th event the run is in state `mid`. */
  ghost predicate Moment(s: State, es: seq<Event>, i: int, mid: State) {
    0 <= i < |es| && Runs(s, es[..i], mid) && Valid(mid) && Enabled(mid, es[i])
  }

  ghost predicate AnsweredAt(s: State, es: seq<Event>, i: int, mid: State, c: nat, it: Item, posts: nat, r: PortResult) {
    Moment(s, es, i, mid) && Answers(mid, Step(mid, es[i]), c, r) && Cause(mid, es[i], it, posts, r)
  }

  ghost predicate PostedAt(s: State, es: seq<Event>, i: int, mid: State, c: nat, it: Item) {
    Moment(s, es, i, mid) && Posts(mid, Step(mid, es[i]), c) && !Late(it, mid.clock)
  }

  lemma LaterMoment(s: State, es: seq<Event>, i: int, mid: State)
    requires es != [] && Valid(s) && Enabled(s, es[0]) && Moment(Step(s, es[0]), es[1..], i, mid)
    ensures Moment(s, es, i + 1, mid) && es[i + 1] == es[1..][i]
  {
    hide Inv, Step, Enabled;
    assert es[..i + 1][0] == es[0] && es[..i + 1][1..] == es[1..][..i];
  }

  lemma FirstMoment(s: State, es: seq<Event>)
    requires es != [] && Valid(s) && Enabled(s, es[0])
    ensures Moment(s, es, 0, s)
  {
    assert es[..0] == [];
  }

  lemma LaterAnswer(s: State, es: seq<Event>, i: int, mid: State, c: nat, it: Item, posts: nat, r: PortResult)
    requires es != [] && Valid(s) && Enabled(s, es[0]) && AnsweredAt(Step(s, es[0]), es[1..], i, mid, c, it, posts, r)
    ensures AnsweredAt(s, es, i + 1, mid, c, it, posts, r)
  {
    hide Inv, Step, Enabled, Cause, Answers;
    LaterMoment(s, es, i, mid);
  }

  lemma LaterPost(s: State, es: seq<Event>, i: int, mid: State, c: nat, it: Item)
    requires es != [] && Valid(s) && Enabled(s, es[0]) && PostedAt(Step(s, es[0]), es[1..], i, mid, c, it)
    ensures PostedAt(s, es, i + 1, mid, c, it)
  {
    hide Inv, Step, Enabled, Late, Posts;
    LaterMoment(s, es, i, mid);
  }

  /** Over any run every answer had its cause when it was given: BUDGET only to a call past its deadline, unless
      its compartment itself returned that; DEGRADED when the target failed; REFUSED when it was not there. */
  lemma {:induction false} AnswersHaveCauses(s: State, es: seq<Event>, s': State, c: nat, r: PortResult)
    requires Valid(s) && Runs(s, es, s') && Answers(s, s', c, r)
    ensures exists i, mid :: AnsweredAt(s, es, i, mid, c, s'.calls[c].item, s'.calls[c].posts, r)
    decreases |es|
  {
    hide Inv, Step, Enabled, Cause, Extends, AnsweredAt, Moment;
    var next := Step(s, es[0]);
    StepInv(s, es[0]);
    ResolvedOnce(next, es[1..], s');
    if c < |next.calls| && next.calls[c].results != [] {
      KeptCall(next, s', c);
      AnswerHasCause(s, es[0], c, r);
      FirstMoment(s, es);
      assert AnsweredAt(s, es, 0, s, c, s'.calls[c].item, s'.calls[c].posts, r) by { FirstAnswer(s, es, c, r); }
    } else {
      AnswersHaveCauses(next, es[1..], s', c, r);
      var i, mid :| AnsweredAt(next, es[1..], i, mid, c, s'.calls[c].item, s'.calls[c].posts, r);
      LaterAnswer(s, es, i, mid, c, s'.calls[c].item, s'.calls[c].posts, r);
    }
  }

  lemma FirstAnswer(s: State, es: seq<Event>, c: nat, r: PortResult)
    requires Moment(s, es, 0, s) && Answers(s, Step(s, es[0]), c, r)
    requires Cause(s, es[0], Step(s, es[0]).calls[c].item, Step(s, es[0]).calls[c].posts, r)
    ensures AnsweredAt(s, es, 0, s, c, Step(s, es[0]).calls[c].item, Step(s, es[0]).calls[c].posts, r)
  {
  }

  /** Over any run a call is posted only while it is within its deadline. */
  lemma {:induction false} PostsAreTimely(s: State, es: seq<Event>, s': State, c: nat)
    requires Valid(s) && Runs(s, es, s') && Posts(s, s', c)
    ensures exists i, mid :: PostedAt(s, es, i, mid, c, s'.calls[c].item)
    decreases |es|
  {
    hide Inv, Step, Enabled, Extends, Moment, Late, PostedAt;
    var next := Step(s, es[0]);
    StepInv(s, es[0]);
    ResolvedOnce(next, es[1..], s');
    if Posts(s, next, c) {
      PostIsTimely(s, es[0], c);
      SameItemIn(next, s', c);
      FirstMoment(s, es);
      assert PostedAt(s, es, 0, s, c, s'.calls[c].item) by { FirstPost(s, es, c); }
    } else {
      StepExtends(s, es[0]);
      StillUnposted(s, next, s', c);
      PostsAreTimely(next, es[1..], s', c);
      var i, mid :| PostedAt(next, es[1..], i, mid, c, s'.calls[c].item);
      LaterPost(s, es, i, mid, c, s'.calls[c].item);
    }
  }

  lemma FirstPost(s: State, es: seq<Event>, c: nat)
    requires Moment(s, es, 0, s) && Posts(s, Step(s, es[0]), c) && !Late(Step(s, es[0]).calls[c].item, s.clock)
    ensures PostedAt(s, es, 0, s, c, Step(s, es[0]).calls[c].item)
  {
  }

  lemma StillUnposted(s: State, next: State, s': State, c: nat)
    requires Extends(s, next) && !Posts(s, next, c) && Posts(s, s', c)
    ensures Posts(next, s', c)
  {
  }

  lemma KeptCall(s: State, s': State, c: nat)
    requires Extends(s, s') && c < |s.calls| && s.calls[c].results != []
    ensures c < |s'.calls| && s'.calls[c] == s.calls[c]
  {
  }

  /** So over any run a call that ends with a good result was answered by the compartment it was delivered to: the
      run holds that return, for the call's causation id and with that result. */
  lemma GoodResultWasReturned(s: State, es: seq<Event>, s': State, c: nat)
    requires Valid(s) && Runs(s, es, s') && c < |s'.calls| && (c < |s.calls| ==> s.calls[c].results == [])
    requires |s'.calls[c].results| == 1 && s'.calls[c].results[0].Ok?
    ensures exists i | 0 <= i < |es| :: es[i] == ReturnEv(s'.calls[c].item.target, s'.calls[c].item.key, s'.calls[c].results[0])
  {
    hide Inv, Step, Enabled, Runs;
    var r := s'.calls[c].results[0];
    AnswersHaveCauses(s, es, s', c, r);
    var i, mid :| AnsweredAt(s, es, i, mid, c, s'.calls[c].item, s'.calls[c].posts, r);
    assert es[i] == ReturnEv(s'.calls[c].item.target, s'.calls[c].item.key, r);
  }
}

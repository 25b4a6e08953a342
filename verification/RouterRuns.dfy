/** What every run of the delivery core guarantees: each call is in exactly one place and resolved at
    most once, admission conserves work, and deadlines are met. */
module RouterRuns {
  import opened Wrappers
  import opened Ordered
  import opened RouterState
  import opened RouterInvariant
  import opened RouterEvents

  /** `s'` is reachable from `s` by the events `es`, each enabled when it happens. */
  ghost predicate Runs(s: State, es: seq<Event>, s': State)
    decreases |es|
  {
    if es == [] then s == s'
    else Valid(s) && Enabled(s, es[0]) && Runs(Step(s, es[0]), es[1..], s')
  }

  /** Every reachable state satisfies the invariant. */
  lemma {:induction false} ReachableIsValid(s: State, es: seq<Event>, s': State)
    requires Valid(s) && Runs(s, es, s')
    ensures Valid(s')
    decreases |es|
  {
    hide Valid, Enabled, Step;
    if es != [] {
      StepInv(s, es[0]);
      ReachableIsValid(Step(s, es[0]), es[1..], s');
    }
  }

  lemma InitialIsValid()
    ensures Valid(INITIAL)
  {
    assert forall t :: Inflight(INITIAL, t) == [] && Queue(INITIAL, t) == [];
  }

  // ---- exactly one place ----

  ghost predicate ServingCall(s: State, c: nat) {
    c < |s.calls| && Serving(s.calls[c], s.pending)
  }

  /** Queued once, and only at its own target. */
  ghost predicate QueuedOnce(s: State, c: nat) {
    exists i :: QueuedAt(s, c, i) && forall t, j :: IsAt(s, c, t, j) ==> t == s.calls[c].item.target && j == i
  }

  ghost predicate QueuedAt(s: State, c: nat, i: int) {
    c < |s.calls| && 0 <= i < |Queue(s, s.calls[c].item.target)| && Queue(s, s.calls[c].item.target)[i] == s.calls[c].item
  }

  ghost predicate IsAt(s: State, c: nat, t: PluginId, j: int) {
    0 <= j < |Queue(s, t)| && Queue(s, t)[j].call == c
  }

  ghost predicate QueuedNowhere(s: State, c: nat) {
    forall t, j :: !IsAt(s, c, t, j)
  }

  /** Exactly one in-flight entry carries the call's causation id, at its target. */
  ghost predicate OneSlot(s: State, c: nat)
    requires c < |s.calls|
  {
    var it := s.calls[c].item;
    && it.key in Inflight(s, it.target) && NoRepeats(Inflight(s, it.target))
    && forall t | it.key in Inflight(s, t) :: t == it.target
  }

  /** In every valid state a delivered call is resolved exactly once and nowhere else, or served with
      exactly one in-flight entry, or queued exactly once at its target. */
  lemma ExactlyOnePlace(s: State, c: nat)
    requires Valid(s) && c < |s.calls|
    ensures |s.calls[c].results| <= 1
    ensures s.calls[c].results != [] ==> !ServingCall(s, c) && QueuedNowhere(s, c)
    ensures s.calls[c].results == [] && ServingCall(s, c) ==> OneSlot(s, c) && QueuedNowhere(s, c)
    ensures s.calls[c].results == [] && !ServingCall(s, c) ==> QueuedOnce(s, c)
  {
    hide KeysOk, TimersOk, AdmissionOk;
    QueueEntries(s, c);
    if s.calls[c].results == [] && !ServingCall(s, c) {
      hide PendingOk, SlotsOk, QueuesOk, InOrder;
      assert Waiting(s.calls[c], s.waiting);
      var i :| 0 <= i < |Queue(s, s.calls[c].item.target)| && Queue(s, s.calls[c].item.target)[i] == s.calls[c].item;
      assert QueuedAt(s, c, i);
      OnlyEntry(s, c, i);
    } else if ServingCall(s, c) {
      hide InOrder, QueuesOk;
      PendingAt(s.calls, s.pending, s.calls[c].item.key);
      ServedOnce(s, c);
    }
  }

  lemma ServedOnce(s: State, c: nat)
    requires Valid(s) && ServingCall(s, c)
    ensures OneSlot(s, c)
  {
    hide CallsOk, PendingOk, QueuesOk, PlacesOk, KeysOk, TimersOk, AdmissionOk, NoRepeats;
    var it := s.calls[c].item;
    assert it.key in s.pending && s.pending[it.key] == it;
    forall t | it.key in Inflight(s, t) ensures t == it.target {
      assert it.key in At(s.inflight, t);
    }
    assert NoRepeats(At(s.inflight, it.target));
  }

  /** A queue entry of call `c` means the call is open, unserved, and sits at its target. */
  lemma QueueEntries(s: State, c: nat)
    requires Valid(s) && c < |s.calls|
    ensures forall t, j :: IsAt(s, c, t, j) ==>
                             s.calls[c].results == [] && !ServingCall(s, c) && t == s.calls[c].item.target && Queue(s, t)[j] == s.calls[c].item
  {
    hide KeysOk, SlotsOk, TimersOk, AdmissionOk, InOrder, PlacesOk;
    forall t, j | IsAt(s, c, t, j)
      ensures s.calls[c].results == [] && !ServingCall(s, c) && t == s.calls[c].item.target && Queue(s, t)[j] == s.calls[c].item
    {
      assert Queue(s, t)[j] in At(s.waiting, t);
      NotServing(s.calls, s.pending, c);
    }
  }

  lemma OnlyEntry(s: State, c: nat, i: int)
    requires Valid(s) && QueuedAt(s, c, i) && s.calls[c].item.call == c
    ensures forall t, j :: IsAt(s, c, t, j) ==> t == s.calls[c].item.target && j == i
  {
    hide KeysOk, SlotsOk, TimersOk, AdmissionOk, PlacesOk, PendingOk;
    QueueEntries(s, c);
    var q := Queue(s, s.calls[c].item.target);
    assert InOrder(q);
    forall t, j | IsAt(s, c, t, j) ensures t == s.calls[c].item.target && j == i {
      assert q[j] == q[i];
    }
  }

  /** `pending` is the disjoint union of the in-flight sets. */
  lemma PendingIsDisjointUnion(s: State)
    requires Valid(s)
    ensures forall k :: k in s.pending <==> exists t :: k in Inflight(s, t)
    ensures forall k, t, u | k in Inflight(s, t) && k in Inflight(s, u) :: t == u
    ensures forall t :: NoRepeats(Inflight(s, t))
  {
    hide CallsOk, PendingOk, QueuesOk, PlacesOk, KeysOk, TimersOk, AdmissionOk, NoRepeats;
    forall k ensures k in s.pending <==> exists t :: k in Inflight(s, t) {
      if k in s.pending {
        assert k in Inflight(s, s.pending[k].target);
      }
      if t :| k in Inflight(s, t) {
        assert k in At(s.inflight, t);
      }
    }
    forall k, t, u | k in Inflight(s, t) && k in Inflight(s, u) ensures t == u {
      assert k in At(s.inflight, t) && k in At(s.inflight, u);
    }
    forall t ensures NoRepeats(Inflight(s, t)) {
      assert NoRepeats(At(s.inflight, t));
    }
  }

  // ---- admission ----

  /** The cap bounds the in-flight set, a call waits only behind a full one, and queues hold gate calls
      first, each class in arrival order. */
  lemma AdmissionConservesWork(s: State, t: PluginId)
    requires Valid(s)
    ensures |Inflight(s, t)| <= Max0(MaxInflight(s, t))
    ensures Queue(s, t) != [] && MaxInflight(s, t) >= 0 ==> |Inflight(s, t)| == MaxInflight(s, t)
    ensures InOrder(Queue(s, t))
  {
    hide CallsOk, PendingOk, PlacesOk, KeysOk, SlotsOk, TimersOk, InOrder;
    assert Admitted(|At(s.inflight, t)| + (if None == Some(t) then 1 else 0), At(s.waiting, t), CapOf(s.caps, t));
    assert InOrder(At(s.waiting, t));
  }

  // ---- resolved calls stay as they are ----

  /** Calls are only added; a resolved call is never touched again: no second result, no further chunk,
      no new post. */
  ghost predicate Extends(s: State, s': State) {
    && |s.calls| <= |s'.calls|
    && (forall c | 0 <= c < |s.calls| :: s'.calls[c].item == s.calls[c].item)
    && (forall c | 0 <= c < |s.calls| && s.calls[c].results != [] :: s'.calls[c] == s.calls[c])
  }

  lemma ExtendsTransitive(a: State, b: State, c: State)
    requires Extends(a, b) && Extends(b, c)
    ensures Extends(a, c)
  {
    assert forall i | 0 <= i < |a.calls| :: b.calls[i].item == a.calls[i].item;
  }

  lemma SameItemIn(s: State, s': State, c: nat)
    requires Extends(s, s') && c < |s.calls|
    ensures c < |s'.calls| && s'.calls[c].item == s.calls[c].item
  {
  }

  lemma SettleExtends(s: State, c: nat, r: PortResult)
    requires c < |s.calls| && s.calls[c].results == []
    ensures Extends(s, Settle(s, c, r))
  {
  }

  lemma HeldIsOpen(s: State, hands: set<nat>, free: Option<PluginId>, c: nat)
    requires Inv(s, hands, free) && c in hands
    ensures c < |s.calls| && s.calls[c].results == []
  {
    hide CallsOk, PendingOk, QueuesOk, KeysOk, SlotsOk, TimersOk, AdmissionOk, Serving, Waiting;
  }

  lemma {:induction false} AdmitExtends(s: State, hands: set<nat>, it: Item)
    requires Inv(s, hands, Some(it.target)) && InHand(s, hands, it) && QueueReady(s, it.target)
    ensures Extends(s, Admit(s, it))
    decreases |Queue(s, it.target)|, 2
  {
    hide Inv, InHand, Extends;
    InHandFacts(s, hands, it);
    HeldIsOpen(s, hands, Some(it.target), it.call);
    if Expired(s, it) {
      var settled := Settle(s, it.call, QUEUE_BUDGET);
      SettleInv(s, hands, Some(it.target), it.call, QUEUE_BUDGET);
      SettleExtends(s, it.call, QUEUE_BUDGET);
      NoEmptyKey(settled, hands - {it.call}, it.target);
      RefillExtends(settled, hands - {it.call}, it.target);
      ExtendsTransitive(s, settled, Refill(settled, it.target));
    } else {
      PlaceExtends(s, it);
    }
  }

  lemma PlaceExtends(s: State, it: Item)
    requires it.call < |s.calls| && it.target in s.delivered && s.calls[it.call].results == []
    ensures Extends(s, Place(s, it))
  {
  }

  lemma SameCallsExtend(s: State, s': State, s'': State)
    requires s'.calls == s.calls && Extends(s', s'')
    ensures Extends(s, s'')
  {
  }

  lemma {:induction false} RefillExtends(s: State, hands: set<nat>, t: PluginId)
    requires Inv(s, hands, Some(t)) && QueueReady(s, t)
    ensures Extends(s, Refill(s, t))
    decreases |Queue(s, t)|, 0
  {
    if Queue(s, t) != [] {
      hide Inv, InHand, Extends;
      PopInv(s, hands, t);
      AdmitExtends(Pop(s, t), hands + {Queue(s, t)[0].call}, Queue(s, t)[0]);
      SameCallsExtend(s, Pop(s, t), Refill(s, t));
    }
  }

  lemma FinishExtends(s: State, key: Key, r: PortResult)
    requires Valid(s) && key in s.pending && QueueReady(s, s.pending[key].target) && s.pending[key].call < |s.calls|
    requires |Refill(Unlink(s, key), s.pending[key].target).calls| == |s.calls|
    ensures Extends(s, Settle(Refill(Unlink(s, key), s.pending[key].target), s.pending[key].call, r))
  {
    hide Inv, Refill, Extends;
    var c, t := s.pending[key].call, s.pending[key].target;
    UnlinkInv(s, {}, key);
    assert {} + {c} == {c};
    RefillExtends(Unlink(s, key), {c}, t);
    SameCallsExtend(s, Unlink(s, key), Refill(Unlink(s, key), t));
    RefillInv(Unlink(s, key), {c}, t);
    HeldIsOpen(Refill(Unlink(s, key), t), {c}, None, c);
    SettleExtends(Refill(Unlink(s, key), t), c, r);
    ExtendsTransitive(s, Refill(Unlink(s, key), t), Settle(Refill(Unlink(s, key), t), c, r));
  }

  lemma DeliverExtends(s: State, t: PluginId, key: Key, op: string, deadlineMs: int, streaming: bool)
    requires Valid(s) && QueueReady(s, t) && FreshKey(s, key)
    ensures Extends(s, Deliver(s, t, key, op, deadlineMs, streaming))
    ensures Extends(OpenCall(s, NewItem(s, t, key, op, deadlineMs, streaming)), Deliver(s, t, key, op, deadlineMs, streaming))
  {
    hide Inv, InHand, Admit, FreshKey, Extends;
    var it := NewItem(s, t, key, op, deadlineMs, streaming);
    var begun := OpenCall(s, it);
    OpenInv(s, it);
    OpenExtends(s, it);
    if t !in s.delivered {
      SettleExtends(begun, it.call, NO_COMPARTMENT);
    } else if |Inflight(begun, t)| < MaxInflight(begun, t) {
      assert InHand(begun, {it.call}, it) by { MakeInHand(begun, {it.call}, it); }
      RoomIsFree(begun, {it.call}, t);
      AdmitExtends(begun, {it.call}, it);
    } else {
      SameCallsExtends(begun, Enqueue(begun, it));
    }
    ExtendsTransitive(s, begun, Deliver(s, t, key, op, deadlineMs, streaming));
  }

  lemma OpenExtends(s: State, it: Item)
    ensures Extends(s, OpenCall(s, it))
  {
  }

  lemma {:induction false} FailQueueExtends(s: State, t: PluginId, r: PortResult)
    requires Inv(s, {}, None) && QueueReady(s, t)
    ensures Extends(s, FailQueue(s, t, r))
    decreases |Queue(s, t)|
  {
    if Queue(s, t) != [] {
      hide Inv, Extends;
      var c := Queue(s, t)[0].call;
      PopFullInv(s, t);
      HeldIsOpen(Pop(s, t), {c}, None, c);
      SettleExtends(Pop(s, t), c, r);
      SameCallsExtend(s, Pop(s, t), Settle(Pop(s, t), c, r));
      SettleInv(Pop(s, t), {c}, None, c, r);
      assert {c} - {c} == {};
      FailQueueExtends(Settle(Pop(s, t), c, r), t, r);
      ExtendsTransitive(s, Settle(Pop(s, t), c, r), FailQueue(s, t, r));
    }
  }

  lemma {:induction false} FailKeysExtends(s: State, t: PluginId, r: PortResult)
    requires Inv(s, {}, None) && Queue(s, t) == []
    requires forall k | k in s.pending :: s.pending[k].call < |s.calls|
    ensures Extends(s, FailKeys(s, t, r))
    decreases |Inflight(s, t)|
  {
    hide Inv, Extends, FailedFirst;
    if Inflight(s, t) != [] {
      FailFirst(s, t, r);
      FirstExtends(s, t, r);
      FailKeysExtends(FailedFirst(s, t, r), t, r);
      ExtendsTransitive(s, FailedFirst(s, t, r), FailKeys(s, t, r));
    } else {
      ExtendsItself(s);
      assert FailKeys(s, t, r) == s;
    }
  }

  lemma ExtendsItself(s: State)
    ensures Extends(s, s)
  {
  }

  lemma FirstExtends(s: State, t: PluginId, r: PortResult)
    requires Inflight(s, t) != [] && Inflight(s, t)[0] in s.pending
    requires var c := s.pending[Inflight(s, t)[0]].call; c < |s.calls| && s.calls[c].results == []
    ensures Extends(s, FailedFirst(s, t, r))
  {
    var u, c := Unlink(s, Inflight(s, t)[0]), s.pending[Inflight(s, t)[0]].call;
    hide Extends;
    SettleExtends(u, c, r);
    SameCallsExtend(s, u, Settle(u, c, r));
  }

  lemma FailExtends(s: State, t: PluginId, reason: string)
    requires Valid(s) && QueueReady(s, t)
    requires forall k | k in s.pending :: s.pending[k].call < |s.calls|
    ensures Extends(s, FailInflight(s, t, reason))
  {
    hide Inv, FailQueue, FailKeys, Extends;
    var r := Err(Degraded, reason);
    FailQueueFrame(s, t, r);
    FailQueueInv(s, t, r);
    FailQueueExtends(s, t, r);
    var flushed := FailQueue(s, t, r).(waiting := FailQueue(s, t, r).waiting - {t});
    DropQueueInv(FailQueue(s, t, r), t);
    FailKeysExtends(flushed, t, r);
    SameCallsExtend(FailQueue(s, t, r), flushed, FailKeys(flushed, t, r));
    ExtendsTransitive(s, FailQueue(s, t, r), FailKeys(flushed, t, r));
  }

  lemma ChunkExtends(s: State, key: Key, chunk: Chunk)
    requires Valid(s) && forall k | k in s.pending :: s.pending[k].call < |s.calls|
    ensures Extends(s, OnChunk(s, key, chunk))
  {
    hide CallsOk, QueuesOk, PlacesOk, KeysOk, SlotsOk, TimersOk, AdmissionOk;
    if key in s.pending {
      PendingAt(s.calls, s.pending, key);
    }
  }

  lemma StepExtends(s: State, e: Event)
    requires Valid(s) && Enabled(s, e)
    ensures Extends(s, Step(s, e))
  {
    hide Inv, Deliver, OnReturn, OnChunk, OnTimer, FailInflight, Extends;
    InvIsReady(s, {}, None);
    match e
    case DeliverEv(t, key, op, deadlineMs, streaming) => DeliverExtends(s, t, key, op, deadlineMs, streaming);
    case ReturnEv(plugin, key, r) => ReturnExtends(s, plugin, key, r);
    case ChunkEv(_, key, chunk) => ChunkExtends(s, key, chunk);
    case TimerEv(c) => TimerExtends(s, c);
    case FailEv(t, reason) => FailExtends(s, t, reason);
    case RegisterEv(id, cap, priorities) => SameCallsExtends(s, Step(s, e));
    case TickEv(_) => SameCallsExtends(s, Step(s, e));
  }

  lemma SameCallsExtends(s: State, s': State)
    requires s'.calls == s.calls
    ensures Extends(s, s')
  {
  }

  lemma ReturnExtends(s: State, plugin: PluginId, key: Key, r: PortResult)
    requires Valid(s) && Enabled(s, ReturnEv(plugin, key, r))
    ensures Extends(s, Step(s, ReturnEv(plugin, key, r)))
  {
    hide Inv, Refill, Extends;
    InvIsReady(s, {}, None);
    if key in s.pending {
      ServedBy(s, plugin, key);
      FinishInv(s, key, r);
      FinishExtends(s, key, r);
    } else {
      SameCallsExtends(s, Step(s, ReturnEv(plugin, key, r)));
    }
  }

  lemma TimerExtends(s: State, c: nat)
    requires Valid(s) && Enabled(s, TimerEv(c))
    ensures Extends(s, Step(s, TimerEv(c)))
  {
    hide Inv, Refill, Extends;
    InvIsReady(s, {}, None);
    TimerServes(s, c);
    FinishInv(s, s.calls[c].item.key, RUN_BUDGET);
    FinishExtends(s, s.calls[c].item.key, RUN_BUDGET);
    assert Forget(ClearTimer(s, c), s.calls[c].item.key) == ClearTimer(Forget(s, s.calls[c].item.key), c);
  }

  /** Over any run a resolved call keeps its one result and receives nothing more. */
  lemma {:induction false} ResolvedOnce(s: State, es: seq<Event>, s': State)
    requires Valid(s) && Runs(s, es, s')
    ensures Extends(s, s')
    decreases |es|
  {
    if es != [] {
      hide Valid, Enabled, Step, Extends;
      StepExtends(s, es[0]);
      StepInv(s, es[0]);
      ResolvedOnce(Step(s, es[0]), es[1..], s');
      ExtendsTransitive(s, Step(s, es[0]), s');
    }
  }
}

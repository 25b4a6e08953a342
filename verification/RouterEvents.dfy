/** Every event of the delivery core keeps the invariant, on every run. */
module RouterEvents {
  import opened Wrappers
  import opened Ordered
  import opened RouterState
  import opened RouterInvariant

  // ---- admit, release ----

  lemma {:induction false} AdmitInv(s: State, hands: set<nat>, it: Item)
    requires Inv(s, hands, Some(it.target)) && InHand(s, hands, it) && QueueReady(s, it.target)
    ensures Inv(Admit(s, it), hands - {it.call}, None)
    decreases |Queue(s, it.target)|, 2
  {
    hide Inv, InHand;
    if Expired(s, it) {
      assert it.call in hands && it.call < |s.calls| by { InHandFacts(s, hands, it); }
      SettleInv(s, hands, Some(it.target), it.call, QUEUE_BUDGET);
      var settled := Settle(s, it.call, QUEUE_BUDGET);
      NoEmptyKey(settled, hands - {it.call}, it.target);
      RefillInv(settled, hands - {it.call}, it.target);
    } else {
      PlaceInv(s, hands, it);
    }
  }

  lemma InHandFacts(s: State, hands: set<nat>, it: Item)
    requires InHand(s, hands, it)
    ensures it.call in hands && it.call < |s.calls| && it.target in s.delivered
  {
  }

  /** No call has the empty causation id, so releasing "" frees nothing. */
  lemma NoEmptyKey(s: State, hands: set<nat>, t: PluginId)
    requires Inv(s, hands, Some(t))
    ensures DecInflight(s, t, "") == s
  {
    hide QueuesOk, PlacesOk, KeysOk, TimersOk, AdmissionOk, Without;
    if t in s.inflight {
      NamedKeys(s, t);
      assert Without(s.inflight[t], "") == s.inflight[t];
      assert s.inflight[t := s.inflight[t]] == s.inflight;
    }
  }

  lemma NamedKeys(s: State, t: PluginId)
    requires CallsOk(s.calls, s.clock) && PendingOk(s.calls, s.pending) && SlotsOk(s.inflight, s.pending, s.delivered.Keys)
    ensures "" !in At(s.inflight, t)
  {
  }

  lemma {:induction false} RefillInv(s: State, hands: set<nat>, t: PluginId)
    requires Inv(s, hands, Some(t)) && QueueReady(s, t)
    ensures Inv(Refill(s, t), hands, None)
    decreases |Queue(s, t)|, 0
  {
    hide Inv, InHand;
    if Queue(s, t) == [] {
      UnusedSlot(s, hands, t);
    } else {
      var it, h := Queue(s, t)[0], hands + {Queue(s, t)[0].call};
      PopInv(s, hands, t);
      NotYetHeld(s, hands, t);
      AdmitInv(Pop(s, t), h, it);
      assert h - {it.call} == hands;
    }
  }

  lemma NotYetHeld(s: State, hands: set<nat>, t: PluginId)
    requires Inv(s, hands, Some(t)) && Queue(s, t) != []
    ensures Queue(s, t)[0].call !in hands
  {
    hide CallsOk, PendingOk, KeysOk, SlotsOk, TimersOk, AdmissionOk, Serving, InOrder;
    assert Queue(s, t)[0] in At(s.waiting, t);
  }

  lemma UnusedSlot(s: State, hands: set<nat>, t: PluginId)
    requires Inv(s, hands, Some(t)) && Queue(s, t) == []
    ensures Inv(s, hands, None)
  {
  }

  // ---- deliver ----

  /** The caller's obligation: a non-empty causation id no unresolved call is using. */
  ghost predicate FreshKey(s: State, key: Key) {
    key != "" && forall c | 0 <= c < |s.calls| && s.calls[c].results == [] :: s.calls[c].item.key != key
  }

  lemma OpenInv(s: State, it: Item)
    requires Valid(s) && it.call == |s.calls| && it.at == s.clock && FreshKey(s, it.key)
    ensures Inv(OpenCall(s, it), {it.call}, None)
    ensures Linked(OpenCall(s, it).calls, it) && OpenCall(s, it).calls[it.call].posts == 0
  {
    hide Inv, InOrder, AdmissionOk, SlotsOk;
    OpenRecords(s, it);
    OpenQueues(s, it);
    assert Inv(OpenCall(s, it), {it.call}, None) by {
      OpenWhole(s, it);
    }
  }

  lemma OpenWhole(s: State, it: Item)
    requires Valid(s) && it.call == |s.calls|
    requires var calls := OpenCall(s, it).calls;
             && CallsOk(calls, s.clock) && PendingOk(calls, s.pending) && KeysOk(calls) && TimersOk(calls, s.pending, s.timers)
             && QueuesOk(calls, s.waiting, s.delivered.Keys) && PlacesOk(calls, s.pending, s.waiting, {it.call})
    ensures Inv(OpenCall(s, it), {it.call}, None)
  {
  }

  lemma OpenRecords(s: State, it: Item)
    requires Valid(s) && it.call == |s.calls| && it.at == s.clock && FreshKey(s, it.key)
    ensures var calls := OpenCall(s, it).calls;
            CallsOk(calls, s.clock) && PendingOk(calls, s.pending) && KeysOk(calls) && TimersOk(calls, s.pending, s.timers)
  {
    hide QueuesOk, PlacesOk, SlotsOk, AdmissionOk;
    var calls := OpenCall(s, it).calls;
    assert forall c | 0 <= c < |s.calls| :: calls[c] == s.calls[c];
    assert it.key !in s.pending by {
      assert it.key in s.pending ==> Linked(s.calls, s.pending[it.key]);
    }
    OpenTimers(s, it);
    hide TimersOk;
  }

  lemma OpenTimers(s: State, it: Item)
    requires TimersOk(s.calls, s.pending, s.timers) && it.call == |s.calls| && it.key !in s.pending
    ensures TimersOk(OpenCall(s, it).calls, s.pending, s.timers)
  {
    var calls := OpenCall(s, it).calls;
    assert forall c | 0 <= c < |s.calls| :: calls[c] == s.calls[c];
  }

  lemma OpenQueues(s: State, it: Item)
    requires Valid(s) && it.call == |s.calls| && it.at == s.clock && FreshKey(s, it.key)
    ensures var calls := OpenCall(s, it).calls;
            QueuesOk(calls, s.waiting, s.delivered.Keys) && PlacesOk(calls, s.pending, s.waiting, {it.call})
  {
    hide KeysOk, SlotsOk, TimersOk, AdmissionOk, InOrder;
    var calls := OpenCall(s, it).calls;
    assert forall c | 0 <= c < |s.calls| :: calls[c] == s.calls[c];
    forall t, w | w in At(s.waiting, t) ensures QueuedOk(calls, w) && w.call != it.call {
      assert QueuedOk(s.calls, w);
    }
    assert it.key !in s.pending by {
      assert it.key in s.pending ==> Linked(s.calls, s.pending[it.key]);
    }
  }

  lemma InsertAtOrder(q: seq<Item>, it: Item, i: nat)
    requires InOrder(q) && (forall w | w in q :: w.call < it.call) && it.priority == Gate
    requires i <= |q| && (forall k | 0 <= k < i :: q[k].priority == Gate) && (i < |q| ==> q[i].priority == Normal)
    ensures InOrder(q[..i] + [it] + q[i..])
  {
  }

  lemma AppendOrder(q: seq<Item>, it: Item)
    requires InOrder(q) && forall w | w in q :: w.call < it.call
    requires it.priority == Gate ==> forall k | 0 <= k < |q| :: q[k].priority == Gate
    ensures InOrder(q + [it])
  {
  }

  lemma InsertOrder(q: seq<Item>, it: Item)
    requires InOrder(q) && forall w | w in q :: w.call < it.call
    ensures InOrder(Insert(q, it))
    ensures forall w :: w in Insert(q, it) <==> w in q || w == it
  {
    hide InOrder;
    var i := FirstNormal(q);
    assert q == q[..i] + q[i..];
    if it.priority == Gate && i < |q| {
      InsertAtOrder(q, it, i);
    } else {
      AppendOrder(q, it);
    }
  }

  /** `w'` holds what `w` holds and, in addition, `it` at its target. */
  ghost predicate Adds(w: map<PluginId, seq<Item>>, w': map<PluginId, seq<Item>>, it: Item) {
    forall u, x :: x in At(w', u) <==> x in At(w, u) || (u == it.target && x == it)
  }

  lemma InsertInv(s: State, it: Item)
    requires Inv(s, {it.call}, None) && InHand(s, {it.call}, it) && it.call == |s.calls| - 1
    requires |Inflight(s, it.target)| >= MaxInflight(s, it.target)
    ensures Valid(s.(waiting := s.waiting[it.target := Insert(Queue(s, it.target), it)]))
  {
    hide CallsOk, PendingOk, QueuesOk, PlacesOk, KeysOk, SlotsOk, TimersOk, AdmissionOk, Insert, Adds;
    var w := s.waiting[it.target := Insert(Queue(s, it.target), it)];
    InsertQueues(s, it);
    InsertPlaces(s, it, w);
    InsertAdmission(s, it);
  }

  lemma InsertQueues(s: State, it: Item)
    requires QueuesOk(s.calls, s.waiting, s.delivered.Keys) && PlacesOk(s.calls, s.pending, s.waiting, {it.call})
    requires InHand(s, {it.call}, it) && it.call == |s.calls| - 1
    ensures QueuesOk(s.calls, s.waiting[it.target := Insert(Queue(s, it.target), it)], s.delivered.Keys)
    ensures Adds(s.waiting, s.waiting[it.target := Insert(Queue(s, it.target), it)], it)
  {
    var t := it.target;
    hide InOrder, Insert;
    forall w | w in Queue(s, t) ensures w.call < it.call {
      assert QueuedOk(s.calls, w);
      assert Waiting(s.calls[w.call], s.waiting);
    }
    InsertOrder(Queue(s, t), it);
    var w := s.waiting[t := Insert(Queue(s, t), it)];
    assert At(w, t) == Insert(Queue(s, t), it);
    assert forall u | u != t :: At(w, u) == At(s.waiting, u);
  }

  lemma InsertPlaces(s: State, it: Item, w: map<PluginId, seq<Item>>)
    requires PlacesOk(s.calls, s.pending, s.waiting, {it.call}) && CallsOk(s.calls, s.clock) && Linked(s.calls, it)
    requires Adds(s.waiting, w, it)
    ensures PlacesOk(s.calls, s.pending, w, {})
  {
  }

  lemma InsertAdmission(s: State, it: Item)
    requires AdmissionOk(s.inflight, s.waiting, s.caps, None) && |Inflight(s, it.target)| >= MaxInflight(s, it.target)
    ensures AdmissionOk(s.inflight, s.waiting[it.target := Insert(Queue(s, it.target), it)], s.caps, None)
  {
  }

  /** Room for one more call means a free slot to offer. */
  lemma RoomIsFree(s: State, hands: set<nat>, t: PluginId)
    requires Inv(s, hands, None) && |Inflight(s, t)| < MaxInflight(s, t)
    ensures Inv(s, hands, Some(t))
  {
  }

  lemma DeliverInv(s: State, t: PluginId, key: Key, op: string, deadlineMs: int, streaming: bool)
    requires Valid(s) && QueueReady(s, t) && FreshKey(s, key)
    ensures Valid(Deliver(s, t, key, op, deadlineMs, streaming))
  {
    hide Inv, InHand, Admit, FreshKey;
    var it := NewItem(s, t, key, op, deadlineMs, streaming);
    var begun := OpenCall(s, it);
    OpenInv(s, it);
    if t !in s.delivered {
      SettleInv(begun, {it.call}, None, it.call, NO_COMPARTMENT);
      assert {it.call} - {it.call} == {};
    } else {
      assert InHand(begun, {it.call}, it) by { MakeInHand(begun, {it.call}, it); }
      if |Inflight(begun, t)| < MaxInflight(begun, t) {
        RoomIsFree(begun, {it.call}, t);
        AdmitInv(begun, {it.call}, it);
        assert {it.call} - {it.call} == {};
      } else {
        InsertInv(begun, it);
      }
    }
  }

  lemma MakeInHand(s: State, hands: set<nat>, it: Item)
    requires Linked(s.calls, it) && it.call in hands && s.calls[it.call].posts == 0 && it.target in s.delivered
    ensures InHand(s, hands, it)
  {
  }

  // ---- return, timer ----

  lemma FinishInv(s: State, key: Key, r: PortResult)
    requires Valid(s) && key in s.pending && QueueReady(s, s.pending[key].target) && s.pending[key].call < |s.calls|
    ensures QueueReady(Unlink(s, key), s.pending[key].target)
    ensures |Refill(Unlink(s, key), s.pending[key].target).calls| == |s.calls|
    ensures Valid(Settle(Refill(Unlink(s, key), s.pending[key].target), s.pending[key].call, r))
  {
    hide Inv, Refill;
    var c, t := s.pending[key].call, s.pending[key].target;
    UnlinkInv(s, {}, key);
    assert {} + {c} == {c};
    RefillInv(Unlink(s, key), {c}, t);
    RefillKeepsCalls(Unlink(s, key), t);
    SettleInv(Refill(Unlink(s, key), t), {c}, None, c, r);
    assert {c} - {c} == {};
  }

  lemma ReturnInv(s: State, plugin: PluginId, key: Key, r: PortResult)
    requires Valid(s) && QueueReady(s, plugin)
    requires forall k | k in s.pending :: s.pending[k].call < |s.calls|
    requires key in s.pending ==> key in Inflight(s, plugin)
    ensures Valid(OnReturn(s, plugin, key, r))
  {
    if key in s.pending {
      assert s.pending[key].target == plugin by { ServedBy(s, plugin, key); }
      hide Inv, Refill;
      FinishInv(s, key, r);
    }
  }

  lemma ServedBy(s: State, plugin: PluginId, key: Key)
    requires Valid(s) && key in Inflight(s, plugin)
    ensures key in s.pending && s.pending[key].target == plugin
  {
  }

  /** A live timer belongs to a call that is being served. */
  lemma TimerServes(s: State, c: nat)
    requires Valid(s) && c in s.timers
    ensures c < |s.calls| && s.calls[c].item.key in s.pending && s.pending[s.calls[c].item.key] == s.calls[c].item
    ensures s.calls[c].item.call == c
    ensures s.timers[c] == s.calls[c].item.at + s.calls[c].item.deadlineMs
  {
    hide PendingOk, QueuesOk, PlacesOk, KeysOk, SlotsOk, AdmissionOk;
  }

  lemma TimerInv(s: State, c: nat)
    requires Valid(s) && c in s.timers && c < |s.calls| && s.calls[c].item.call == c && QueueReady(s, s.calls[c].item.target)
    ensures Valid(OnTimer(s, s.calls[c].item))
  {
    TimerServes(s, c);
    var it := s.calls[c].item;
    hide Inv, Refill;
    FinishInv(s, it.key, RUN_BUDGET);
    assert Forget(ClearTimer(s, c), it.key) == ClearTimer(Forget(s, it.key), c);
  }

  // ---- crash and terminate ----

  lemma {:induction false} FailQueueInv(s: State, t: PluginId, r: PortResult)
    requires Inv(s, {}, None) && QueueReady(s, t)
    ensures Inv(FailQueue(s, t, r), {}, None) && Queue(FailQueue(s, t, r), t) == []
    decreases |Queue(s, t)|
  {
    hide Inv;
    if Queue(s, t) != [] {
      var c := Queue(s, t)[0].call;
      PopFullInv(s, t);
      SettleInv(Pop(s, t), {c}, None, c, r);
      assert {c} - {c} == {};
      FailQueueInv(Settle(Pop(s, t), c, r), t, r);
    }
  }

  /** Taking the head of a queue without offering a slot. */
  lemma PopFullInv(s: State, t: PluginId)
    requires Inv(s, {}, None) && Queue(s, t) != []
    ensures Inv(Pop(s, t), {Queue(s, t)[0].call}, None)
  {
    hide CallsOk, PendingOk, QueuesOk, PlacesOk, KeysOk, SlotsOk, TimersOk, AdmissionOk;
    HeadFull(s, t);
    Numbered(s.calls, s.clock);
    PopQueue(s.calls, s.waiting, s.delivered.Keys, t);
    PopPlaces(s.calls, s.pending, s.waiting, Pop(s, t).waiting, {}, t, Queue(s, t)[0]);
    assert {} + {Queue(s, t)[0].call} == {Queue(s, t)[0].call};
    PopFullAdmission(s, t);
  }

  lemma HeadFull(s: State, t: PluginId)
    requires Inv(s, {}, None) && Queue(s, t) != []
    ensures var it := Queue(s, t)[0];
            it in At(s.waiting, t) && it.target == t && QueuedOk(s.calls, it) && !Serving(s.calls[it.call], s.pending)
  {
  }

  lemma PopFullAdmission(s: State, t: PluginId)
    requires AdmissionOk(s.inflight, s.waiting, s.caps, None) && Queue(s, t) != []
    ensures AdmissionOk(s.inflight, Pop(s, t).waiting, s.caps, None)
  {
  }

  /** Deleting an empty queue changes nothing the invariant sees. */
  lemma DropQueueInv(s: State, t: PluginId)
    requires Inv(s, {}, None) && Queue(s, t) == []
    ensures Inv(s.(waiting := s.waiting - {t}), {}, None)
  {
    hide CallsOk, PendingOk, QueuesOk, PlacesOk, KeysOk, SlotsOk, TimersOk, AdmissionOk;
    SameQueues(s, s.waiting - {t}, t);
    SameView(s, s.waiting - {t});
  }

  lemma SameView(s: State, w: map<PluginId, seq<Item>>)
    requires Inv(s, {}, None) && forall u :: At(w, u) == At(s.waiting, u)
    ensures QueuesOk(s.calls, w, s.delivered.Keys) && PlacesOk(s.calls, s.pending, w, {})
    ensures AdmissionOk(s.inflight, w, s.caps, None)
  {
  }

  lemma SameQueues(s: State, w: map<PluginId, seq<Item>>, t: PluginId)
    requires Queue(s, t) == [] && w == s.waiting - {t}
    ensures forall u :: At(w, u) == At(s.waiting, u)
  {
  }

  lemma {:induction false} FailKeysInv(s: State, t: PluginId, r: PortResult)
    requires Inv(s, {}, None) && Queue(s, t) == []
    requires forall k | k in s.pending :: s.pending[k].call < |s.calls|
    ensures Inv(FailKeys(s, t, r), {}, None) && Inflight(FailKeys(s, t, r), t) == []
    ensures Queue(FailKeys(s, t, r), t) == []
    decreases |Inflight(s, t)|
  {
    hide Inv, FailedFirst;
    if Inflight(s, t) != [] {
      FailFirst(s, t, r);
      FailKeysInv(FailedFirst(s, t, r), t, r);
    } else {
      assert FailKeys(s, t, r) == s;
    }
  }

  /** The first served call of a compartment failed and out of the way. */
  function FailedFirst(s: State, t: PluginId, r: PortResult): State
    requires Inflight(s, t) != [] && Inflight(s, t)[0] in s.pending && s.pending[Inflight(s, t)[0]].call < |s.calls|
  {
    Settle(Unlink(s, Inflight(s, t)[0]), s.pending[Inflight(s, t)[0]].call, r)
  }

  lemma FailFirst(s: State, t: PluginId, r: PortResult)
    requires Inv(s, {}, None) && Queue(s, t) == [] && Inflight(s, t) != []
    requires forall k | k in s.pending :: s.pending[k].call < |s.calls|
    ensures Inflight(s, t)[0] in s.pending
    ensures var c := s.pending[Inflight(s, t)[0]].call;
            c < |s.calls| && s.calls[c].results == [] && s.calls[c].item.target == t
    ensures var next := FailedFirst(s, t, r);
            && Inv(next, {}, None) && Queue(next, t) == [] && |Inflight(next, t)| < |Inflight(s, t)|
            && (forall k | k in next.pending :: next.pending[k].call < |next.calls|)
            && FailKeys(s, t, r) == FailKeys(next, t, r)
  {
    hide Inv;
    var key := Inflight(s, t)[0];
    FirstKey(s, t);
    var c := s.pending[key].call;
    UnlinkInv(s, {}, key);
    assert {} + {c} == {c};
    UnusedSlot(Unlink(s, key), {c}, t);
    SettleInv(Unlink(s, key), {c}, None, c, r);
    assert {c} - {c} == {};
    FailOneKey(s, t, key, r);
    PendingIsOpen(s, key);
  }

  lemma PendingIsOpen(s: State, key: Key)
    requires Inv(s, {}, None) && key in s.pending && s.pending[key].call < |s.calls|
    ensures s.calls[s.pending[key].call].results == [] && s.calls[s.pending[key].call].item.target == s.pending[key].target
  {
  }

  lemma FailOneKey(s: State, t: PluginId, key: Key, r: PortResult)
    requires key in s.pending && s.pending[key].target == t && t in s.inflight && s.pending[key].call < |s.calls|
    requires Inflight(s, t) != []
    requires Without(s.inflight[t], key) == Inflight(s, t)[1..]
    requires forall k | k in s.pending :: s.pending[k].call < |s.calls|
    ensures FailKey(s.(inflight := s.inflight[t := Inflight(s, t)[1..]]), key, r) == Settle(Unlink(s, key), s.pending[key].call, r)
  {
  }

  lemma FirstKey(s: State, t: PluginId)
    requires Inv(s, {}, None) && Inflight(s, t) != []
    ensures var key := Inflight(s, t)[0];
            && key in s.pending && s.pending[key].target == t && t in s.inflight
            && Without(s.inflight[t], key) == Inflight(s, t)[1..]
            && Inflight(s, t) != []
  {
    hide CallsOk, PendingOk, QueuesOk, PlacesOk, KeysOk, TimersOk, AdmissionOk;
    var ks := At(s.inflight, t);
    assert ks[0] in ks && NoRepeats(ks);
    assert ks[0] !in ks[1..];
  }

  lemma FailInv(s: State, t: PluginId, reason: string)
    requires Valid(s) && QueueReady(s, t)
    requires forall k | k in s.pending :: s.pending[k].call < |s.calls|
    ensures Valid(FailInflight(s, t, reason))
    ensures Inflight(FailInflight(s, t, reason), t) == [] && Queue(FailInflight(s, t, reason), t) == []
  {
    hide Inv, FailQueue, FailKeys;
    var r := Err(Degraded, reason);
    FailQueueFrame(s, t, r);
    FailQueueInv(s, t, r);
    DropQueueInv(FailQueue(s, t, r), t);
    FailKeysInv(FailQueue(s, t, r).(waiting := FailQueue(s, t, r).waiting - {t}), t, r);
  }

  // ---- chunks, registration, clock ----

  lemma ChunkInv(s: State, key: Key, chunk: Chunk)
    requires Valid(s) && forall k | k in s.pending :: s.pending[k].call < |s.calls|
    ensures Valid(OnChunk(s, key, chunk))
  {
    if key in s.pending && s.pending[key].streaming {
      ChunkRecords(s, s.pending[key].call, chunk);
      ChunkPlaces(s, s.pending[key].call, chunk);
      hide CallsOk, PendingOk, QueuesOk, PlacesOk, KeysOk, SlotsOk, TimersOk, AdmissionOk;
    }
  }

  ghost function WithChunk(calls: seq<CallLog>, c: nat, chunk: Chunk): seq<CallLog>
    requires c < |calls|
  {
    calls[c := calls[c].(chunks := calls[c].chunks + [chunk])]
  }

  lemma ChunkRecords(s: State, c: nat, chunk: Chunk)
    requires Valid(s) && c < |s.calls|
    ensures var calls := WithChunk(s.calls, c, chunk);
            CallsOk(calls, s.clock) && PendingOk(calls, s.pending) && KeysOk(calls) && TimersOk(calls, s.pending, s.timers)
  {
    hide QueuesOk, PlacesOk, SlotsOk, AdmissionOk;
    var calls := WithChunk(s.calls, c, chunk);
    assert forall d | 0 <= d < |calls| ::
        calls[d].item == s.calls[d].item && calls[d].results == s.calls[d].results && calls[d].posts == s.calls[d].posts;
  }

  lemma ChunkPlaces(s: State, c: nat, chunk: Chunk)
    requires Valid(s) && c < |s.calls|
    ensures var calls := WithChunk(s.calls, c, chunk);
            QueuesOk(calls, s.waiting, s.delivered.Keys) && PlacesOk(calls, s.pending, s.waiting, {})
  {
  }

  /** A compartment is registered once; before that nothing is queued or served there. */
  lemma RegisterInv(s: State, id: PluginId, cap: Option<int>, priorities: map<string, Priority>)
    requires Valid(s) && id !in s.delivered
    ensures Valid(Register(s, id, cap, priorities))
  {
    var s' := Register(s, id, cap, priorities);
    hide CallsOk, PendingOk, QueuesOk, PlacesOk, KeysOk, SlotsOk, TimersOk, AdmissionOk;
    NothingAt(s, id);
    RegisterAdmission(s, id, s'.caps);
    RegisterSlots(s, s'.delivered.Keys);
  }

  lemma NothingAt(s: State, id: PluginId)
    requires SlotsOk(s.inflight, s.pending, s.delivered.Keys) && QueuesOk(s.calls, s.waiting, s.delivered.Keys)
    requires id !in s.delivered
    ensures Inflight(s, id) == [] && Queue(s, id) == []
  {
    NoMembers(At(s.inflight, id));
    NoMembers(At(s.waiting, id));
  }

  lemma NoMembers<T(!new)>(q: seq<T>)
    requires forall x :: x !in q
    ensures q == []
  {
    if q != [] {
      HasMember(q);
    }
  }

  lemma HasMember<T(!new)>(q: seq<T>)
    requires q != []
    ensures exists x :: x in q
  {
    assert q[0] in q;
  }

  lemma RegisterSlots(s: State, registered: set<PluginId>)
    requires SlotsOk(s.inflight, s.pending, s.delivered.Keys) && QueuesOk(s.calls, s.waiting, s.delivered.Keys)
    requires s.delivered.Keys <= registered
    ensures SlotsOk(s.inflight, s.pending, registered) && QueuesOk(s.calls, s.waiting, registered)
  {
  }

  lemma RegisterAdmission(s: State, id: PluginId, caps: map<PluginId, int>)
    requires AdmissionOk(s.inflight, s.waiting, s.caps, None) && Inflight(s, id) == [] && Queue(s, id) == []
    requires forall u | u != id :: CapOf(caps, u) == CapOf(s.caps, u)
    ensures AdmissionOk(s.inflight, s.waiting, caps, None)
  {
  }

  lemma TickInv(s: State, to: int)
    requires Valid(s) && s.clock <= to
    ensures Valid(s.(clock := to))
  {
  }

  // ---- runs ----

  datatype Event =
    | RegisterEv(id: PluginId, cap: Option<int>, priorities: map<string, Priority>)
    | DeliverEv(target: PluginId, key: Key, op: string, deadlineMs: int, streaming: bool)
    | ReturnEv(plugin: PluginId, key: Key, result: PortResult)
    | ChunkEv(from: PluginId, key: Key, chunk: Chunk)
    | TimerEv(call: nat)
    | FailEv(failed: PluginId, reason: string)
    | TickEv(to: int)

  /** What the surroundings of the router guarantee: ids register once, causation ids are fresh, a
      return for a pending id comes from the compartment serving it, timers fire when due. */
  ghost predicate Enabled(s: State, e: Event) {
    match e
    case RegisterEv(id, _, _) => id !in s.delivered
    case DeliverEv(_, key, _, _, _) => FreshKey(s, key)
    case ReturnEv(plugin, key, _) => key in s.pending ==> key in Inflight(s, plugin)
    case TimerEv(c) => c in s.timers && s.timers[c] <= s.clock
    case TickEv(to) => s.clock <= to
    case _ => true
  }

  ghost function Step(s: State, e: Event): State
    requires Valid(s) && Enabled(s, e)
  {
    InvIsReady(s, {}, None);
    match e
    case RegisterEv(id, cap, priorities) => Register(s, id, cap, priorities)
    case DeliverEv(t, key, op, deadlineMs, streaming) => Deliver(s, t, key, op, deadlineMs, streaming)
    case ReturnEv(plugin, key, r) => OnReturn(s, plugin, key, r)
    case ChunkEv(_, key, chunk) => OnChunk(s, key, chunk)
    case TimerEv(c) => TimerServes(s, c); OnTimer(s, s.calls[c].item)
    case FailEv(t, reason) => FailInflight(s, t, reason)
    case TickEv(to) => s.(clock := to)
  }

  /** Every event keeps the invariant. */
  lemma StepInv(s: State, e: Event)
    requires Valid(s) && Enabled(s, e)
    ensures Valid(Step(s, e))
  {
    hide Inv, Deliver, OnReturn, OnChunk, OnTimer, FailInflight, Register;
    InvIsReady(s, {}, None);
    match e
    case RegisterEv(id, cap, priorities) => RegisterInv(s, id, cap, priorities);
    case DeliverEv(t, key, op, deadlineMs, streaming) => DeliverInv(s, t, key, op, deadlineMs, streaming);
    case ReturnEv(plugin, key, r) => ReturnInv(s, plugin, key, r);
    case ChunkEv(_, key, chunk) => ChunkInv(s, key, chunk);
    case TimerEv(c) => TimerServes(s, c); TimerInv(s, c);
    case FailEv(t, reason) => FailInv(s, t, reason);
    case TickEv(to) => TickInv(s, to);
  }
}

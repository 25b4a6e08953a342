/** The port router's delivery core as an object: its maps are updated in place, one event method at a
    time. Each method performs exactly the step that `RouterState` defines. */
module PortRouter {
  import opened Ordered
  import opened RouterState
  import opened RouterInvariant
  import opened RouterEvents
  import Limits = RouterDeadlines

  class PortRouter {
    var clock: int
    var delivered: map<PluginId, nat>
    var caps: map<PluginId, int>
    var opPriority: map<string, Priority>
    var pending: map<Key, Item>
    var timers: map<nat, int>
    var inflightByCompartment: map<PluginId, seq<Key>>
    var waiting: map<PluginId, seq<Item>>
    var calls: seq<CallLog>

    ghost function View(): State
      reads this
    {
      State(clock, delivered, caps, opPriority, pending, timers, inflightByCompartment, waiting, calls)
    }

    ghost predicate Ready(t: PluginId)
      reads this
    {
      QueueReady(View(), t)
    }

    ghost predicate Sound()
      reads this
    {
      Valid(View())
    }

    constructor ()
      ensures View() == INITIAL && Sound()
    {
      clock, delivered, caps, opPriority := 0, map[], map[], map[];
      pending, timers, inflightByCompartment, waiting, calls := map[], map[], map[], map[], [];
      new;
      assert forall t :: Inflight(View(), t) == [] && Queue(View(), t) == [];
    }

    // ---- bookkeeping ----

    method Resolve(call: nat, r: PortResult)
      requires call < |calls|
      modifies this`calls
      ensures View() == Settle(old(View()), call, r)
    {
      calls := calls[call := calls[call].(results := calls[call].results + [r])];
    }

    method IncInflight(id: PluginId, key: Key)
      modifies this`inflightByCompartment
      ensures inflightByCompartment == old(inflightByCompartment)[id := Including(At(old(inflightByCompartment), id), key)]
    {
      var keys := if id in inflightByCompartment then inflightByCompartment[id] else [];
      inflightByCompartment := inflightByCompartment[id := Including(keys, key)];
    }

    // ---- admit and release ----

    method Admit(item: Item)
      requires item.call < |calls| && item.target in delivered && Ready(item.target)
      modifies this
      ensures View() == RouterState.Admit(old(View()), item)
      decreases |Queue(View(), item.target)|, 2
    {
      var waited := clock - item.at;
      if item.deadlineMs > 0 && waited >= item.deadlineMs {
        Resolve(item.call, QUEUE_BUDGET);
        Release(item.target, "");
      } else {
        Start(item, waited);
      }
    }

    method Start(item: Item, waited: int)
      requires item.call < |calls| && item.target in delivered && waited == clock - item.at
      modifies this
      ensures View() == Place(old(View()), item)
    {
      hide Including;
      delivered := delivered[item.target := delivered[item.target] + 1];
      Arm(item, waited);
      pending := pending[item.key := item];
      IncInflight(item.target, item.key);
      calls := calls[item.call := calls[item.call].(posts := calls[item.call].posts + 1)];
    }

    /** The timer for what is left of the deadline. */
    method Arm(item: Item, waited: int)
      modifies this`timers
      ensures timers == if item.deadlineMs > 0 then old(timers)[item.call := clock + (item.deadlineMs - waited)] else old(timers)
    {
      if item.deadlineMs > 0 {
        var remain := item.deadlineMs - waited;
        timers := timers[item.call := clock + remain];
      }
    }

    method Release(targetId: PluginId, key: Key)
      requires Ready(targetId)
      modifies this
      ensures View() == RouterState.Release(old(View()), targetId, key)
      decreases |Queue(View(), targetId)|, 1
    {
      if targetId in inflightByCompartment {
        inflightByCompartment := inflightByCompartment[targetId := Without(inflightByCompartment[targetId], key)];
      }
      if targetId in waiting && waiting[targetId] != [] {
        var next := waiting[targetId][0];
        assert next in Queue(old(View()), targetId);
        waiting := waiting[targetId := waiting[targetId][1..]];
        Admit(next);
      }
    }

    // ---- deliver ----

    method Deliver(targetId: PluginId, key: Key, op: string, deadlineMs: int, streaming: bool) returns (call: nat)
      requires Ready(targetId)
      modifies this
      ensures call == |old(calls)|
      ensures View() == RouterState.Deliver(old(View()), targetId, key, op, deadlineMs, streaming)
      ensures old(Sound()) && old(FreshKey(View(), key)) ==> Sound()
    {
      hide Valid, FreshKey, RouterState.Enqueue, NewItem, OpenCall, Settle;
      DeliverKeeps(View(), targetId, key, op, deadlineMs, streaming);
      var item := Open(targetId, key, op, deadlineMs, streaming);
      call := item.call;
      if targetId !in delivered {
        Resolve(call, NO_COMPARTMENT);
      } else {
        Enqueue(item);
      }
    }

    /** The promise of a delivered call and the record it is queued under. */
    method Open(targetId: PluginId, key: Key, op: string, deadlineMs: int, streaming: bool) returns (item: Item)
      modifies this`calls
      ensures item == NewItem(old(View()), targetId, key, op, deadlineMs, streaming) && item.call == |old(calls)| == |calls| - 1
      ensures item.target == targetId && (old(Ready(targetId)) ==> Ready(targetId))
      ensures View() == OpenCall(old(View()), item)
    {
      var priority := if op in opPriority then opPriority[op] else if op == LAW_CHECK then Gate else Normal;
      item := Item(|calls|, targetId, key, op, deadlineMs, streaming, priority, clock);
      calls := calls + [CallLog(item, [], [], 0)];
    }

    static lemma DeliverKeeps(s: State, t: PluginId, key: Key, op: string, deadlineMs: int, streaming: bool)
      requires QueueReady(s, t)
      ensures Valid(s) && FreshKey(s, key) ==> Valid(RouterState.Deliver(s, t, key, op, deadlineMs, streaming))
    {
      if Valid(s) && FreshKey(s, key) {
        DeliverInv(s, t, key, op, deadlineMs, streaming);
      }
    }

    method Enqueue(item: Item)
      requires item.call < |calls| && item.target in delivered && Ready(item.target)
      modifies this
      ensures View() == RouterState.Enqueue(old(View()), item)
    {
      var size := if item.target in inflightByCompartment then |inflightByCompartment[item.target]| else 0;
      var cap := if item.target in caps then caps[item.target] else DEFAULT_CAP;
      if size < cap {
        Admit(item);
        return;
      }
      var q := if item.target in waiting then waiting[item.target] else [];
      var idx := 0;
      while idx < |q| && !(q[idx].priority == Normal && item.priority == Gate)
        invariant idx <= |q|
        invariant forall j | 0 <= j < idx :: !(q[j].priority == Normal && item.priority == Gate)
      {
        idx := idx + 1;
      }
      FirstNormalIs(q, idx, item);
      q := q[..idx] + [item] + q[idx..];
      waiting := waiting[item.target := q];
    }

    /** The scan stops where `Insert` puts the item. */
    static lemma FirstNormalIs(q: seq<Item>, idx: nat, item: Item)
      requires idx <= |q|
      requires forall j | 0 <= j < idx :: !(q[j].priority == Normal && item.priority == Gate)
      requires idx < |q| ==> q[idx].priority == Normal && item.priority == Gate
      ensures q[..idx] + [item] + q[idx..] == Insert(q, item)
    {
      var i := FirstNormal(q);
      if item.priority == Gate {
        assert i < |q| ==> q[i].priority == Normal;
        assert idx < |q| ==> q[idx].priority == Normal;
        assert idx == i;
      }
      if idx == |q| {
        assert q[..idx] + [item] + q[idx..] == q + [item];
      }
    }

    // ---- worker messages and timers ----

    method OnReturn(pluginId: PluginId, key: Key, result: PortResult)
      requires Ready(pluginId) && forall k | k in pending :: pending[k].call < |calls|
      modifies this
      ensures View() == RouterState.OnReturn(old(View()), pluginId, key, result)
      ensures old(Sound()) ==> (Sound() <==> (key in old(pending) ==> key in old(Inflight(View(), pluginId))))
    {
      hide Valid, Settle, RouterState.Release;
      RouterReturn(View(), pluginId, key, result);
      if key in pending {
        var p := pending[key];
        timers := timers - {p.call};
        pending := pending - {key};
        ReleaseKeepsCalls(View(), pluginId, key);
        Release(pluginId, key);
        Resolve(p.call, result);
      }
    }

    static lemma RouterReturn(s: State, pluginId: PluginId, key: Key, result: PortResult)
      requires QueueReady(s, pluginId) && forall k | k in s.pending :: s.pending[k].call < |s.calls|
      ensures Valid(s) ==>
                (Valid(RouterState.OnReturn(s, pluginId, key, result)) <==> (key in s.pending ==> key in Inflight(s, pluginId)))
    {
      if Valid(s) {
        Limits.ReturnKeepsInvariantIff(s, pluginId, key, result);
      }
    }

    method OnChunk(key: Key, chunk: Chunk)
      requires forall k | k in pending :: pending[k].call < |calls|
      modifies this`calls
      ensures View() == RouterState.OnChunk(old(View()), key, chunk)
    {
      if key in pending && pending[key].streaming {
        var c := pending[key].call;
        calls := calls[c := calls[c].(chunks := calls[c].chunks + [chunk])];
      }
    }

    /** The deadline callback armed by `Start`; it captured `item`. */
    method OnTimer(item: Item)
      requires Ready(item.target) && item.call < |calls|
      modifies this
      ensures View() == RouterState.OnTimer(old(View()), item)
    {
      timers := timers - {item.call};
      if item.key in pending {
        pending := pending - {item.key};
        ReleaseKeepsCalls(View(), item.target, item.key);
        Release(item.target, item.key);
        Resolve(item.call, RUN_BUDGET);
      }
    }

    // ---- crash and terminate ----

    method FailInflight(pluginId: PluginId, reason: string)
      requires Ready(pluginId) && forall k | k in pending :: pending[k].call < |calls|
      modifies this
      ensures View() == RouterState.FailInflight(old(View()), pluginId, reason)
      ensures old(Sound()) ==> Sound()
    {
      ghost var before := View();
      var r := Err(Degraded, reason);
      FailQueueFrame(View(), pluginId, r);
      FailWaiting(pluginId, r);
      FailServed(pluginId, r);
      if Valid(before) {
        FailInv(before, pluginId, reason);
      }
    }

    /** Every queued call is resolved, then the queue is dropped. */
    method FailWaiting(pluginId: PluginId, r: PortResult)
      requires Ready(pluginId)
      modifies this
      ensures View() == FailQueue(old(View()), pluginId, r).(waiting := FailQueue(old(View()), pluginId, r).waiting - {pluginId})
    {
      var q := if pluginId in waiting then waiting[pluginId] else [];
      ghost var before := View();
      FailQueueSettlesAll(before, pluginId, r);
      assert q[0..] == q;
      for n := 0 to |q|
        invariant View() == before.(calls := calls)
        invariant forall it | it in q :: it.call < |calls|
        invariant SettleAll(calls, q[n..], r) == SettleAll(before.calls, q, r)
      {
        assert q[n..][0] == q[n] && q[n..][1..] == q[n + 1..];
        Resolve(q[n].call, r);
      }
      waiting := waiting - {pluginId};
    }

    /** Every served call is forgotten and resolved, then the in-flight set is cleared. */
    method FailServed(pluginId: PluginId, r: PortResult)
      requires forall k | k in pending :: pending[k].call < |calls|
      modifies this
      ensures View() == FailKeys(old(View()), pluginId, r)
    {
      hide FailKey, FailKeys, FailAll;
      if pluginId !in inflightByCompartment {
        NoKeysNoFailure(View(), pluginId, r);
        return;
      }
      var keys := inflightByCompartment[pluginId];
      ghost var before := View();
      FailKeysFailsAll(before, pluginId, r);
      assert keys[0..] == keys;
      for n := 0 to |keys|
        invariant inflightByCompartment == before.inflight
        invariant forall k | k in pending :: pending[k].call < |calls|
        invariant FailAll(View(), keys[n..], r) == FailAll(before, keys, r)
      {
        assert keys[n..][0] == keys[n] && keys[n..][1..] == keys[n + 1..];
        FailAllStep(View(), keys[n..], r);
        FailServedCall(keys[n], r);
      }
      FailNothing(View(), keys[|keys|..], r);
      inflightByCompartment := inflightByCompartment[pluginId := []];
    }

    method FailServedCall(key: Key, r: PortResult)
      requires forall k | k in pending :: pending[k].call < |calls|
      modifies this
      ensures View() == FailKey(old(View()), key, r)
    {
      if key in pending {
        var p := pending[key];
        timers := timers - {p.call};
        pending := pending - {key};
        Resolve(p.call, r);
      }
    }
  }

  // ---- the failure loops, unrolled ----

  ghost function SettleAll(calls: seq<CallLog>, q: seq<Item>, r: PortResult): seq<CallLog>
    requires forall it | it in q :: it.call < |calls|
    decreases |q|
  {
    if q == [] then calls
    else SettleAll(calls[q[0].call := calls[q[0].call].(results := calls[q[0].call].results + [r])], q[1..], r)
  }

  lemma {:induction false} FailQueueSettlesAll(s: State, t: PluginId, r: PortResult)
    requires QueueReady(s, t)
    ensures FailQueue(s, t, r) == s.(calls := SettleAll(s.calls, Queue(s, t), r),
                                     waiting := if Queue(s, t) == [] then s.waiting else s.waiting[t := []])
    decreases |Queue(s, t)|
  {
    if Queue(s, t) != [] {
      assert Queue(s, t)[0] in Queue(s, t);
      var next := Settle(Pop(s, t), Queue(s, t)[0].call, r);
      FailQueueSettlesAll(next, t, r);
      assert Queue(next, t) == Queue(s, t)[1..];
      assert next.waiting[t := []] == s.waiting[t := []];
      assert Queue(next, t) == [] ==> next.waiting == s.waiting[t := []];
    }
  }

  ghost function FailAll(s: State, keys: seq<Key>, r: PortResult): State
    requires forall k | k in s.pending :: s.pending[k].call < |s.calls|
    decreases |keys|
  {
    if keys == [] then s else FailAll(FailKey(s, keys[0], r), keys[1..], r)
  }

  lemma NoKeysNoFailure(s: State, t: PluginId, r: PortResult)
    requires t !in s.inflight && forall k | k in s.pending :: s.pending[k].call < |s.calls|
    ensures FailKeys(s, t, r) == s
  {
  }

  lemma FailNothing(s: State, keys: seq<Key>, r: PortResult)
    requires keys == [] && forall k | k in s.pending :: s.pending[k].call < |s.calls|
    ensures FailAll(s, keys, r) == s
  {
  }

  lemma FailAllStep(s: State, keys: seq<Key>, r: PortResult)
    requires keys != [] && forall k | k in s.pending :: s.pending[k].call < |s.calls|
    ensures var next := FailKey(s, keys[0], r);
            && next.inflight == s.inflight && (forall k | k in next.pending :: next.pending[k].call < |next.calls|)
            && FailAll(s, keys, r) == FailAll(next, keys[1..], r)
  {
    FailKeyIgnoresSlots(s, keys[0], r, s.inflight);
  }

  lemma {:induction false} FailAllIgnoresSlots(s: State, keys: seq<Key>, r: PortResult, inflight: map<PluginId, seq<Key>>)
    requires forall k | k in s.pending :: s.pending[k].call < |s.calls|
    ensures FailAll(s.(inflight := inflight), keys, r) == FailAll(s, keys, r).(inflight := inflight)
    ensures FailAll(s, keys, r).inflight == s.inflight
    decreases keys
  {
    hide FailKey;
    if keys != [] {
      FailKeyIgnoresSlots(s, keys[0], r, inflight);
      FailAllIgnoresSlots(FailKey(s, keys[0], r), keys[1..], r, inflight);
    }
  }

  lemma {:induction false} FailKeysFailsAll(s: State, t: PluginId, r: PortResult)
    requires forall k | k in s.pending :: s.pending[k].call < |s.calls|
    ensures FailKeys(s, t, r) == FailAll(s, Inflight(s, t), r).(inflight := if Inflight(s, t) == [] then s.inflight else s.inflight[t := []])
    decreases |Inflight(s, t)|
  {
    if Inflight(s, t) != [] {
      var keys := Inflight(s, t);
      var x, rest := FailKey(s, keys[0], r), s.inflight[t := keys[1..]];
      FailKeysUnfold(s, t, r, x, rest);
      hide FailKey, FailKeys, FailAll;
      FailKeysFailsAll(x.(inflight := rest), t, r);
      FailAllIgnoresSlots(x, keys[1..], r, rest);
    }
  }

  lemma FailKeysUnfold(s: State, t: PluginId, r: PortResult, x: State, rest: map<PluginId, seq<Key>>)
    requires forall k | k in s.pending :: s.pending[k].call < |s.calls|
    requires Inflight(s, t) != [] && x == FailKey(s, Inflight(s, t)[0], r) && rest == s.inflight[t := Inflight(s, t)[1..]]
    ensures forall k | k in x.pending :: x.pending[k].call < |x.calls|
    ensures FailKeys(s, t, r) == FailKeys(x.(inflight := rest), t, r)
    ensures FailAll(s, Inflight(s, t), r) == FailAll(x, Inflight(s, t)[1..], r)
    ensures At(rest, t) == Inflight(s, t)[1..]
    ensures (if Inflight(s, t)[1..] == [] then rest else rest[t := []]) == s.inflight[t := []]
  {
    FailKeyIgnoresSlots(s, Inflight(s, t)[0], r, rest);
  }

  lemma FailKeyIgnoresSlots(s: State, key: Key, r: PortResult, inflight: map<PluginId, seq<Key>>)
    requires forall k | k in s.pending :: s.pending[k].call < |s.calls|
    ensures FailKey(s.(inflight := inflight), key, r) == FailKey(s, key, r).(inflight := inflight)
    ensures FailKey(s, key, r).inflight == s.inflight
    ensures forall k | k in FailKey(s, key, r).pending :: FailKey(s, key, r).pending[k].call < |FailKey(s, key, r).calls|
  {
  }
}

/** What deliveries, returns, timers and chunks do to every call, queue, slot and timer, told by clock, enqueue
    time and deadline alone. */
module RouterSlots {
  import opened Wrappers
  import opened Ordered
  import opened RouterState
  import opened RouterInvariant
  import opened RouterEvents
  import opened RouterRuns

  /** The call's deadline, counted from when it was handed to the router, has passed. */
  predicate Late(it: Item, clock: int) {
    it.deadlineMs > 0 && clock >= it.at + it.deadlineMs
  }

  /** How many calls at the head of a queue are late. */
  function LateCount(q: seq<Item>, clock: int): (n: nat)
    ensures n <= |q|
    ensures forall i | 0 <= i < n :: Late(q[i], clock)
    ensures n < |q| ==> !Late(q[n], clock)
  {
    if q == [] || !Late(q[0], clock) then 0
    else
      var n := LateCount(q[1..], clock);
      assert forall i | 0 < i < n + 1 :: q[i] == q[1..][i - 1];
      n + 1
  }

  // ---- a freed slot ----

  ghost predicate AmongFirst(q: seq<Item>, n: nat, c: nat)
    requires n <= |q|
  {
    exists i :: 0 <= i < n && q[i].call == c
  }

  /** A call after a slot of the queue `q` was offered: the `n` late ones at its head are answered, the next one
      is posted, no other call is touched. */
  ghost function OfferedTo(q: seq<Item>, n: nat, c: nat, log: CallLog): CallLog
    requires n <= |q|
  {
    if AmongFirst(q, n, c) then log.(results := log.results + [Err(Budget, "deadline exceeded in queue")])
    else if n < |q| && q[n].call == c then log.(posts := log.posts + 1)
    else log
  }

  /** The late calls at the head of the queue of `t` leave it, the next one is served; nothing else moves. */
  ghost predicate SlotOffered(s: State, s': State, t: PluginId) {
    CallsOffered(s, s', t) && PlacesOffered(s, s', t)
  }

  ghost predicate CallsOffered(s: State, s': State, t: PluginId) {
    && |s'.calls| == |s.calls|
    && forall c | 0 <= c < |s.calls| :: s'.calls[c] == OfferedTo(Queue(s, t), LateCount(Queue(s, t), s.clock), c, s.calls[c])
  }

  ghost predicate PlacesOffered(s: State, s': State, t: PluginId) {
    var q, n := Queue(s, t), LateCount(Queue(s, t), s.clock);
    && (forall u :: Queue(s', u) == if u != t then Queue(s, u) else if n < |q| then q[n + 1..] else [])
    && (forall u :: Inflight(s', u) == if u == t && n < |q| then Including(Inflight(s, u), q[n].key) else Inflight(s, u))
    && s'.pending == (if n < |q| then s.pending[q[n].key := q[n]] else s.pending)
    && s'.timers == (if n < |q| && q[n].deadlineMs > 0 then s.timers[q[n].call := q[n].at + q[n].deadlineMs] else s.timers)
    && s'.delivered == (if n < |q| && t in s.delivered then s.delivered[t := s.delivered[t] + 1] else s.delivered)
    && s'.clock == s.clock && s'.caps == s.caps && s'.opPriority == s.opPriority
  }

  lemma LateIsExpired(s: State, it: Item)
    ensures Expired(s, it) <==> Late(it, s.clock)
  {
  }

  lemma AdmitLive(s: State, it: Item)
    requires it.call < |s.calls| && it.target in s.delivered && QueueReady(s, it.target) && !Expired(s, it)
    ensures Admit(s, it) == Place(s, it)
  {
  }

  lemma AdmitExpired(s: State, it: Item, settled: State)
    requires it.call < |s.calls| && it.target in s.delivered && QueueReady(s, it.target) && Expired(s, it)
    requires settled == Settle(s, it.call, QUEUE_BUDGET) && DecInflight(settled, it.target, "") == settled
    ensures QueueReady(settled, it.target) && Admit(s, it) == Refill(settled, it.target)
    ensures |Queue(settled, it.target)| == |Queue(s, it.target)|
  {
  }

  lemma {:induction false} RefillOffers(s: State, hands: set<nat>, t: PluginId)
    requires Inv(s, hands, Some(t)) && QueueReady(s, t)
    ensures SlotOffered(s, Refill(s, t), t)
    decreases |Queue(s, t)|
  {
    hide Inv, SlotOffered, Admit, Place, Settle, InHand, Late, Expired;
    if Queue(s, t) == [] {
      NobodyOffered(s, t);
    } else {
      var it, popped := Queue(s, t)[0], Pop(s, t);
      PopInv(s, hands, t);
      NotYetHeld(s, hands, t);
      InHandFacts(popped, hands + {it.call}, it);
      LateIsExpired(s, it);
      assert Refill(s, t) == Admit(popped, it);
      if Expired(s, it) {
        LateIsExpired(popped, it);
        SettleInv(popped, hands + {it.call}, Some(t), it.call, QUEUE_BUDGET);
        assert hands + {it.call} - {it.call} == hands;
        var settled := Settle(popped, it.call, QUEUE_BUDGET);
        NoEmptyKey(settled, hands, t);
        AdmitExpired(popped, it, settled);
        RefillOffers(settled, hands, t);
        OwnCalls(s, hands, t);
        LateHead(s, settled, Refill(settled, t), t);
      } else {
        LateIsExpired(popped, it);
        AdmitLive(popped, it);
        TimelyHead(s, t);
      }
    }
  }

  lemma NobodyOffered(s: State, t: PluginId)
    requires Queue(s, t) == []
    ensures SlotOffered(s, Refill(s, t), t)
  {
  }

  /** The calls of a queue are pairwise distinct. */
  lemma OwnCalls(s: State, hands: set<nat>, t: PluginId)
    requires Inv(s, hands, Some(t))
    ensures forall i, j | 0 <= i < j < |Queue(s, t)| :: Queue(s, t)[i].call != Queue(s, t)[j].call
  {
    hide CallsOk, PendingOk, PlacesOk, KeysOk, SlotsOk, TimersOk, AdmissionOk;
    var q := Queue(s, t);
    forall i | 0 <= i < |q| ensures QueuedOk(s.calls, q[i]) {
      assert q[i] in At(s.waiting, t);
    }
    assert InOrder(q);
  }

  lemma TimelyHead(s: State, t: PluginId)
    requires Queue(s, t) != [] && !Late(Queue(s, t)[0], s.clock) && Queue(s, t)[0].target == t && t in s.delivered
    requires Queue(s, t)[0].call < |s.calls|
    ensures SlotOffered(s, Place(Pop(s, t), Queue(s, t)[0]), t)
  {
    var q := Queue(s, t);
    assert Queue(Place(Pop(s, t), q[0]), t) == q[1..];
    assert LateCount(q, s.clock) == 0;
    assert q[0].deadlineMs > 0 ==> s.clock + (q[0].deadlineMs - (s.clock - q[0].at)) == q[0].at + q[0].deadlineMs;
  }

  lemma LateHead(s: State, settled: State, s': State, t: PluginId)
    requires Queue(s, t) != [] && Late(Queue(s, t)[0], s.clock) && Queue(s, t)[0].call < |s.calls|
    requires settled == Settle(Pop(s, t), Queue(s, t)[0].call, QUEUE_BUDGET)
    requires forall i, j | 0 <= i < j < |Queue(s, t)| :: Queue(s, t)[i].call != Queue(s, t)[j].call
    requires SlotOffered(settled, s', t)
    ensures SlotOffered(s, s', t)
  {
    hide Late, LateCount, CallsOffered, PlacesOffered;
    assert Queue(settled, t) == Queue(s, t)[1..];
    assert forall u | u != t :: Queue(settled, u) == Queue(s, u);
    assert forall u :: Inflight(settled, u) == Inflight(s, u);
    LateTail(Queue(s, t), s.clock);
    hide Queue, Inflight;
    LateHeadCalls(s, settled, s', t);
    LateHeadPlaces(s, settled, s', t);
  }

  lemma LateHeadCalls(s: State, settled: State, s': State, t: PluginId)
    requires Queue(s, t) != [] && Queue(s, t)[0].call < |s.calls| && Queue(settled, t) == Queue(s, t)[1..] && settled.clock == s.clock
    requires settled.calls == s.calls[Queue(s, t)[0].call := s.calls[Queue(s, t)[0].call].(results := s.calls[Queue(s, t)[0].call].results + [QUEUE_BUDGET])]
    requires forall i, j | 0 <= i < j < |Queue(s, t)| :: Queue(s, t)[i].call != Queue(s, t)[j].call
    requires LateCount(Queue(s, t), s.clock) == LateCount(Queue(s, t)[1..], s.clock) + 1
    requires CallsOffered(settled, s', t)
    ensures CallsOffered(s, s', t)
  {
    hide LateCount, OfferedTo, Queue;
    var q := Queue(s, t);
    forall c | 0 <= c < |s.calls| ensures s'.calls[c] == OfferedTo(q, LateCount(q, s.clock), c, s.calls[c]) {
      OfferedTail(q, LateCount(q[1..], s.clock), c, s.calls[c]);
    }
  }

  lemma LateHeadPlaces(s: State, settled: State, s': State, t: PluginId)
    requires Queue(s, t) != [] && Queue(settled, t) == Queue(s, t)[1..]
    requires settled == s.(waiting := settled.waiting, calls := settled.calls)
    requires forall u | u != t :: Queue(settled, u) == Queue(s, u)
    requires forall u :: Inflight(settled, u) == Inflight(s, u)
    requires LateCount(Queue(s, t), s.clock) == LateCount(Queue(s, t)[1..], s.clock) + 1
    requires PlacesOffered(settled, s', t)
    ensures PlacesOffered(s, s', t)
  {
    hide LateCount, Including, Queue, Inflight;
    TailParts(Queue(s, t), LateCount(Queue(s, t)[1..], s.clock));
  }

  lemma TailParts(q: seq<Item>, n: nat)
    requires q != [] && n <= |q| - 1
    ensures n < |q[1..]| ==> q[1..][n] == q[n + 1] && q[1..][n + 1..] == q[n + 2..]
  {
  }

  lemma LateTail(q: seq<Item>, clock: int)
    requires q != [] && Late(q[0], clock)
    ensures LateCount(q, clock) == LateCount(q[1..], clock) + 1
  {
  }

  lemma OfferedTail(q: seq<Item>, n: nat, c: nat, log: CallLog)
    requires q != [] && n <= |q| - 1 && forall i, j | 0 <= i < j < |q| :: q[i].call != q[j].call
    ensures OfferedTo(q, n + 1, c, log)
            == OfferedTo(q[1..], n, c, if c == q[0].call then log.(results := log.results + [QUEUE_BUDGET]) else log)
  {
    if AmongFirst(q[1..], n, c) {
      var i :| 0 <= i < n && q[1..][i].call == c;
      assert q[i + 1].call == c;
    }
    if AmongFirst(q, n + 1, c) && c != q[0].call {
      var i :| 0 <= i < n + 1 && q[i].call == c;
      assert q[1..][i - 1].call == c;
    }
    if c == q[0].call {
      assert AmongFirst(q, n + 1, c);
    }
  }

  // ---- the end of a served call ----

  /** The call served under `key` gets `r`, and its slot goes to the queue of its target: the late calls at the
      head are answered, the next one is posted; nothing else moves. */
  ghost predicate EndsServed(s: State, s': State, key: Key, r: PortResult)
    requires key in s.pending
  {
    CallsEnded(s, s', key, r) && SlotPassed(s, s', key)
  }

  ghost predicate CallsEnded(s: State, s': State, key: Key, r: PortResult)
    requires key in s.pending
  {
    var it := s.pending[key];
    var q, n := Queue(s, it.target), LateCount(Queue(s, it.target), s.clock);
    && it.call < |s.calls| == |s'.calls|
    && forall c | 0 <= c < |s.calls| ::
         s'.calls[c] == if c == it.call then s.calls[c].(results := [r]) else OfferedTo(q, n, c, s.calls[c])
  }

  ghost predicate SlotPassed(s: State, s': State, key: Key)
    requires key in s.pending
  {
    PlacesPassed(s, s', s.pending[key], key) && TablesPassed(s, s', s.pending[key], key)
  }

  ghost predicate PlacesPassed(s: State, s': State, it: Item, key: Key) {
    var q, n := Queue(s, it.target), LateCount(Queue(s, it.target), s.clock);
    var left := Without(Inflight(s, it.target), key);
    && (forall u :: Queue(s', u) == if u != it.target then Queue(s, u) else if n < |q| then q[n + 1..] else [])
    && (forall u :: Inflight(s', u) == if u != it.target then Inflight(s, u) else if n < |q| then Including(left, q[n].key) else left)
  }

  ghost predicate TablesPassed(s: State, s': State, it: Item, key: Key) {
    var q, n := Queue(s, it.target), LateCount(Queue(s, it.target), s.clock);
    && s'.pending == (if n < |q| then (s.pending - {key})[q[n].key := q[n]] else s.pending - {key})
    && s'.timers == (if n < |q| && q[n].deadlineMs > 0 then (s.timers - {it.call})[q[n].call := q[n].at + q[n].deadlineMs]
                     else s.timers - {it.call})
    && s'.delivered == (if n < |q| && it.target in s.delivered then s.delivered[it.target := s.delivered[it.target] + 1] else s.delivered)
    && s'.clock == s.clock && s'.caps == s.caps && s'.opPriority == s.opPriority
  }

  lemma FinishEnds(s: State, key: Key, r: PortResult)
    requires Valid(s) && key in s.pending && QueueReady(s, s.pending[key].target) && s.pending[key].call < |s.calls|
    requires |Refill(Unlink(s, key), s.pending[key].target).calls| == |s.calls|
    ensures EndsServed(s, Settle(Refill(Unlink(s, key), s.pending[key].target), s.pending[key].call, r), key, r)
  {
    hide Inv, Refill, SlotOffered, EndsServed;
    var c, t := s.pending[key].call, s.pending[key].target;
    UnlinkInv(s, {}, key);
    assert {} + {c} == {c};
    RefillOffers(Unlink(s, key), {c}, t);
    RefillInv(Unlink(s, key), {c}, t);
    HeldIsOpen(Refill(Unlink(s, key), t), {c}, None, c);
    SlotOfPending(s, key);
    ServedNotQueued(s, key);
    Ended(s, Unlink(s, key), Refill(Unlink(s, key), t), key, r);
  }

  lemma SlotOfPending(s: State, key: Key)
    requires Valid(s) && key in s.pending
    ensures s.pending[key].target in s.inflight
  {
    hide CallsOk, PendingOk, QueuesOk, PlacesOk, KeysOk, TimersOk, AdmissionOk;
    SlotOf(s.inflight, s.pending, s.delivered.Keys, key);
  }

  lemma ServedNotQueued(s: State, key: Key)
    requires Valid(s) && key in s.pending && s.pending[key].call < |s.calls|
    ensures forall i | 0 <= i < |Queue(s, s.pending[key].target)| :: Queue(s, s.pending[key].target)[i].call != s.pending[key].call
    ensures s.calls[s.pending[key].call].results == []
  {
    hide CallsOk, KeysOk, SlotsOk, TimersOk, AdmissionOk, PlacesOk, InOrder;
    var q := Queue(s, s.pending[key].target);
    forall i | 0 <= i < |q| ensures q[i].call != s.pending[key].call {
      assert q[i] in At(s.waiting, s.pending[key].target);
    }
  }

  lemma Ended(s: State, u: State, served: State, key: Key, r: PortResult)
    requires key in s.pending && u == Unlink(s, key) && s.pending[key].target in s.inflight
    requires s.pending[key].call < |served.calls| && SlotOffered(u, served, s.pending[key].target)
    requires s.calls[s.pending[key].call].results == []
    requires forall i | 0 <= i < |Queue(s, s.pending[key].target)| :: Queue(s, s.pending[key].target)[i].call != s.pending[key].call
    ensures EndsServed(s, Settle(served, s.pending[key].call, r), key, r)
  {
    hide Including, Without, LateCount, OfferedTo;
    var t := s.pending[key].target;
    assert forall x :: Queue(u, x) == Queue(s, x);
    assert forall x :: Inflight(u, x) == if x == t then Without(Inflight(s, x), key) else Inflight(s, x);
    EndedCalls(s, u, served, key, r);
    hide SlotOffered;
    EndedPlaces(s, u, served, s.pending[key], key, r);
    EndedTables(s, u, served, s.pending[key], key, r);
  }

  lemma EndedCalls(s: State, u: State, served: State, key: Key, r: PortResult)
    requires key in s.pending && u.calls == s.calls && u.clock == s.clock && Queue(u, s.pending[key].target) == Queue(s, s.pending[key].target)
    requires s.pending[key].call < |served.calls| && SlotOffered(u, served, s.pending[key].target)
    requires s.calls[s.pending[key].call].results == []
    requires forall i | 0 <= i < |Queue(s, s.pending[key].target)| :: Queue(s, s.pending[key].target)[i].call != s.pending[key].call
    ensures CallsEnded(s, Settle(served, s.pending[key].call, r), key, r)
  {
    hide LateCount, OfferedTo, Including;
    var q, c := Queue(s, s.pending[key].target), s.pending[key].call;
    NotOffered(q, LateCount(q, s.clock), c, s.calls[c]);
    assert served.calls[c] == s.calls[c] && [] + [r] == [r];
  }

  lemma EndedPlaces(s: State, u: State, served: State, it: Item, key: Key, r: PortResult)
    requires u.clock == s.clock && it.call < |served.calls| && SlotOffered(u, served, it.target)
    requires forall x :: Queue(u, x) == Queue(s, x)
    requires forall x :: Inflight(u, x) == if x == it.target then Without(Inflight(s, x), key) else Inflight(s, x)
    ensures PlacesPassed(s, Settle(served, it.call, r), it, key)
  {
    hide Including, Without, LateCount, OfferedTo, Queue, Inflight;
    SameViews(served, it.call, r);
  }

  lemma EndedTables(s: State, u: State, served: State, it: Item, key: Key, r: PortResult)
    requires u.pending == s.pending - {key} && u.timers == s.timers - {it.call}
    requires u.delivered == s.delivered && u.clock == s.clock && u.caps == s.caps && u.opPriority == s.opPriority
    requires Queue(u, it.target) == Queue(s, it.target) && it.call < |served.calls| && SlotOffered(u, served, it.target)
    ensures TablesPassed(s, Settle(served, it.call, r), it, key)
  {
    hide Including, LateCount, OfferedTo, Queue, Inflight;
  }

  lemma SameViews(s: State, c: nat, r: PortResult)
    requires c < |s.calls|
    ensures forall x :: Queue(Settle(s, c, r), x) == Queue(s, x) && Inflight(Settle(s, c, r), x) == Inflight(s, x)
  {
  }

  lemma NotOffered(q: seq<Item>, n: nat, c: nat, log: CallLog)
    requires n <= |q| && forall i | 0 <= i < |q| :: q[i].call != c
    ensures OfferedTo(q, n, c, log) == log
  {
  }

  /** A return for a call that is being served ends it with the returned result; any other return does nothing. */
  lemma ReturnIsExact(s: State, plugin: PluginId, key: Key, r: PortResult)
    requires Valid(s) && Enabled(s, ReturnEv(plugin, key, r))
    ensures key !in s.pending ==> Step(s, ReturnEv(plugin, key, r)) == s
    ensures key in s.pending ==> EndsServed(s, Step(s, ReturnEv(plugin, key, r)), key, r)
  {
    hide Inv, Refill, EndsServed;
    InvIsReady(s, {}, None);
    if key in s.pending {
      ServedBy(s, plugin, key);
      FinishInv(s, key, r);
      FinishEnds(s, key, r);
    }
  }

  /** A timer that fires ends its call for being late. */
  lemma TimerIsExact(s: State, c: nat)
    requires Valid(s) && Enabled(s, TimerEv(c))
    ensures c < |s.calls| && s.calls[c].item.key in s.pending && s.pending[s.calls[c].item.key] == s.calls[c].item
    ensures s.calls[c].item.call == c && Late(s.calls[c].item, s.clock)
    ensures EndsServed(s, Step(s, TimerEv(c)), s.calls[c].item.key, Err(Budget, "deadline exceeded"))
  {
    hide Inv, Refill, EndsServed;
    InvIsReady(s, {}, None);
    TimerServes(s, c);
    TimerHasDeadline(s, c);
    var key := s.calls[c].item.key;
    FinishInv(s, key, RUN_BUDGET);
    FinishEnds(s, key, RUN_BUDGET);
    assert Forget(ClearTimer(s, c), key) == ClearTimer(Forget(s, key), c);
  }

  lemma TimerHasDeadline(s: State, c: nat)
    requires Valid(s) && c in s.timers
    ensures c < |s.calls| && s.calls[c].item.deadlineMs > 0
  {
    hide PendingOk, QueuesOk, PlacesOk, KeysOk, SlotsOk, AdmissionOk;
  }

  // ---- a delivered call ----

  /** The call as it was handed over: its class is the one declared for the op, else gate for law.check alone. */
  ghost predicate IsHandedOver(s: State, it: Item, t: PluginId, key: Key, op: string, deadlineMs: int, streaming: bool) {
    && it.call == |s.calls| && it.target == t && it.key == key && it.op == op && it.deadlineMs == deadlineMs
    && it.streaming == streaming && it.at == s.clock
    && it.priority == (if op in s.opPriority then s.opPriority[op] else if op == "law.check@1" then Gate else Normal)
  }

  /** Gate calls stand before the new call, normal ones after it if it is a gate call. */
  ghost predicate QueuedInClass(q: seq<Item>, q': seq<Item>, it: Item) {
    exists i ::
      && 0 <= i <= |q| && q' == q[..i] + [it] + q[i..]
      && (it.priority == Gate ==> forall k | 0 <= k < |q| :: q[k].priority == Gate <==> k < i)
      && (it.priority == Normal ==> i == |q|)
  }

  /** A delivered call is refused when its target is not registered, posted at once while fewer calls are in
      flight there than its cap, queued in its class otherwise; nothing else moves. */
  ghost predicate HandedOver(s: State, s': State, it: Item) {
    var t := it.target;
    var room := |Inflight(s, t)| < if t in s.caps then s.caps[t] else 4;
    && |s'.calls| == |s.calls| + 1 && (forall c | 0 <= c < |s.calls| :: s'.calls[c] == s.calls[c])
    && s'.clock == s.clock && s'.caps == s.caps && s'.opPriority == s.opPriority
    && s'.calls[|s.calls|] == (if t !in s.delivered then CallLog(it, [Err(Refused, "no compartment")], [], 0)
                               else if room then CallLog(it, [], [], 1) else CallLog(it, [], [], 0))
    && (t !in s.delivered || !room ==>
          s'.pending == s.pending && s'.timers == s.timers && s'.delivered == s.delivered && s'.inflight == s.inflight)
    && (t !in s.delivered || room ==> s'.waiting == s.waiting)
    && (t in s.delivered && room ==>
          && s'.pending == s.pending[it.key := it]
          && s'.timers == (if it.deadlineMs > 0 then s.timers[it.call := it.at + it.deadlineMs] else s.timers)
          && s'.delivered == s.delivered[t := s.delivered[t] + 1]
          && forall u :: Inflight(s', u) == if u == t then Including(Inflight(s, u), it.key) else Inflight(s, u))
    && (t in s.delivered && !room ==>
          QueuedInClass(Queue(s, t), Queue(s', t), it) && forall u | u != t :: Queue(s', u) == Queue(s, u))
  }

  lemma DeliverIsExact(s: State, t: PluginId, key: Key, op: string, deadlineMs: int, streaming: bool)
    requires Valid(s) && Enabled(s, DeliverEv(t, key, op, deadlineMs, streaming))
    ensures var s' := Step(s, DeliverEv(t, key, op, deadlineMs, streaming));
            && |s'.calls| == |s.calls| + 1
            && IsHandedOver(s, s'.calls[|s.calls|].item, t, key, op, deadlineMs, streaming)
            && HandedOver(s, s', s'.calls[|s.calls|].item)
  {
    hide Inv, FreshKey, Deliver, HandedOver, QueueReady, Place, Insert, Settle;
    InvIsReady(s, {}, None);
    var it := NewItem(s, t, key, op, deadlineMs, streaming);
    assert QueueReady(s, t);
    if t !in s.delivered {
      NotRegistered(s, it);
    } else if |Inflight(s, t)| < MaxInflight(s, t) {
      PostedAtOnce(s, it);
    } else {
      WaitsInClass(s, it);
    }
    Delivered(s, t, key, op, deadlineMs, streaming);
  }

  /** The three ends of a delivery. */
  lemma Delivered(s: State, t: PluginId, key: Key, op: string, deadlineMs: int, streaming: bool)
    requires QueueReady(s, t)
    ensures var it := NewItem(s, t, key, op, deadlineMs, streaming);
            Deliver(s, t, key, op, deadlineMs, streaming)
            == if t !in s.delivered then Settle(OpenCall(s, it), it.call, NO_COMPARTMENT)
               else if |Inflight(s, t)| < MaxInflight(s, t) then Place(OpenCall(s, it), it)
               else OpenCall(s, it).(waiting := s.waiting[t := Insert(Queue(s, t), it)])
  {
    hide Admit, Place, Insert;
    var it := NewItem(s, t, key, op, deadlineMs, streaming);
    if t in s.delivered && |Inflight(s, t)| < MaxInflight(s, t) {
      StillReady(s, it);
      AdmitLive(OpenCall(s, it), it);
    }
  }

  lemma StillReady(s: State, it: Item)
    requires QueueReady(s, it.target) && it.at == s.clock
    ensures QueueReady(OpenCall(s, it), it.target) && !Expired(OpenCall(s, it), it)
  {
  }

  lemma NotRegistered(s: State, it: Item)
    requires it.call == |s.calls| && it.target !in s.delivered
    ensures var s' := Settle(OpenCall(s, it), it.call, NO_COMPARTMENT);
            HandedOver(s, s', it) && |s'.calls| == |s.calls| + 1 && s'.calls[it.call].item == it
  {
  }

  lemma PostedAtOnce(s: State, it: Item)
    requires it.call == |s.calls| && it.target in s.delivered && it.at == s.clock && |Inflight(s, it.target)| < MaxInflight(s, it.target)
    ensures HandedOver(s, Place(OpenCall(s, it), it), it)
    ensures |Place(OpenCall(s, it), it).calls| == |s.calls| + 1 && Place(OpenCall(s, it), it).calls[it.call].item == it
  {
    hide Including;
  }

  lemma WaitsInClass(s: State, it: Item)
    requires Valid(s) && it.call == |s.calls| && it.target in s.delivered && |Inflight(s, it.target)| >= MaxInflight(s, it.target)
    ensures HandedOver(s, OpenCall(s, it).(waiting := s.waiting[it.target := Insert(Queue(s, it.target), it)]), it)
  {
    hide Valid, Insert, QueuedInClass;
    QueueInOrder(s, it.target);
    InsertInClass(Queue(s, it.target), it);
  }

  lemma QueueInOrder(s: State, t: PluginId)
    requires Valid(s)
    ensures InOrder(Queue(s, t))
  {
    AdmissionConservesWork(s, t);
  }

  lemma InsertInClass(q: seq<Item>, it: Item)
    requires InOrder(q)
    ensures QueuedInClass(q, Insert(q, it), it)
  {
    var i := FirstNormal(q);
    if it.priority == Gate && i < |q| {
      assert Insert(q, it) == q[..i] + [it] + q[i..];
    } else {
      assert q[..|q|] == q && q[|q|..] == [];
      assert Insert(q, it) == q[..|q|] + [it] + q[|q|..];
    }
  }

  // ---- chunks ----

  /** A chunk reaches the call served under its id, if that call streams, and nothing else. */
  lemma ChunkIsExact(s: State, from: PluginId, key: Key, chunk: Chunk)
    requires Valid(s)
    ensures var s' := Step(s, ChunkEv(from, key, chunk));
            && s' == s.(calls := s'.calls) && |s'.calls| == |s.calls|
            && forall c | 0 <= c < |s.calls| ::
                 s'.calls[c] == if key in s.pending && s.pending[key] == s.calls[c].item && s.calls[c].item.streaming
                                then s.calls[c].(chunks := s.calls[c].chunks + [chunk]) else s.calls[c]
  {
    hide QueuesOk, PlacesOk, KeysOk, SlotsOk, TimersOk, AdmissionOk;
    InvIsReady(s, {}, None);
    if key in s.pending {
      PendingAt(s.calls, s.pending, key);
    }
  }
}

/** The invariant of the delivery core and its preservation by every event. */
module RouterInvariant {
  import opened Wrappers
  import opened Ordered
  import opened RouterState

  // ---- the parts of the invariant, each over the fields it speaks of ----

  ghost predicate Linked(calls: seq<CallLog>, it: Item) {
    it.call < |calls| && calls[it.call].item == it
  }

  ghost predicate Serving(log: CallLog, pending: map<Key, Item>) {
    log.item.key in pending && pending[log.item.key] == log.item
  }

  ghost predicate Waiting(log: CallLog, waiting: map<PluginId, seq<Item>>) {
    log.item in At(waiting, log.item.target)
  }

  ghost predicate CallsOk(calls: seq<CallLog>, clock: int) {
    forall c | 0 <= c < |calls| ::
      && calls[c].item.call == c && calls[c].item.key != "" && calls[c].item.at <= clock
      && |calls[c].results| <= 1 && calls[c].posts <= 1
  }

  ghost predicate PendingOk(calls: seq<CallLog>, pending: map<Key, Item>) {
    forall k | k in pending ::
      && Linked(calls, pending[k]) && pending[k].key == k
      && calls[pending[k].call].results == [] && calls[pending[k].call].posts == 1
  }

  /** Gate calls first; within a class, in the order the calls were made. */
  ghost predicate InOrder(q: seq<Item>) {
    forall i, j | 0 <= i < j < |q| ::
      (q[i].priority == q[j].priority ==> q[i].call < q[j].call) && (q[j].priority == Gate ==> q[i].priority == Gate)
  }

  ghost predicate QueuedOk(calls: seq<CallLog>, it: Item) {
    Linked(calls, it) && calls[it.call].results == [] && calls[it.call].posts == 0
  }

  ghost predicate QueuesOk(calls: seq<CallLog>, waiting: map<PluginId, seq<Item>>, registered: set<PluginId>) {
    && (forall t, it {:trigger it in At(waiting, t)} | it in At(waiting, t) :: QueuedOk(calls, it) && it.target == t && t in registered)
    && (forall t :: InOrder(At(waiting, t)))
  }

  /** `hands` are the calls an event is holding between taking them from one place and settling or
      storing them in another. */
  ghost predicate PlacesOk(calls: seq<CallLog>, pending: map<Key, Item>, waiting: map<PluginId, seq<Item>>, hands: set<nat>) {
    && (forall c | 0 <= c < |calls| && calls[c].results == [] ::
          c in hands || Serving(calls[c], pending) || Waiting(calls[c], waiting))
    && (forall c | c in hands ::
          c < |calls| && calls[c].results == [] && !Serving(calls[c], pending) && !Waiting(calls[c], waiting))
  }

  ghost predicate KeysOk(calls: seq<CallLog>) {
    forall c, d | 0 <= c < d < |calls| && calls[c].results == [] && calls[d].results == [] ::
      calls[c].item.key != calls[d].item.key
  }

  ghost predicate SlotsOk(inflight: map<PluginId, seq<Key>>, pending: map<Key, Item>, registered: set<PluginId>) {
    && (forall t :: NoRepeats(At(inflight, t)))
    && (forall t, k {:trigger k in At(inflight, t)} | k in At(inflight, t) :: k in pending && pending[k].target == t)
    && (forall k | k in pending :: k in At(inflight, pending[k].target) && pending[k].target in registered)
  }

  ghost predicate TimersOk(calls: seq<CallLog>, pending: map<Key, Item>, timers: map<nat, int>) {
    && (forall c | 0 <= c < |calls| && Serving(calls[c], pending) && calls[c].item.deadlineMs > 0 ::
          c in timers && timers[c] == calls[c].item.at + calls[c].item.deadlineMs)
    && (forall c | c in timers :: c < |calls| && Serving(calls[c], pending) && calls[c].item.deadlineMs > 0)
  }

  function Max0(n: int): int { if n < 0 then 0 else n }

  ghost predicate Admitted(n: int, q: seq<Item>, cap: int) {
    n <= Max0(cap) && (q != [] ==> n >= cap)
  }

  /** The cap bounds the in-flight set, and a call waits only behind a full one. With `free == Some(t)`
      an event has just freed a slot of `t` that it will offer to the queue. */
  ghost predicate AdmissionOk(inflight: map<PluginId, seq<Key>>, waiting: map<PluginId, seq<Item>>,
                              caps: map<PluginId, int>, free: Option<PluginId>) {
    forall t :: Admitted(|At(inflight, t)| + if free == Some(t) then 1 else 0, At(waiting, t), CapOf(caps, t))
  }

  ghost predicate Inv(s: State, hands: set<nat>, free: Option<PluginId>) {
    && CallsOk(s.calls, s.clock)
    && PendingOk(s.calls, s.pending)
    && QueuesOk(s.calls, s.waiting, s.delivered.Keys)
    && PlacesOk(s.calls, s.pending, s.waiting, hands)
    && KeysOk(s.calls)
    && SlotsOk(s.inflight, s.pending, s.delivered.Keys)
    && TimersOk(s.calls, s.pending, s.timers)
    && AdmissionOk(s.inflight, s.waiting, s.caps, free)
  }

  /** What holds between events. */
  ghost predicate Valid(s: State) {
    Inv(s, {}, None)
  }

  /** Ready to be placed: in hand, linked and never posted. */
  ghost predicate InHand(s: State, hands: set<nat>, it: Item) {
    Linked(s.calls, it) && it.call in hands && s.calls[it.call].posts == 0 && it.target in s.delivered
  }

  lemma InvIsReady(s: State, hands: set<nat>, free: Option<PluginId>)
    requires Inv(s, hands, free)
    ensures forall t :: QueueReady(s, t)
    ensures forall k | k in s.pending :: s.pending[k].call < |s.calls|
  {
  }

  // ---- single updates ----

  lemma Tail(q: seq<Item>)
    requires InOrder(q) && q != []
    ensures InOrder(q[1..])
    ensures forall it :: it in q[1..] <==> it in q && it != q[0]
  {
  }

  lemma PopQueue(calls: seq<CallLog>, waiting: map<PluginId, seq<Item>>, registered: set<PluginId>, t: PluginId)
    requires QueuesOk(calls, waiting, registered) && At(waiting, t) != []
    ensures QueuesOk(calls, waiting[t := At(waiting, t)[1..]], registered)
    ensures forall u, it :: it in At(waiting[t := At(waiting, t)[1..]], u) <==>
                            it in At(waiting, u) && !(u == t && it == At(waiting, t)[0])
  {
    hide InOrder, QueuedOk;
    Tail(At(waiting, t));
    var w := waiting[t := At(waiting, t)[1..]];
    assert At(w, t) == At(waiting, t)[1..];
    assert forall u | u != t :: At(w, u) == At(waiting, u);
  }

  lemma PopPlaces(calls: seq<CallLog>, pending: map<Key, Item>, waiting: map<PluginId, seq<Item>>, w: map<PluginId, seq<Item>>,
                  hands: set<nat>, t: PluginId, first: Item)
    requires PlacesOk(calls, pending, waiting, hands)
    requires first in At(waiting, t) && first.target == t
    requires QueuedOk(calls, first) && !Serving(calls[first.call], pending)
    requires forall u, it :: it in At(w, u) <==> it in At(waiting, u) && !(u == t && it == first)
    requires forall c | 0 <= c < |calls| :: calls[c].item.call == c
    ensures PlacesOk(calls, pending, w, hands + {first.call})
  {
  }

  lemma NotServing(calls: seq<CallLog>, pending: map<Key, Item>, c: nat)
    requires PendingOk(calls, pending) && c < |calls| && calls[c].item.call == c && calls[c].posts == 0
    ensures !Serving(calls[c], pending)
  {
  }

  lemma Head(s: State, hands: set<nat>, t: PluginId)
    requires Inv(s, hands, Some(t)) && Queue(s, t) != []
    ensures var it := Queue(s, t)[0];
            it in At(s.waiting, t) && it.target == t && t in s.delivered && QueuedOk(s.calls, it) && !Serving(s.calls[it.call], s.pending)
  {
  }

  lemma PopAdmission(inflight: map<PluginId, seq<Key>>, waiting: map<PluginId, seq<Item>>,
                     caps: map<PluginId, int>, t: PluginId)
    requires AdmissionOk(inflight, waiting, caps, Some(t)) && At(waiting, t) != []
    ensures AdmissionOk(inflight, waiting[t := At(waiting, t)[1..]], caps, Some(t))
  {
  }

  lemma Numbered(calls: seq<CallLog>, clock: int)
    requires CallsOk(calls, clock)
    ensures forall c | 0 <= c < |calls| :: calls[c].item.call == c
  {
  }

  lemma PopInv(s: State, hands: set<nat>, t: PluginId)
    requires Inv(s, hands, Some(t)) && Queue(s, t) != []
    ensures Inv(Pop(s, t), hands + {Queue(s, t)[0].call}, Some(t))
    ensures InHand(Pop(s, t), hands + {Queue(s, t)[0].call}, Queue(s, t)[0])
    ensures Queue(s, t)[0].target == t
  {
    hide CallsOk, PendingOk, QueuesOk, PlacesOk, KeysOk, SlotsOk, TimersOk, AdmissionOk;
    Head(s, hands, t);
    Numbered(s.calls, s.clock);
    PopQueue(s.calls, s.waiting, s.delivered.Keys, t);
    PopPlaces(s.calls, s.pending, s.waiting, Pop(s, t).waiting, hands, t, Queue(s, t)[0]);
    PopAdmission(s.inflight, s.waiting, s.caps, t);
  }

  lemma SettleRecords(calls: seq<CallLog>, clock: int, pending: map<Key, Item>, c: nat, r: PortResult)
    requires CallsOk(calls, clock) && PendingOk(calls, pending) && KeysOk(calls)
    requires c < |calls| && calls[c].results == [] && !Serving(calls[c], pending)
    ensures CallsOk(calls[c := calls[c].(results := calls[c].results + [r])], clock)
    ensures PendingOk(calls[c := calls[c].(results := calls[c].results + [r])], pending)
    ensures KeysOk(calls[c := calls[c].(results := calls[c].results + [r])])
  {
  }

  lemma SettlePlaces(calls: seq<CallLog>, pending: map<Key, Item>, waiting: map<PluginId, seq<Item>>, hands: set<nat>,
                     registered: set<PluginId>, c: nat, r: PortResult)
    requires PlacesOk(calls, pending, waiting, hands) && QueuesOk(calls, waiting, registered) && c in hands
    ensures PlacesOk(calls[c := calls[c].(results := calls[c].results + [r])], pending, waiting, hands - {c})
    ensures QueuesOk(calls[c := calls[c].(results := calls[c].results + [r])], waiting, registered)
  {
  }

  lemma SettleInv(s: State, hands: set<nat>, free: Option<PluginId>, c: nat, r: PortResult)
    requires Inv(s, hands, free) && c in hands
    ensures Inv(Settle(s, c, r), hands - {c}, free)
  {
    hide CallsOk, PendingOk, QueuesOk, PlacesOk, KeysOk, SlotsOk, TimersOk, AdmissionOk;
    assert s.calls[c].results == [] && !Serving(s.calls[c], s.pending) by { HandOpen(s.calls, s.pending, s.waiting, hands, c); }
    SettleRecords(s.calls, s.clock, s.pending, c, r);
    SettlePlaces(s.calls, s.pending, s.waiting, hands, s.delivered.Keys, c, r);
    SettleTimers(s.calls, s.pending, s.timers, c, r);
  }

  lemma SettleTimers(calls: seq<CallLog>, pending: map<Key, Item>, timers: map<nat, int>, c: nat, r: PortResult)
    requires TimersOk(calls, pending, timers) && c < |calls|
    ensures TimersOk(calls[c := calls[c].(results := calls[c].results + [r])], pending, timers)
  {
  }

  lemma HandOpen(calls: seq<CallLog>, pending: map<Key, Item>, waiting: map<PluginId, seq<Item>>, hands: set<nat>, c: nat)
    requires PlacesOk(calls, pending, waiting, hands) && c in hands
    ensures c < |calls| && calls[c].results == [] && !Serving(calls[c], pending) && !Waiting(calls[c], waiting)
  {
  }


  ghost function Posted(calls: seq<CallLog>, c: nat): seq<CallLog>
    requires c < |calls|
  {
    calls[c := calls[c].(posts := calls[c].posts + 1)]
  }

  lemma KeyIsFree(calls: seq<CallLog>, pending: map<Key, Item>, it: Item)
    requires PendingOk(calls, pending) && KeysOk(calls)
    requires Linked(calls, it) && calls[it.call].results == [] && calls[it.call].posts == 0
    ensures it.key !in pending
  {
  }

  lemma PlaceRecords(calls: seq<CallLog>, clock: int, pending: map<Key, Item>, it: Item)
    requires CallsOk(calls, clock) && PendingOk(calls, pending) && KeysOk(calls)
    requires Linked(calls, it) && calls[it.call].results == [] && calls[it.call].posts == 0
    ensures CallsOk(Posted(calls, it.call), clock) && KeysOk(Posted(calls, it.call))
    ensures PendingOk(Posted(calls, it.call), pending[it.key := it])
  {
  }

  lemma PlaceQueues(calls: seq<CallLog>, waiting: map<PluginId, seq<Item>>, registered: set<PluginId>, it: Item)
    requires QueuesOk(calls, waiting, registered)
    requires Linked(calls, it) && !Waiting(calls[it.call], waiting)
    ensures QueuesOk(Posted(calls, it.call), waiting, registered)
  {
  }

  lemma PlacePlaces(calls: seq<CallLog>, pending: map<Key, Item>, waiting: map<PluginId, seq<Item>>, hands: set<nat>, it: Item)
    requires PlacesOk(calls, pending, waiting, hands)
    requires it.key !in pending && (forall c | 0 <= c < |calls| :: calls[c].item.call == c)
    requires Linked(calls, it) && it.call in hands
    ensures PlacesOk(Posted(calls, it.call), pending[it.key := it], waiting, hands - {it.call})
  {
  }

  lemma PlaceSlots(inflight: map<PluginId, seq<Key>>, pending: map<Key, Item>, waiting: map<PluginId, seq<Item>>,
                   caps: map<PluginId, int>, registered: set<PluginId>, it: Item)
    requires SlotsOk(inflight, pending, registered) && AdmissionOk(inflight, waiting, caps, Some(it.target))
    requires it.key !in pending && it.target in registered
    ensures SlotsOk(inflight[it.target := Including(At(inflight, it.target), it.key)], pending[it.key := it], registered)
    ensures AdmissionOk(inflight[it.target := Including(At(inflight, it.target), it.key)], waiting, caps, None)
  {
    hide AdmissionOk, SlotsOk, Including;
    PlaceSlot(inflight, pending, registered, it);
    PlaceAdmission(inflight, waiting, caps, it);
  }

  lemma PlaceSlot(inflight: map<PluginId, seq<Key>>, pending: map<Key, Item>, registered: set<PluginId>, it: Item)
    requires SlotsOk(inflight, pending, registered) && it.key !in pending && it.target in registered
    ensures it.key !in At(inflight, it.target)
    ensures SlotsOk(inflight[it.target := Including(At(inflight, it.target), it.key)], pending[it.key := it], registered)
  {
    assert it.key !in At(inflight, it.target);
    var inflight', pending' := inflight[it.target := Including(At(inflight, it.target), it.key)], pending[it.key := it];
    assert forall t :: At(inflight', t) == if t == it.target then Including(At(inflight, t), it.key) else At(inflight, t);
    forall k | k in pending' ensures k in At(inflight', pending'[k].target) && pending'[k].target in registered {
      assert k != it.key ==> k in At(inflight, pending[k].target);
    }
  }

  lemma PlaceAdmission(inflight: map<PluginId, seq<Key>>, waiting: map<PluginId, seq<Item>>, caps: map<PluginId, int>, it: Item)
    requires AdmissionOk(inflight, waiting, caps, Some(it.target)) && it.key !in At(inflight, it.target)
    ensures AdmissionOk(inflight[it.target := Including(At(inflight, it.target), it.key)], waiting, caps, None)
  {
  }

  lemma PlaceTimers(calls: seq<CallLog>, pending: map<Key, Item>, timers: map<nat, int>, it: Item)
    requires TimersOk(calls, pending, timers) && it.key !in pending && Linked(calls, it)
    requires forall c | 0 <= c < |calls| :: calls[c].item.call == c
    ensures TimersOk(Posted(calls, it.call), pending[it.key := it],
                     if it.deadlineMs > 0 then timers[it.call := it.at + it.deadlineMs] else timers)
  {
  }

  lemma PlaceInv(s: State, hands: set<nat>, it: Item)
    requires Inv(s, hands, Some(it.target)) && InHand(s, hands, it)
    ensures Inv(Place(s, it), hands - {it.call}, None)
  {
    hide CallsOk, PendingOk, QueuesOk, PlacesOk, KeysOk, SlotsOk, TimersOk, AdmissionOk, Waiting, Serving;
    HandOpen(s.calls, s.pending, s.waiting, hands, it.call);
    Numbered(s.calls, s.clock);
    KeyIsFree(s.calls, s.pending, it);
    PlaceRecords(s.calls, s.clock, s.pending, it);
    PlaceQueues(s.calls, s.waiting, s.delivered.Keys, it);
    PlacePlaces(s.calls, s.pending, s.waiting, hands, it);
    PlaceSlots(s.inflight, s.pending, s.waiting, s.caps, s.delivered.Keys, it);
    PlaceTimers(s.calls, s.pending, s.timers, it);
    assert Place(s, it).delivered.Keys == s.delivered.Keys;
  }

  /** Taking a served call out of `pending`, its timer and its slot. */
  function Unlink(s: State, key: Key): State
    requires key in s.pending
  {
    DecInflight(Forget(ClearTimer(s, s.pending[key].call), key), s.pending[key].target, key)
  }

  lemma UnlinkRecords(calls: seq<CallLog>, pending: map<Key, Item>, waiting: map<PluginId, seq<Item>>,
                      registered: set<PluginId>, key: Key)
    requires PendingOk(calls, pending) && QueuesOk(calls, waiting, registered) && key in pending
    ensures PendingOk(calls, pending - {key}) && Linked(calls, pending[key])
    ensures Serving(calls[pending[key].call], pending) && !Waiting(calls[pending[key].call], waiting)
    ensures calls[pending[key].call].results == []
  {
  }

  lemma UnlinkServing(calls: seq<CallLog>, pending: map<Key, Item>, key: Key)
    requires key in pending && Linked(calls, pending[key]) && pending[key].key == key
    requires forall c | 0 <= c < |calls| :: calls[c].item.call == c
    ensures forall c | 0 <= c < |calls| :: Serving(calls[c], pending - {key}) <==> Serving(calls[c], pending) && c != pending[key].call
  {
  }

  lemma UnlinkPlaces(calls: seq<CallLog>, pending: map<Key, Item>, pending': map<Key, Item>,
                     waiting: map<PluginId, seq<Item>>, hands: set<nat>, timers: map<nat, int>, d: nat)
    requires PlacesOk(calls, pending, waiting, hands) && TimersOk(calls, pending, timers)
    requires d < |calls| && calls[d].results == [] && !Waiting(calls[d], waiting)
    requires forall c | 0 <= c < |calls| :: Serving(calls[c], pending') <==> Serving(calls[c], pending) && c != d
    ensures PlacesOk(calls, pending', waiting, hands + {d})
    ensures TimersOk(calls, pending', timers - {d})
  {
  }

  lemma SlotOf(inflight: map<PluginId, seq<Key>>, pending: map<Key, Item>, registered: set<PluginId>, key: Key)
    requires SlotsOk(inflight, pending, registered) && key in pending
    ensures var t := pending[key].target; t in inflight && key in inflight[t] && NoRepeats(inflight[t])
  {
  }

  lemma UnlinkSlots(inflight: map<PluginId, seq<Key>>, pending: map<Key, Item>, registered: set<PluginId>, key: Key,
                    t: PluginId, rest: seq<Key>)
    requires SlotsOk(inflight, pending, registered) && key in pending && pending[key].target == t
    requires NoRepeats(rest) && forall k :: k in rest <==> k in At(inflight, t) && k != key
    ensures SlotsOk(inflight[t := rest], pending - {key}, registered)
  {
    var inflight' := inflight[t := rest];
    hide NoRepeats;
    assert At(inflight', t) == rest;
    forall u | u != t ensures At(inflight', u) == At(inflight, u) && NoRepeats(At(inflight', u)) {
      assert NoRepeats(At(inflight, u));
    }
  }

  lemma UnlinkAdmission(inflight: map<PluginId, seq<Key>>, waiting: map<PluginId, seq<Item>>,
                        caps: map<PluginId, int>, t: PluginId, key: Key)
    requires AdmissionOk(inflight, waiting, caps, None) && t in inflight && key in inflight[t] && NoRepeats(inflight[t])
    ensures AdmissionOk(inflight[t := Without(inflight[t], key)], waiting, caps, Some(t))
  {
  }

  lemma UnlinkInv(s: State, hands: set<nat>, key: Key)
    requires Inv(s, hands, None) && key in s.pending
    ensures Inv(Unlink(s, key), hands + {s.pending[key].call}, Some(s.pending[key].target))
    ensures s.pending[key].call < |s.calls|
  {
    hide CallsOk, PendingOk, QueuesOk, PlacesOk, KeysOk, SlotsOk, TimersOk, AdmissionOk, Waiting, Serving;
    Numbered(s.calls, s.clock);
    PendingAt(s.calls, s.pending, key);
    UnlinkRecords(s.calls, s.pending, s.waiting, s.delivered.Keys, key);
    UnlinkServing(s.calls, s.pending, key);
    UnlinkPlaces(s.calls, s.pending, s.pending - {key}, s.waiting, hands, s.timers, s.pending[key].call);
    var t := s.pending[key].target;
    SlotOf(s.inflight, s.pending, s.delivered.Keys, key);
    UnlinkSlots(s.inflight, s.pending, s.delivered.Keys, key, t, Without(s.inflight[t], key));
    UnlinkAdmission(s.inflight, s.waiting, s.caps, s.pending[key].target, key);
  }

  lemma PendingAt(calls: seq<CallLog>, pending: map<Key, Item>, key: Key)
    requires PendingOk(calls, pending) && key in pending
    ensures pending[key].key == key && Linked(calls, pending[key]) && calls[pending[key].call].results == []
  {
  }
}

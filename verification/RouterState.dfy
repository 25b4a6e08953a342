/** The delivery core of the port router as values: one state, one function per event. Every event
    runs to completion, so it is one atomic step; `PortRouter` performs the same steps in place. */
module RouterState {
  import opened Wrappers
  import opened Ordered

  type PluginId = string
  type Key = string        // causation id
  type Chunk = string

  datatype PortError = Refused | Revoked | Scope | Budget | Degraded

  datatype PortResult = Ok(value: string) | Err(error: PortError, detail: string)

  datatype Priority = Gate | Normal

  /** A call handed to `deliver`: `call` numbers the promise, `at` is the enqueue time. */
  datatype Item = Item(call: nat, target: PluginId, key: Key, op: string, deadlineMs: int, streaming: bool,
                       priority: Priority, at: int)

  /** What the caller and the worker observe of one call. */
  datatype CallLog = CallLog(item: Item, results: seq<PortResult>, chunks: seq<Chunk>, posts: nat)

  datatype State = State(
    clock: int,
    delivered: map<PluginId, nat>,        // registered compartments and their delivery counters
    caps: map<PluginId, int>,             // declared maxConcurrentCalls
    opPriority: map<string, Priority>,
    pending: map<Key, Item>,
    timers: map<nat, int>,                // live deadline timers: call -> due time
    inflight: map<PluginId, seq<Key>>,
    waiting: map<PluginId, seq<Item>>,
    calls: seq<CallLog>)

  const DEFAULT_CAP := 4
  const LAW_CHECK := "law.check@1"

  const INITIAL := State(0, map[], map[], map[], map[], map[], map[], map[], [])

  function CapOf(caps: map<PluginId, int>, t: PluginId): int {
    if t in caps then caps[t] else DEFAULT_CAP
  }

  function At<T>(m: map<PluginId, seq<T>>, t: PluginId): seq<T> {
    if t in m then m[t] else []
  }

  function MaxInflight(s: State, t: PluginId): int { CapOf(s.caps, t) }

  function Inflight(s: State, t: PluginId): seq<Key> { At(s.inflight, t) }

  function Queue(s: State, t: PluginId): seq<Item> { At(s.waiting, t) }

  // ---- single updates ----

  function Settle(s: State, c: nat, r: PortResult): State
    requires c < |s.calls|
  {
    s.(calls := s.calls[c := s.calls[c].(results := s.calls[c].results + [r])])
  }

  function Pop(s: State, t: PluginId): State
    requires Queue(s, t) != []
  {
    s.(waiting := s.waiting[t := Queue(s, t)[1..]])
  }

  function DecInflight(s: State, t: PluginId, key: Key): State {
    if t in s.inflight then s.(inflight := s.inflight[t := Without(s.inflight[t], key)]) else s
  }

  /** Start serving a call: count it, arm its timer for what is left of the deadline, post it. */
  function Place(s: State, it: Item): State
    requires it.call < |s.calls| && it.target in s.delivered
  {
    s.(delivered := s.delivered[it.target := s.delivered[it.target] + 1],
       pending := s.pending[it.key := it],
       timers := if it.deadlineMs > 0 then s.timers[it.call := s.clock + (it.deadlineMs - (s.clock - it.at))] else s.timers,
       inflight := s.inflight[it.target := Including(Inflight(s, it.target), it.key)],
       calls := s.calls[it.call := s.calls[it.call].(posts := s.calls[it.call].posts + 1)])
  }

  predicate Expired(s: State, it: Item) {
    it.deadlineMs > 0 && s.clock - it.at >= it.deadlineMs
  }

  const QUEUE_BUDGET := Err(Budget, "deadline exceeded in queue")
  const RUN_BUDGET := Err(Budget, "deadline exceeded")

  /** Every queued item names a known call and a registered compartment. */
  predicate QueueReady(s: State, t: PluginId) {
    ItemsReady(Queue(s, t), |s.calls|, s.delivered.Keys, t)
  }

  predicate ItemsReady(q: seq<Item>, issued: nat, registered: set<PluginId>, t: PluginId) {
    forall it | it in q :: it.call < issued && it.target == t && t in registered
  }

  // ---- release and admit ----

  function Admit(s: State, it: Item): State
    requires it.call < |s.calls| && it.target in s.delivered && QueueReady(s, it.target)
    decreases |Queue(s, it.target)|, 2
  {
    if Expired(s, it) then Release(Settle(s, it.call, QUEUE_BUDGET), it.target, "")
    else Place(s, it)
  }

  function Release(s: State, t: PluginId, key: Key): State
    requires QueueReady(s, t)
    decreases |Queue(s, t)|, 1
  {
    Refill(DecInflight(s, t, key), t)
  }

  function Refill(s: State, t: PluginId): State
    requires QueueReady(s, t)
    decreases |Queue(s, t)|, 0
  {
    if Queue(s, t) == [] then s else Admit(Pop(s, t), Queue(s, t)[0])
  }

  // ---- deliver ----

  /** Gate calls go before the first normal call; everything else goes last. */
  function Insert(q: seq<Item>, it: Item): seq<Item> {
    var i := FirstNormal(q);
    if it.priority == Gate && i < |q| then q[..i] + [it] + q[i..] else q + [it]
  }

  function FirstNormal(q: seq<Item>): (i: nat)
    ensures i <= |q|
    ensures i < |q| ==> q[i].priority == Normal
    ensures forall j | 0 <= j < i :: q[j].priority == Gate
  {
    if q == [] then 0
    else if q[0].priority == Normal then 0
    else
      var i := FirstNormal(q[1..]);
      assert i < |q| - 1 ==> q[1 + i] == q[1..][i];
      assert forall j | 0 <= j < 1 + i :: q[j].priority == Gate by {
        assert forall j | 0 < j < 1 + i :: q[j] == q[1..][j - 1];
      }
      1 + i
  }

  function Enqueue(s: State, it: Item): State
    requires it.call < |s.calls| && it.target in s.delivered && QueueReady(s, it.target)
  {
    if |Inflight(s, it.target)| < MaxInflight(s, it.target) then Admit(s, it)
    else s.(waiting := s.waiting[it.target := Insert(Queue(s, it.target), it)])
  }

  function PriorityOf(s: State, op: string): Priority {
    if op in s.opPriority then s.opPriority[op] else if op == LAW_CHECK then Gate else Normal
  }

  function NewItem(s: State, t: PluginId, key: Key, op: string, deadlineMs: int, streaming: bool): Item {
    Item(|s.calls|, t, key, op, deadlineMs, streaming, PriorityOf(s, op), s.clock)
  }

  function OpenCall(s: State, it: Item): State {
    s.(calls := s.calls + [CallLog(it, [], [], 0)])
  }

  const NO_COMPARTMENT := Err(Refused, "no compartment")

  function Deliver(s: State, t: PluginId, key: Key, op: string, deadlineMs: int, streaming: bool): State
    requires QueueReady(s, t)
  {
    var it := NewItem(s, t, key, op, deadlineMs, streaming);
    var begun := OpenCall(s, it);
    if t !in s.delivered then Settle(begun, it.call, NO_COMPARTMENT)
    else Enqueue(begun, it)
  }

  // ---- worker messages and timers ----

  function Forget(s: State, key: Key): State
    requires key in s.pending
  {
    s.(pending := s.pending - {key})
  }

  function ClearTimer(s: State, c: nat): State {
    s.(timers := s.timers - {c})
  }

  function OnReturn(s: State, plugin: PluginId, key: Key, r: PortResult): State
    requires QueueReady(s, plugin)
    requires forall k | k in s.pending :: s.pending[k].call < |s.calls|
  {
    if key !in s.pending then s
    else
      var it := s.pending[key];
      var cleared := Forget(ClearTimer(s, it.call), key);
      ReleaseKeepsCalls(cleared, plugin, key);
      Settle(Release(cleared, plugin, key), it.call, r)
  }

  function OnChunk(s: State, key: Key, chunk: Chunk): State
    requires forall k | k in s.pending :: s.pending[k].call < |s.calls|
  {
    if key in s.pending && s.pending[key].streaming then
      var c := s.pending[key].call;
      s.(calls := s.calls[c := s.calls[c].(chunks := s.calls[c].chunks + [chunk])])
    else s
  }

  /** The deadline callback of a call: it does nothing once the call left `pending`. */
  function OnTimer(s: State, it: Item): State
    requires QueueReady(s, it.target) && it.call < |s.calls|
  {
    var fired := ClearTimer(s, it.call);
    if it.key !in s.pending then fired
    else
      var forgotten := Forget(fired, it.key);
      ReleaseKeepsCalls(forgotten, it.target, it.key);
      Settle(Release(forgotten, it.target, it.key), it.call, RUN_BUDGET)
  }

  // ---- crash and terminate ----

  function FailQueue(s: State, t: PluginId, r: PortResult): State
    requires QueueReady(s, t)
    decreases |Queue(s, t)|
  {
    if Queue(s, t) == [] then s
    else FailQueue(Settle(Pop(s, t), Queue(s, t)[0].call, r), t, r)
  }

  function FailKey(s: State, key: Key, r: PortResult): State
    requires forall k | k in s.pending :: s.pending[k].call < |s.calls|
  {
    if key in s.pending then Settle(Forget(ClearTimer(s, s.pending[key].call), key), s.pending[key].call, r) else s
  }

  function FailKeys(s: State, t: PluginId, r: PortResult): State
    requires forall k | k in s.pending :: s.pending[k].call < |s.calls|
    decreases |Inflight(s, t)|
  {
    if Inflight(s, t) == [] then s
    else
      var key := Inflight(s, t)[0];
      FailKeys(FailKey(s.(inflight := s.inflight[t := Inflight(s, t)[1..]]), key, r), t, r)
  }

  function FailInflight(s: State, t: PluginId, reason: string): State
    requires QueueReady(s, t)
    requires forall k | k in s.pending :: s.pending[k].call < |s.calls|
  {
    var r := Err(Degraded, reason);
    FailQueueFrame(s, t, r);
    var flushed := FailQueue(s, t, r);
    FailKeys(flushed.(waiting := flushed.waiting - {t}), t, r)
  }

  // ---- register and clock ----

  function Register(s: State, id: PluginId, cap: Option<int>, priorities: map<string, Priority>): State {
    s.(delivered := s.delivered[id := 0],
       caps := if cap.Some? then s.caps[id := cap.value] else s.caps - {id},
       opPriority := s.opPriority + priorities)
  }

  // ---- frames needed by the definitions above ----

  lemma {:induction false} AdmitKeepsCalls(s: State, it: Item)
    requires it.call < |s.calls| && it.target in s.delivered && QueueReady(s, it.target)
    ensures |Admit(s, it).calls| == |s.calls|
    decreases |Queue(s, it.target)|, 2
  {
    if Expired(s, it) {
      ReleaseKeepsCalls(Settle(s, it.call, QUEUE_BUDGET), it.target, "");
    }
  }

  lemma {:induction false} ReleaseKeepsCalls(s: State, t: PluginId, key: Key)
    requires QueueReady(s, t)
    ensures |Release(s, t, key).calls| == |s.calls|
    decreases |Queue(s, t)|, 1
  {
    RefillKeepsCalls(DecInflight(s, t, key), t);
  }

  lemma {:induction false} RefillKeepsCalls(s: State, t: PluginId)
    requires QueueReady(s, t)
    ensures |Refill(s, t).calls| == |s.calls|
    decreases |Queue(s, t)|, 0
  {
    if Queue(s, t) != [] {
      AdmitKeepsCalls(Pop(s, t), Queue(s, t)[0]);
    }
  }

  lemma {:induction false} FailQueueFrame(s: State, t: PluginId, r: PortResult)
    requires QueueReady(s, t)
    ensures FailQueue(s, t, r).pending == s.pending
    ensures |FailQueue(s, t, r).calls| == |s.calls|
    decreases |Queue(s, t)|
  {
    if Queue(s, t) != [] {
      FailQueueFrame(Settle(Pop(s, t), Queue(s, t)[0].call, r), t, r);
    }
  }
}

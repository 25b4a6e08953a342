/** What the cap of a compartment decides: a call queued at it can leave the queue, and deadlines bound its
    wait, exactly when the cap is at least one. */
module RouterStalls {
  import opened Wrappers
  import opened RouterState
  import opened RouterInvariant
  import opened RouterEvents
  import opened RouterRuns
  import opened RouterSlots
  import opened RouterDeadlines
  import opened RouterOutcomes

  // ---- a cap below one ----

  lemma NothingInFlight(s: State, t: PluginId)
    requires Valid(s) && MaxInflight(s, t) < 1
    ensures Inflight(s, t) == []
  {
    AdmissionConservesWork(s, t);
  }

  /** The wait of `it` at `t` goes on. */
  ghost predicate StillWaits(s: State, s': State, t: PluginId, it: Item) {
    it in Queue(s', t) && MaxInflight(s', t) == MaxInflight(s, t)
  }

  lemma DeliverWaits(s: State, s': State, x: Item, t: PluginId, it: Item)
    requires HandedOver(s, s', x) && it in Queue(s, t) && Inflight(s, t) == [] && MaxInflight(s, t) < 1
    ensures StillWaits(s, s', t, it)
  {
    if x.target == t && x.target in s.delivered {
      var q, q' := Queue(s, t), Queue(s', t);
      var i :| 0 <= i <= |q| && q' == q[..i] + [x] + q[i..];
      assert q == q[..i] + q[i..];
    }
  }

  lemma EndWaits(s: State, s': State, key: Key, r: PortResult, t: PluginId, it: Item)
    requires key in s.pending && EndsServed(s, s', key, r) && it in Queue(s, t) && s.pending[key].target != t
    ensures StillWaits(s, s', t, it)
  {
    hide LateCount, CallsEnded;
  }

  lemma ServedInFlight(s: State, key: Key)
    requires Valid(s) && key in s.pending
    ensures key in Inflight(s, s.pending[key].target)
  {
    hide CallsOk, PendingOk, QueuesOk, PlacesOk, KeysOk, TimersOk, AdmissionOk;
  }

  lemma FailWaits(s: State, s': State, u: PluginId, t: PluginId, it: Item)
    requires Cleared(s, s', u) && u != t && it in Queue(s, t)
    ensures StillWaits(s, s', t, it)
  {
  }

  lemma StepWaits(s: State, e: Event, t: PluginId, it: Item)
    requires Valid(s) && Enabled(s, e) && it in Queue(s, t) && MaxInflight(s, t) < 1
    requires !(e.FailEv? && e.failed == t)
    ensures StillWaits(s, Step(s, e), t, it)
  {
    hide Inv, Deliver, OnReturn, OnTimer, FailInflight, OnChunk, EndsServed, HandedOver, Cleared, StillWaits;
    InvIsReady(s, {}, None);
    NothingInFlight(s, t);
    match e
    case DeliverEv(u, key, op, deadlineMs, streaming) =>
      DeliverIsExact(s, u, key, op, deadlineMs, streaming);
      DeliverWaits(s, Step(s, e), Step(s, e).calls[|s.calls|].item, t, it);
    case ReturnEv(plugin, key, r) =>
      ReturnIsExact(s, plugin, key, r);
      if key in s.pending {
        ServedInFlight(s, key);
        EndWaits(s, Step(s, e), key, r, t, it);
      } else {
        assert StillWaits(s, s, t, it) by { SameWaits(s, s, t, it); }
      }
    case TimerEv(c) =>
      TimerIsExact(s, c);
      ServedInFlight(s, s.calls[c].item.key);
      EndWaits(s, Step(s, e), s.calls[c].item.key, RUN_BUDGET, t, it);
    case FailEv(u, reason) =>
      FailIsExact(s, u, reason);
      FailWaits(s, Step(s, e), u, t, it);
    case RegisterEv(id, cap, priorities) =>
      assert QueueReady(s, t);
      SameWaits(s, Step(s, e), t, it);
    case ChunkEv(from, key, chunk) =>
      ChunkIsExact(s, from, key, chunk);
      SameWaits(s, Step(s, e), t, it);
    case TickEv(_) => SameWaits(s, Step(s, e), t, it);
  }

  lemma SameWaits(s: State, s': State, t: PluginId, it: Item)
    requires it in Queue(s, t) && s'.waiting == s.waiting && CapOf(s'.caps, t) == CapOf(s.caps, t)
    ensures StillWaits(s, s', t, it)
  {
  }

  /** No crash or termination of `t` in the run. */
  predicate NoFailureOf(es: seq<Event>, t: PluginId) {
    forall i | 0 <= i < |es| :: !(es[i].FailEv? && es[i].failed == t)
  }

  /** With a cap below one a queued call waits for ever, deadline or not: whatever happens short of a crash
      or termination of its target, it stays in the queue. */
  lemma {:induction false} CapBelowOneStalls(s: State, es: seq<Event>, s': State, t: PluginId, it: Item)
    requires Valid(s) && Runs(s, es, s') && NoFailureOf(es, t)
    requires it in Queue(s, t) && MaxInflight(s, t) < 1
    ensures it in Queue(s', t)
    decreases |es|
  {
    hide Inv, Step, Enabled;
    if es != [] {
      StepWaits(s, es[0], t, it);
      StepInv(s, es[0]);
      CapBelowOneStalls(Step(s, es[0]), es[1..], s', t, it);
    }
  }

  // ---- a cap of at least one ----

  /** A return at a full compartment shortens its queue. */
  lemma ReturnAdvances(s: State, t: PluginId) returns (e: Event)
    requires Valid(s) && Queue(s, t) != [] && MaxInflight(s, t) >= 1
    ensures e.ReturnEv? && Enabled(s, e) && |Queue(Step(s, e), t)| < |Queue(s, t)|
    ensures MaxInflight(Step(s, e), t) == MaxInflight(s, t)
  {
    hide Inv, OnReturn, InOrder;
    AdmissionConservesWork(s, t);
    var key, r := Inflight(s, t)[0], Ok("");
    assert key in Inflight(s, t);
    ServedBy(s, t, key);
    InvIsReady(s, {}, None);
    e := ReturnEv(t, key, r);
    ReturnIsExact(s, t, key, r);
  }

  lemma {:induction false} CanLeave(s: State, t: PluginId, it: Item) returns (es: seq<Event>, s': State)
    requires Valid(s) && it in Queue(s, t) && MaxInflight(s, t) >= 1
    ensures Runs(s, es, s') && NoFailureOf(es, t) && it !in Queue(s', t)
    decreases |Queue(s, t)|
  {
    hide Inv, Step, Enabled;
    var e := ReturnAdvances(s, t);
    var next := Step(s, e);
    StepInv(s, e);
    if it in Queue(next, t) {
      var rest;
      rest, s' := CanLeave(next, t, it);
      es := [e] + rest;
      assert es[1..] == rest;
    } else {
      es, s' := [e], next;
      assert es[1..] == [];
    }
  }

  /** Short of a crash or termination a queued call can leave its queue exactly when the cap of its target
      is at least one. */
  lemma LeavesIffCap(s: State, t: PluginId, it: Item)
    requires Valid(s) && it in Queue(s, t)
    ensures (exists es, s' :: Runs(s, es, s') && NoFailureOf(es, t) && it !in Queue(s', t)) <==> MaxInflight(s, t) >= 1
  {
    hide Inv;
    if MaxInflight(s, t) >= 1 {
      var es, s' := CanLeave(s, t, it);
    } else {
      forall es, s' | Runs(s, es, s') && NoFailureOf(es, t) ensures it in Queue(s', t) {
        CapBelowOneStalls(s, es, s', t, it);
      }
    }
  }

  // ---- deadlines ----

  /** In every run, once all outstanding deadlines passed and no due timer is left, nothing is served and
      nothing queued at a compartment of this cap. */
  ghost predicate DeadlinesHold(cap: int) {
    forall es, s, t :: Runs(INITIAL, es, s) && t in s.delivered && MaxInflight(s, t) == cap && AllDue(s) && TimersSettled(s)
                       ==> s.pending == map[] && Queue(s, t) == []
  }

  /** Deadlines bound the wait at a compartment exactly when its cap is at least one. */
  lemma DeadlinesHoldIffCap(cap: int)
    ensures DeadlinesHold(cap) <==> cap >= 1
  {
    InitialIsValid();
    if cap >= 1 {
      hide Inv, AllDue, TimersSettled;
      forall es, s, t | Runs(INITIAL, es, s) && t in s.delivered && MaxInflight(s, t) == cap && AllDue(s) && TimersSettled(s)
        ensures s.pending == map[] && Queue(s, t) == []
      {
        ReachableIsValid(INITIAL, es, s);
        DeadlinesAreMet(s);
      }
    } else {
      var es, s := LateForEver(cap);
      assert Queue(s, "t") != [];
    }
  }

  /** A compartment of this cap with no call yet; one with a call of one millisecond queued. */
  function Started(cap: int): State {
    INITIAL.(delivered := map["t" := 0], caps := map["t" := cap])
  }

  const LATE := Item(0, "t", "k", "op", 1, false, Normal, 0)

  function Queued(cap: int): State {
    Started(cap).(waiting := map["t" := [LATE]], calls := [CallLog(LATE, [], [], 0)])
  }

  lemma StartStep(cap: int)
    ensures Valid(INITIAL) && Enabled(INITIAL, RegisterEv("t", Some(cap), map[]))
    ensures Step(INITIAL, RegisterEv("t", Some(cap), map[])) == Started(cap)
  {
    InitialIsValid();
    hide Inv;
  }

  lemma QueueStep(cap: int)
    requires cap < 1 && Valid(Started(cap))
    ensures Enabled(Started(cap), DeliverEv("t", "k", "op", 1, false))
    ensures Step(Started(cap), DeliverEv("t", "k", "op", 1, false)) == Queued(cap)
  {
    hide Inv;
    var s := Started(cap);
    var begun := OpenCall(s, LATE);
    assert NewItem(s, "t", "k", "op", 1, false) == LATE && LATE.op != LAW_CHECK;
    assert s.calls + [CallLog(LATE, [], [], 0)] == [CallLog(LATE, [], [], 0)];
    assert Queue(begun, "t") == [] && Insert([], LATE) == [LATE];
    assert begun.waiting["t" := [LATE]] == map["t" := [LATE]];
  }

  lemma LateForEver(cap: int) returns (es: seq<Event>, s: State)
    requires cap < 1
    ensures Runs(INITIAL, es, s) && "t" in s.delivered && MaxInflight(s, "t") == cap && AllDue(s) && TimersSettled(s)
    ensures Queue(s, "t") != []
  {
    hide Inv, Step, Enabled;
    var e1, e2, e3 := RegisterEv("t", Some(cap), map[]), DeliverEv("t", "k", "op", 1, false), TickEv(1);
    StartStep(cap);
    StepInv(INITIAL, e1);
    QueueStep(cap);
    StepInv(Started(cap), e2);
    s := Queued(cap).(clock := 1);
    TickStep(Queued(cap), 1);
    es := [e1, e2, e3];
    assert es[1..] == [e2, e3] && [e2, e3][1..] == [e3] && [e3][1..] == [];
    assert Runs(Queued(cap), [e3], s);
    assert Runs(Started(cap), [e2, e3], s);
  }

  lemma TickStep(s: State, to: int)
    requires Valid(s) && s.clock <= to
    ensures Enabled(s, TickEv(to)) && Step(s, TickEv(to)) == s.(clock := to)
  {
  }
}

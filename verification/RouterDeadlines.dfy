/** Deadlines, failure and the limits of the router's guarantees. */
module RouterDeadlines {
  import opened Wrappers
  import opened Ordered
  import opened RouterState
  import opened RouterInvariant
  import opened RouterEvents
  import opened RouterRuns
  import opened RouterSlots

  // ---- deadlines ----

  ghost predicate AllDue(s: State) {
    forall c | 0 <= c < |s.calls| && s.calls[c].results == [] ::
      s.calls[c].item.deadlineMs > 0 && s.clock >= s.calls[c].item.at + s.calls[c].item.deadlineMs
  }

  /** No live timer is due: the event loop has caught up with the clock. */
  ghost predicate TimersSettled(s: State) {
    forall c | c in s.timers :: s.timers[c] > s.clock
  }

  /** Once the clock has passed every outstanding deadline and due timers have fired, nothing is
      pending, and a queue can only hold calls for a target whose cap is below one. */
  lemma DeadlinesAreMet(s: State)
    requires Valid(s) && AllDue(s) && TimersSettled(s)
    ensures s.pending == map[]
    ensures forall t | MaxInflight(s, t) >= 1 :: Queue(s, t) == []
  {
    NothingPending(s);
    hide CallsOk, PendingOk, QueuesOk, PlacesOk, KeysOk, TimersOk, NoRepeats;
    forall t | MaxInflight(s, t) >= 1 ensures Queue(s, t) == [] {
      NoMembers(At(s.inflight, t));
      assert Admitted(|At(s.inflight, t)| + (if None == Some(t) then 1 else 0), At(s.waiting, t), CapOf(s.caps, t));
    }
  }

  lemma NothingPending(s: State)
    requires Valid(s) && AllDue(s) && TimersSettled(s)
    ensures s.pending == map[]
  {
  }

  /** A served call with a deadline has a live timer for exactly that deadline, counted from when it
      was handed to the router, not from when it was admitted. */
  lemma PendingIsTimed(s: State, k: Key)
    requires Valid(s) && k in s.pending
    ensures var it := s.pending[k];
            && it.call < |s.calls| && s.calls[it.call].item == it && s.calls[it.call].results == []
            && (it.deadlineMs > 0 ==> it.call in s.timers && s.timers[it.call] == it.at + it.deadlineMs)
  {
    hide QueuesOk, PlacesOk, KeysOk, SlotsOk, AdmissionOk;
    PendingAt(s.calls, s.pending, k);
    assert Serving(s.calls[s.pending[k].call], s.pending);
  }

  // ---- the event loop catches up ----

  ghost function Due(s: State): set<nat> {
    set c | c in s.timers && s.timers[c] <= s.clock
  }

  /** The fired timer is gone; any other new one is not yet due. */
  ghost predicate FiredOne(s: State, s': State, c: nat) {
    s'.clock == s.clock && |s'.calls| == |s.calls| && s'.timers.Keys >= s.timers.Keys - {c}
    && forall d | d in s'.timers :: d != c && (d in s.timers || (d < |s.calls| && !Late(s.calls[d].item, s.clock)))
  }

  lemma FiredShape(s: State, c: nat)
    requires Valid(s) && Enabled(s, TimerEv(c))
    ensures FiredOne(s, Step(s, TimerEv(c)), c)
  {
    hide Inv, Step, OfferedTo, PlacesPassed, Late;
    TimerIsExact(s, c);
    var it := s.calls[c].item;
    InvIsReady(s, {}, None);
    ServedNotQueued(s, it.key);
    QueuedLinks(s, it.target);
  }

  lemma QueuedLinks(s: State, t: PluginId)
    requires Valid(s)
    ensures forall i | 0 <= i < |Queue(s, t)| :: Queue(s, t)[i].call < |s.calls| && s.calls[Queue(s, t)[i].call].item == Queue(s, t)[i]
  {
    hide CallsOk, PendingOk, PlacesOk, KeysOk, SlotsOk, TimersOk, AdmissionOk, InOrder;
    forall i | 0 <= i < |Queue(s, t)| ensures QueuedOk(s.calls, Queue(s, t)[i]) {
      assert Queue(s, t)[i] in At(s.waiting, t);
    }
  }

  /** Firing one due timer leaves one due timer fewer. */
  lemma FiringProgresses(s: State, c: nat)
    requires Valid(s) && Enabled(s, TimerEv(c))
    ensures Due(Step(s, TimerEv(c))) == Due(s) - {c}
  {
    hide Step, Inv, Extends, FiredOne;
    StepInv(s, TimerEv(c));
    StepExtends(s, TimerEv(c));
    IsDue(s, c);
    FiredShape(s, c);
    DueAfter(s, Step(s, TimerEv(c)), c);
  }

  lemma DueAfter(s: State, s': State, c: nat)
    requires Valid(s) && Valid(s') && Extends(s, s') && FiredOne(s, s', c) && c in Due(s)
    ensures Due(s') == Due(s) - {c}
  {
    hide Inv;
    forall d ensures d in Due(s') <==> d in Due(s) - {c} {
      if d in s'.timers {
        TimerValue(s', d);
        assert d < |s.calls| by { if d in s.timers { TimerValue(s, d); } }
      }
      if d in s.timers {
        TimerValue(s, d);
      }
    }
  }

  lemma TimerValue(s: State, d: nat)
    requires Valid(s) && d in s.timers
    ensures d < |s.calls| && s.calls[d].item.deadlineMs > 0
    ensures s.timers[d] == s.calls[d].item.at + s.calls[d].item.deadlineMs
  {
    hide PendingOk, QueuesOk, PlacesOk, KeysOk, SlotsOk, AdmissionOk, CallsOk;
  }

  predicate OnlyTimers(es: seq<Event>) {
    forall i | 0 <= i < |es| :: es[i].TimerEv?
  }

  /** Past every outstanding deadline each timer that fires takes one off the due ones, in any order. */
  lemma {:induction false} TimersCountDown(s: State, es: seq<Event>, s': State)
    requires Valid(s) && AllDue(s) && Runs(s, es, s') && OnlyTimers(es)
    ensures Valid(s') && AllDue(s') && |Due(s')| == |Due(s)| - |es|
    decreases |es|
  {
    hide Inv, Step, AllDue, Extends;
    if es != [] {
      var c := es[0].call;
      StepInv(s, es[0]);
      StepExtends(s, es[0]);
      FiringProgresses(s, c);
      StillDue(s, c);
      IsDue(s, c);
      TimersCountDown(Step(s, es[0]), es[1..], s');
    }
  }

  lemma IsDue(s: State, c: nat)
    requires Valid(s) && Enabled(s, TimerEv(c))
    ensures c in Due(s)
  {
    hide Inv;
  }

  /** Past every outstanding deadline any firing of timers, in whatever order, that leaves no due one takes
      exactly as many steps as there were due timers, and then nothing is pending and every queue with a cap
      of at least one is empty. */
  lemma DeadlinesDrain(s: State, es: seq<Event>, s': State)
    requires Valid(s) && AllDue(s) && Runs(s, es, s') && OnlyTimers(es) && Due(s') == {}
    ensures |es| == |Due(s)|
    ensures s'.pending == map[]
    ensures forall t | MaxInflight(s', t) >= 1 :: Queue(s', t) == []
  {
    hide Inv, AllDue, Runs;
    TimersCountDown(s, es, s');
    forall c | c in s'.timers ensures s'.timers[c] > s'.clock {
      assert c !in Due(s');
    }
    DeadlinesAreMet(s');
  }

  /** Such a firing always exists: as long as a timer is due it can fire. */
  lemma {:induction false} DueTimersCanFire(s: State) returns (es: seq<Event>, s': State)
    requires Valid(s) && AllDue(s)
    ensures Runs(s, es, s') && OnlyTimers(es) && Due(s') == {}
    decreases |Due(s)|
  {
    hide Inv, Step, AllDue, Extends;
    if Due(s) == {} {
      es, s' := [], s;
    } else {
      var c :| c in Due(s);
      StepInv(s, TimerEv(c));
      StepExtends(s, TimerEv(c));
      FiringProgresses(s, c);
      StillDue(s, c);
      var rest;
      rest, s' := DueTimersCanFire(Step(s, TimerEv(c)));
      es := [TimerEv(c)] + rest;
      assert es[1..] == rest;
    }
  }

  lemma StillDue(s: State, c: nat)
    requires Valid(s) && Enabled(s, TimerEv(c)) && AllDue(s) && Extends(s, Step(s, TimerEv(c)))
    ensures AllDue(Step(s, TimerEv(c)))
  {
    hide Step, Valid, Enabled;
    FiredShape(s, c);
  }

  // ---- crash and terminate ----

  /** Only open calls of `t` changed, and each of those got exactly the result `r`. */
  ghost predicate SettledBy(s: State, s': State, t: PluginId, r: PortResult) {
    |s'.calls| == |s.calls| &&
    forall c | 0 <= c < |s.calls| ::
      s'.calls[c] == s.calls[c]
      || (s.calls[c].results == [] && s.calls[c].item.target == t && s'.calls[c] == s.calls[c].(results := [r]))
  }

  lemma SettledByTransitive(a: State, b: State, c: State, t: PluginId, r: PortResult)
    requires SettledBy(a, b, t, r) && SettledBy(b, c, t, r)
    ensures SettledBy(a, c, t, r)
  {
  }

  lemma SettledOne(s: State, s': State, c: nat, t: PluginId, r: PortResult)
    requires c < |s.calls| && s'.calls == s.calls && s.calls[c].results == [] && s.calls[c].item.target == t
    ensures SettledBy(s, Settle(s', c, r), t, r)
  {
  }

  lemma {:induction false} FailQueueSettles(s: State, t: PluginId, r: PortResult)
    requires Inv(s, {}, None) && QueueReady(s, t)
    ensures SettledBy(s, FailQueue(s, t, r), t, r)
    decreases |Queue(s, t)|
  {
    if Queue(s, t) != [] {
      hide Inv, SettledBy;
      var c := Queue(s, t)[0].call;
      HeadFull(s, t);
      PopFullInv(s, t);
      SettledOne(s, Pop(s, t), c, t, r);
      SettleInv(Pop(s, t), {c}, None, c, r);
      assert {c} - {c} == {};
      FailQueueSettles(Settle(Pop(s, t), c, r), t, r);
      SettledByTransitive(s, Settle(Pop(s, t), c, r), FailQueue(s, t, r), t, r);
    } else {
      assert SettledBy(s, s, t, r);
    }
  }

  lemma {:induction false} FailKeysSettles(s: State, t: PluginId, r: PortResult)
    requires Inv(s, {}, None) && Queue(s, t) == []
    requires forall k | k in s.pending :: s.pending[k].call < |s.calls|
    ensures SettledBy(s, FailKeys(s, t, r), t, r)
    decreases |Inflight(s, t)|
  {
    hide Inv, SettledBy, FailedFirst;
    if Inflight(s, t) != [] {
      FailFirst(s, t, r);
      FirstSettled(s, t, r);
      FailKeysSettles(FailedFirst(s, t, r), t, r);
      SettledByTransitive(s, FailedFirst(s, t, r), FailKeys(s, t, r), t, r);
    } else {
      NothingSettled(s, t, r);
      assert FailKeys(s, t, r) == s;
    }
  }

  lemma NothingSettled(s: State, t: PluginId, r: PortResult)
    ensures SettledBy(s, s, t, r)
  {
  }

  lemma FirstSettled(s: State, t: PluginId, r: PortResult)
    requires Inflight(s, t) != [] && Inflight(s, t)[0] in s.pending
    requires var c := s.pending[Inflight(s, t)[0]].call; c < |s.calls| && s.calls[c].results == [] && s.calls[c].item.target == t
    ensures SettledBy(s, FailedFirst(s, t, r), t, r)
  {
  }

  lemma FailSettles(s: State, t: PluginId, reason: string)
    requires Valid(s)
    ensures QueueReady(s, t) && forall k | k in s.pending :: s.pending[k].call < |s.calls|
    ensures SettledBy(s, FailInflight(s, t, reason), t, Err(Degraded, reason))
  {
    hide Inv, FailQueue, FailKeys;
    InvIsReady(s, {}, None);
    var r := Err(Degraded, reason);
    FailQueueFrame(s, t, r);
    FailQueueInv(s, t, r);
    FailQueueSettles(s, t, r);
    var flushed := FailQueue(s, t, r).(waiting := FailQueue(s, t, r).waiting - {t});
    DropQueueInv(FailQueue(s, t, r), t);
    FailKeysSettles(flushed, t, r);
    SettledByTransitive(s, flushed, FailKeys(flushed, t, r), t, r);
  }

  /** A crash or termination resolves exactly the outstanding calls of that compartment, each with the
      stated reason, and leaves every other call as it was. */
  lemma FailResolvesExactly(s: State, t: PluginId, reason: string, c: nat)
    requires Valid(s) && c < |s.calls|
    ensures var s' := Step(s, FailEv(t, reason));
            && |s'.calls| == |s.calls|
            && s'.calls[c] == if s.calls[c].results == [] && s.calls[c].item.target == t
                              then s.calls[c].(results := [Err(Degraded, reason)]) else s.calls[c]
  {
    hide Inv, FailInflight;
    InvIsReady(s, {}, None);
    FailSettles(s, t, reason);
    FailInv(s, t, reason);
    var s' := FailInflight(s, t, reason);
    if s.calls[c].results == [] && s.calls[c].item.target == t {
      NothingLeftAt(s', t, c);
    }
  }

  lemma NothingLeftAt(s: State, t: PluginId, c: nat)
    requires Valid(s) && Inflight(s, t) == [] && Queue(s, t) == [] && c < |s.calls| && s.calls[c].item.target == t
    ensures s.calls[c].results != []
  {
  }

  // ---- a return from the wrong compartment ----

  /** Handling a return keeps the invariant exactly when the id is not pending or is being served by the
      sender: a return from elsewhere removes the pending entry but not the server's slot. */
  lemma ReturnKeepsInvariantIff(s: State, plugin: PluginId, key: Key, r: PortResult)
    requires Valid(s)
    ensures QueueReady(s, plugin) && forall k | k in s.pending :: s.pending[k].call < |s.calls|
    ensures Valid(OnReturn(s, plugin, key, r)) <==> (key in s.pending ==> key in Inflight(s, plugin))
  {
    InvIsReady(s, {}, None);
    if key in s.pending ==> key in Inflight(s, plugin) {
      ReturnInv(s, plugin, key, r);
    } else {
      var t := s.pending[key].target;
      SlotOf(s.inflight, s.pending, s.delivered.Keys, key);
      KeyNotQueued(s, plugin, key);
      assert t != plugin;
      hide Inv, Refill;
      LeaksSlot(s, plugin, key, r, t);
      SlotMeansPending(OnReturn(s, plugin, key, r), t, key);
    }
  }

  lemma SlotMeansPending(s: State, t: PluginId, key: Key)
    requires key in Inflight(s, t)
    ensures Valid(s) ==> key in s.pending
  {
  }

  lemma LeaksSlot(s: State, plugin: PluginId, key: Key, r: PortResult, t: PluginId)
    requires QueueReady(s, plugin) && key in s.pending && t != plugin && key in Inflight(s, t)
    requires forall k | k in s.pending :: s.pending[k].call < |s.calls|
    requires forall it | it in Queue(s, plugin) :: it.key != key
    ensures key !in OnReturn(s, plugin, key, r).pending && key in Inflight(OnReturn(s, plugin, key, r), t)
  {
    hide Refill;
    var cleared := Forget(ClearTimer(s, s.pending[key].call), key);
    ReleaseKeepsCalls(cleared, plugin, key);
    var dec := DecInflight(cleared, plugin, key);
    RefillTouches(dec, plugin);
    assert Queue(dec, plugin) == Queue(s, plugin) && Inflight(dec, t) == Inflight(s, t) && dec.pending == cleared.pending;
    assert Release(cleared, plugin, key) == Refill(dec, plugin);
    assert key !in Refill(dec, plugin).pending;
  }

  /** Offering a slot of `t` serves only calls queued at `t` and leaves other in-flight sets alone. */
  lemma {:induction false} RefillTouches(s: State, t: PluginId)
    requires QueueReady(s, t)
    ensures forall u | u != t :: Inflight(Refill(s, t), u) == Inflight(s, u)
    ensures forall k | k in Refill(s, t).pending :: k in s.pending || exists it :: it in Queue(s, t) && it.key == k
    decreases |Queue(s, t)|
  {
    if Queue(s, t) != [] {
      var it, popped := Queue(s, t)[0], Pop(s, t);
      assert it in Queue(s, t);
      assert Queue(s, t) == [it] + Queue(popped, t);
      if Expired(popped, it) {
        var settled := Settle(popped, it.call, QUEUE_BUDGET);
        assert Admit(popped, it) == Release(settled, t, "");
        RefillTouches(DecInflight(settled, t, ""), t);
      }
    }
  }

  lemma KeyNotQueued(s: State, t: PluginId, key: Key)
    requires Valid(s) && key in s.pending
    ensures forall it | it in Queue(s, t) :: it.key != key
  {
    hide CallsOk, PlacesOk, SlotsOk, TimersOk, AdmissionOk, InOrder;
    PendingAt(s.calls, s.pending, key);
    forall it | it in Queue(s, t) ensures it.key != key {
      assert it in At(s.waiting, t);
      assert QueuedOk(s.calls, it);
    }
  }
}

/** How a dispatch ends: exactly when it delivers its call, waits, or refuses it. */
module DispatchOutcomes {
  import opened Wrappers
  import opened Dispatch

  /** The compartment is registered and neither stopped nor degraded. */
  predicate Well(s: State, id: PluginId) {
    id in s.compartments && s.compartments[id] != Stopped && s.compartments[id] != Degraded
  }

  /** A first touch would spawn it. */
  predicate Spawnable(s: State, id: PluginId) {
    id !in s.compartments && id in s.dormant
  }

  /** An error result, no value, deny and require-consent stop a risky call; everything else lets it on. */
  predicate Stops(a: GateAnswer) {
    a == GateError || a == NoValue || a == Decided(Deny) || a == Decided(RequireConsent)
  }

  /** What tells the frames of one dispatch apart from all others. */
  ghost predicate OthersStay(s: State, s': State, f: nat) {
    && |s.frames| <= |s'.frames| <= |s.frames| + 1 && (|s'.frames| == |s.frames| + 1 ==> f == |s.frames|)
    && forall x | 0 <= x < |s.frames| && x != f :: s'.frames[x] == s.frames[x]
  }

  ghost predicate SameHost(s: State, s': State) {
    && s'.lawRouted == s.lawRouted && s'.hasSpawner == s.hasSpawner && s'.declaredRisk == s.declaredRisk
    && s'.risk == s.risk && s'.compartments == s.compartments && s'.dormant == s.dormant
  }

  /** Call `fr` of dispatch `f`, past the gate: handed to its target's queue when that is well; waiting for the
      one spawn of its target, started now unless it is under way, when that is dormant; refused otherwise. */
  ghost predicate GoesOnAs(s: State, s': State, f: nat, fr: Frame, log: seq<Note>) {
    var id := fr.target.impl;
    && SameHost(s, s') && f < |s'.frames|
    && (Well(s, id) ==>
          && s'.frames[f] == fr.(phase := Delivered) && s'.log == log + [CallDelivered(id, fr.principal, fr.target.op, f)]
          && s'.spawning == s.spawning && s'.spawns == s.spawns)
    && (Spawnable(s, id) && id in s.spawning ==>
          && s'.frames[f] == fr.(phase := AwaitingSpawn(s.spawning[id])) && s'.log == log
          && s'.spawning == s.spawning && s'.spawns == s.spawns)
    && (Spawnable(s, id) && id !in s.spawning ==>
          && s'.frames[f] == fr.(phase := AwaitingSpawn(|s.spawns|)) && s'.spawning == s.spawning[id := |s.spawns|]
          && s'.spawns == s.spawns + [Spawn(id, if s.hasSpawner then CheckingOut else Settled(false))]
          && s'.log == log + if s.hasSpawner then [SpawnStarted(id, fr.principal, fr.target.op, f)] else [])
    && (!Well(s, id) && !Spawnable(s, id) ==>
          s'.frames[f] == fr.(phase := Refused) && s'.log == log && s'.spawning == s.spawning && s'.spawns == s.spawns)
  }

  ghost predicate StopsAs(s: State, s': State, f: nat, fr: Frame, log: seq<Note>) {
    && SameHost(s, s') && s'.spawning == s.spawning && s'.spawns == s.spawns
    && f < |s'.frames| && s'.frames[f] == fr && s'.log == log
  }

  lemma ProceedIs(s: State, f: nat)
    requires f < |s.frames|
    ensures GoesOnAs(s, Proceed(s, f), f, s.frames[f], s.log) && OthersStay(s, Proceed(s, f), f)
  {
    hide Finish, JoinSpawn, GoesOnAs, OthersStay;
    if Spawnable(s, s.frames[f].target.impl) {
      JoinIs(s, f);
    } else {
      FinishIs(s, f);
    }
  }

  lemma JoinIs(s: State, f: nat)
    requires f < |s.frames| && Spawnable(s, s.frames[f].target.impl)
    ensures GoesOnAs(s, JoinSpawn(s, f), f, s.frames[f], s.log) && OthersStay(s, JoinSpawn(s, f), f)
  {
    assert s.log + [] == s.log;
  }

  lemma FinishIs(s: State, f: nat)
    requires f < |s.frames| && !Spawnable(s, s.frames[f].target.impl)
    ensures GoesOnAs(s, Finish(s, f), f, s.frames[f], s.log) && OthersStay(s, Finish(s, f), f)
  {
  }

  /** A call without a target is refused; one of a risky op waits for the law, and is refused when none is routed;
      any other goes on. */
  lemma CallIsExact(s: State, principal: PluginId, resolved: Option<Target>)
    ensures var s', f := Step(s, Call(principal, resolved)), |s.frames|;
            && OthersStay(s, s', f)
            && (resolved.None? ==> StopsAs(s, s', f, Frame(principal, Target("", ""), Refused), s.log))
            && (resolved.Some? ==>
                  var fr, risky := Frame(principal, resolved.value, AwaitingLaw), resolved.value.op in s.risk;
                  && (risky && s.lawRouted ==> StopsAs(s, s', f, fr, s.log))
                  && (risky && !s.lawRouted ==> StopsAs(s, s', f, fr.(phase := Refused), s.log))
                  && (!risky ==> GoesOnAs(s, s', f, fr, s.log)))
  {
    hide Proceed, GoesOnAs;
    if resolved.Some? && resolved.value.op !in s.risk {
      var begun := s.(frames := s.frames + [Frame(principal, resolved.value, AwaitingLaw)]);
      ProceedIs(begun, |s.frames|);
      SameGoesOn(s, begun, Proceed(begun, |s.frames|), |s.frames|, begun.frames[|s.frames|], s.log);
    }
  }

  lemma SameGoesOn(s: State, t: State, s': State, f: nat, fr: Frame, log: seq<Note>)
    requires GoesOnAs(t, s', f, fr, log) && SameHost(s, t) && t.spawning == s.spawning && t.spawns == s.spawns
    ensures GoesOnAs(s, s', f, fr, log)
  {
  }

  /** The law's answer is noted; the call is refused when it stops it and goes on otherwise. */
  lemma LawReplyIsExact(s: State, f: nat, answer: GateAnswer)
    requires Enabled(s, LawReply(f, answer))
    ensures var s', fr := Step(s, LawReply(f, answer)), s.frames[f];
            var log := s.log + [LawAnswered(fr.principal, fr.target.op, f, answer)];
            && OthersStay(s, s', f)
            && if Stops(answer) then StopsAs(s, s', f, fr.(phase := Refused), log) else GoesOnAs(s, s', f, fr, log)
  {
    hide Proceed, GoesOnAs;
    var fr := s.frames[f];
    if !Stops(answer) {
      var answered := Logged(s, LawAnswered(fr.principal, fr.target.op, f, answer));
      ProceedIs(answered, f);
      SameGoesOn(s, answered, Proceed(answered, f), f, fr, answered.log);
    }
  }

  /** After a good spawn the call is handed over when its target is well; otherwise, and after a failed spawn, it
      is refused. */
  lemma ResumeIsExact(s: State, f: nat)
    requires Enabled(s, Resume(f))
    ensures var s', fr := Step(s, Resume(f)), s.frames[f];
            && OthersStay(s, s', f)
            && if s.spawns[fr.phase.spawn].phase.ok && Well(s, fr.target.impl)
               then StopsAs(s, s', f, fr.(phase := Delivered), s.log + [CallDelivered(fr.target.impl, fr.principal, fr.target.op, f)])
               else StopsAs(s, s', f, fr.(phase := Refused), s.log)
  {
  }

  // ---- one dispatch, every end ----

  /** Whether a dispatch of this target, past the gate, has nowhere to go. */
  predicate Homeless(s: State, id: PluginId) {
    !Well(s, id) && !Spawnable(s, id)
  }

  predicate Refuses(s: State, e: Event, f: nat)
    requires Enabled(s, e)
  {
    || (e.Call? && f == |s.frames|
        && (e.resolved.None? || (if e.resolved.value.op in s.risk then !s.lawRouted else Homeless(s, e.resolved.value.impl))))
    || (e.LawReply? && f == e.f && (Stops(e.answer) || Homeless(s, s.frames[f].target.impl)))
    || (e.Resume? && f == e.f && !(s.spawns[s.frames[f].phase.spawn].phase.ok && Well(s, s.frames[f].target.impl)))
  }

  predicate Delivers(s: State, e: Event, f: nat)
    requires Enabled(s, e)
  {
    || (e.Call? && f == |s.frames| && e.resolved.Some? && e.resolved.value.op !in s.risk && Well(s, e.resolved.value.impl))
    || (e.LawReply? && f == e.f && !Stops(e.answer) && Well(s, s.frames[f].target.impl))
    || (e.Resume? && f == e.f && s.spawns[s.frames[f].phase.spawn].phase.ok && Well(s, s.frames[f].target.impl))
  }

  ghost predicate EndsAs(s: State, e: Event, s': State, f: nat)
    requires Enabled(s, e)
  {
    f < |s'.frames| ==>
      && (s'.frames[f].phase == Refused <==> Refuses(s, e, f) || (f < |s.frames| && s.frames[f].phase == Refused))
      && (s'.frames[f].phase == Delivered <==> Delivers(s, e, f) || (f < |s.frames| && s.frames[f].phase == Delivered))
  }

  lemma CallEnds(s: State, principal: PluginId, resolved: Option<Target>, f: nat)
    ensures EndsAs(s, Call(principal, resolved), Step(s, Call(principal, resolved)), f)
  {
    hide Step;
    CallIsExact(s, principal, resolved);
  }

  lemma ReplyEnds(s: State, g: nat, answer: GateAnswer, f: nat)
    requires Enabled(s, LawReply(g, answer))
    ensures EndsAs(s, LawReply(g, answer), Step(s, LawReply(g, answer)), f)
  {
    hide Step;
    LawReplyIsExact(s, g, answer);
  }

  lemma ResumeEnds(s: State, g: nat, f: nat)
    requires Enabled(s, Resume(g))
    ensures EndsAs(s, Resume(g), Step(s, Resume(g)), f)
  {
    hide Step;
    ResumeIsExact(s, g);
  }

  /** A piece of some dispatch ends dispatch `f` in a refusal, or in a delivery, exactly under these conditions. */
  lemma EndsIff(s: State, e: Event, f: nat)
    requires Enabled(s, e) && f < |Step(s, e).frames|
    ensures Step(s, e).frames[f].phase == Refused <==> Refuses(s, e, f) || (f < |s.frames| && s.frames[f].phase == Refused)
    ensures Step(s, e).frames[f].phase == Delivered <==> Delivers(s, e, f) || (f < |s.frames| && s.frames[f].phase == Delivered)
  {
    hide Step, Refuses, Delivers;
    match e
    case Call(principal, resolved) => CallEnds(s, principal, resolved, f);
    case LawReply(g, answer) => ReplyEnds(s, g, answer, f);
    case Resume(g) => ResumeEnds(s, g, f);
    case _ => SpawnEnds(s, e, f);
  }

  lemma SpawnEnds(s: State, e: Event, f: nat)
    requires Enabled(s, e) && !e.Call? && !e.LawReply? && !e.Resume?
    ensures EndsAs(s, e, Step(s, e), f)
  {
    hide Well, Homeless, Step;
    KeepsFrames(s, e);
  }

  // ---- the life of a spawn ----

  /** A spawn moves from checking out by way of waiting to its end, which it keeps. */
  lemma SpawnLife(s: State, e: Event, p: nat)
    requires Enabled(s, e) && p < |s.spawns|
    ensures var s' := Step(s, e);
            && p < |s'.spawns| && s'.spawns[p].id == s.spawns[p].id
            && s'.spawns[p].phase == (if e == CheckedOut(p, true) then AwaitingReady
                                      else if e == CheckedOut(p, false) then Settled(false)
                                      else if e.BecameReady? && e.p == p then Settled(e.ok)
                                      else if e == Forget(p) then Forgotten(s.spawns[p].phase.ok)
                                      else s.spawns[p].phase)
  {
    HostLife(s, e);
  }

  /** Compartments come by good checkouts alone, booting, and dormant ids go by good spawns alone. */
  lemma HostLife(s: State, e: Event)
    requires Enabled(s, e)
    ensures var s' := Step(s, e);
            && s'.dormant == (if e.BecameReady? && e.ok then s.dormant - {s.spawns[e.p].id} else s.dormant)
            && s'.compartments == (if e.CheckedOut? && e.ok then s.compartments[s.spawns[e.p].id := Booting]
                                   else if e.HandleChange? then s.compartments[e.id := e.h] else s.compartments)
            && (e.CheckedOut? || e.BecameReady? || e.Forget? || s.spawns <= s'.spawns)
  {
    hide Begin, AfterLaw, Finish, GoesOnAs;
    match e
    case Call(principal, resolved) =>
      CallIsExact(s, principal, resolved);
      if resolved.Some? && resolved.value.op !in s.risk {
        GoingOnAdds(s, Step(s, e), |s.frames|, Frame(principal, resolved.value, AwaitingLaw), s.log);
      }
    case LawReply(f, answer) =>
      LawReplyIsExact(s, f, answer);
      if !Stops(answer) {
        GoingOnAdds(s, Step(s, e), f, s.frames[f], s.log + [LawAnswered(s.frames[f].principal, s.frames[f].target.op, f, answer)]);
      }
    case Resume(f) => ResumeIsExact(s, f);
    case CheckedOut(_, _) =>
    case BecameReady(_, _) =>
    case Forget(_) =>
    case HandleChange(_, _) =>
  }

  lemma GoingOnAdds(s: State, s': State, f: nat, fr: Frame, log: seq<Note>)
    requires GoesOnAs(s, s', f, fr, log)
    ensures s.spawns <= s'.spawns && SameHost(s, s')
  {
  }

  // ---- no dispatch waits for nothing ----

  /** A dispatch that waits waits for a spawn of its own target. */
  ghost predicate WaitsForOwn(s: State) {
    forall f | 0 <= f < |s.frames| && s.frames[f].phase.AwaitingSpawn? ::
      s.frames[f].phase.spawn < |s.spawns| && s.spawns[s.frames[f].phase.spawn].id == s.frames[f].target.impl
  }

  lemma GoingOnWaits(s: State, s': State, f: nat, fr: Frame, log: seq<Note>)
    requires GoesOnAs(s, s', f, fr, log) && OthersStay(s, s', f) && WaitsForOwn(s) && SingleFlight(s.spawning, s.spawns)
    ensures WaitsForOwn(s')
  {
  }

  lemma StoppingWaits(s: State, s': State, f: nat, fr: Frame, log: seq<Note>)
    requires StopsAs(s, s', f, fr, log) && OthersStay(s, s', f) && WaitsForOwn(s) && !fr.phase.AwaitingSpawn?
    ensures WaitsForOwn(s')
  {
  }

  lemma StepWaitsForOwn(s: State, e: Event)
    requires Valid(s) && Enabled(s, e) && WaitsForOwn(s)
    ensures WaitsForOwn(Step(s, e))
  {
    hide LogOk, OnceOk, Begin, AfterLaw, Finish, GoesOnAs, StopsAs, OthersStay, WaitsForOwn, Stops, SpawnsFresh, RiskKnown, SingleFlight;
    match e
    case Call(principal, resolved) =>
      CallIsExact(s, principal, resolved);
      var f := |s.frames|;
      if resolved.None? {
        StoppingWaits(s, Step(s, e), f, Frame(principal, Target("", ""), Refused), s.log);
      } else if resolved.value.op !in s.risk {
        GoingOnWaits(s, Step(s, e), f, Frame(principal, resolved.value, AwaitingLaw), s.log);
      } else if s.lawRouted {
        StoppingWaits(s, Step(s, e), f, Frame(principal, resolved.value, AwaitingLaw), s.log);
      } else {
        StoppingWaits(s, Step(s, e), f, Frame(principal, resolved.value, Refused), s.log);
      }
    case LawReply(f, answer) =>
      LawReplyIsExact(s, f, answer);
      var fr := s.frames[f];
      var log := s.log + [LawAnswered(fr.principal, fr.target.op, f, answer)];
      if Stops(answer) {
        StoppingWaits(s, Step(s, e), f, fr.(phase := Refused), log);
      } else {
        GoingOnWaits(s, Step(s, e), f, fr, log);
      }
    case Resume(f) =>
      ResumeIsExact(s, f);
      ResumedWaits(s, Step(s, e), f);
    case _ => SpawnWaits(s, e);
  }

  lemma ResumedWaits(s: State, s': State, f: nat)
    requires WaitsForOwn(s) && OthersStay(s, s', f) && s'.spawns == s.spawns && f < |s'.frames|
    requires !s'.frames[f].phase.AwaitingSpawn?
    ensures WaitsForOwn(s')
  {
  }

  lemma SpawnWaits(s: State, e: Event)
    requires Enabled(s, e) && WaitsForOwn(s) && !e.Call? && !e.LawReply? && !e.Resume?
    ensures WaitsForOwn(Step(s, e))
  {
    hide Step, Enabled;
    KeepsFrames(s, e);
    forall p | 0 <= p < |s.spawns| ensures Step(s, e).spawns[p].id == s.spawns[p].id {
      SpawnLife(s, e, p);
    }
  }

  lemma KeepsFrames(s: State, e: Event)
    requires Enabled(s, e) && !e.Call? && !e.LawReply? && !e.Resume?
    ensures Step(s, e).frames == s.frames && |Step(s, e).spawns| == |s.spawns|
  {
    match e
    case CheckedOut(p, ok) => CheckOutKeeps(s, p, ok);
    case BecameReady(p, ok) =>
    case Forget(p) =>
    case HandleChange(_, _) =>
  }

  lemma CheckOutKeeps(s: State, p: nat, ok: bool)
    requires Enabled(s, CheckedOut(p, ok))
    ensures Step(s, CheckedOut(p, ok)).frames == s.frames && |Step(s, CheckedOut(p, ok)).spawns| == |s.spawns|
  {
  }

  /** In every run a waiting dispatch waits for a spawn of its own target, which is the one under way for that id
      or has ended, and then the dispatch can resume. */
  lemma {:induction false} WaitsEnd(s: State, es: seq<Event>, s': State)
    requires Valid(s) && WaitsForOwn(s) && Runs(s, es, s')
    ensures Valid(s') && WaitsForOwn(s')
    ensures forall f | 0 <= f < |s'.frames| && s'.frames[f].phase.AwaitingSpawn? ::
              var p, id := s'.frames[f].phase.spawn, s'.frames[f].target.impl;
              (id in s'.spawning && s'.spawning[id] == p && !Enabled(s', Resume(f))) || Enabled(s', Resume(f))
    decreases |es|
  {
    hide LogOk, OnceOk, SpawnsFresh, RiskKnown, Step;
    if es != [] {
      StepOk(s, es[0]);
      StepWaitsForOwn(s, es[0]);
      hide WaitsForOwn, Enabled, SpawnsOk;
      WaitsEnd(Step(s, es[0]), es[1..], s');
    }
  }

  // ---- what boot leaves ----

  /** Some entry has this id and boots in phase zero, or not. */
  predicate BootsAs(entries: seq<BootEntry>, id: PluginId, eager: bool) {
    exists i | 0 <= i < |entries| :: entries[i].id == id && (entries[i].bootPhase == 0 <==> eager)
  }

  lemma BootsAsSnoc(entries: seq<BootEntry>, id: PluginId, eager: bool)
    requires entries != []
    ensures var e := entries[|entries| - 1];
            BootsAs(entries, id, eager) <==> BootsAs(entries[..|entries| - 1], id, eager) || (e.id == id && (e.bootPhase == 0 <==> eager))
  {
    var n := |entries| - 1;
    if BootsAs(entries[..n], id, eager) {
      var i :| 0 <= i < n && entries[..n][i].id == id && (entries[..n][i].bootPhase == 0 <==> eager);
      assert entries[i].id == id;
    }
    if BootsAs(entries, id, eager) {
      var i :| 0 <= i < |entries| && entries[i].id == id && (entries[i].bootPhase == 0 <==> eager);
      assert i < n ==> entries[..n][i] == entries[i];
    }
  }

  /** After boot exactly the entries of phase zero have compartments, all booting, and exactly the others wait to be
      spawned; nothing is under way. */
  lemma {:induction false} BootPlaces(entries: seq<BootEntry>, lawRouted: bool, id: PluginId)
    ensures var s := Boot(entries, lawRouted);
            && s.lawRouted == lawRouted && s.hasSpawner && s.frames == [] && s.spawns == [] && s.log == [] && s.spawning == map[]
            && (id in s.compartments <==> BootsAs(entries, id, true))
            && (id in s.compartments ==> s.compartments[id] == Booting)
            && (id in s.dormant <==> BootsAs(entries, id, false))
  {
    hide BootsAs;
    if entries == [] {
      NobodyBoots(id);
    } else {
      BootPlaces(entries[..|entries| - 1], lawRouted, id);
      BootsAsSnoc(entries, id, true);
      BootsAsSnoc(entries, id, false);
    }
  }

  lemma NobodyBoots(id: PluginId)
    ensures !BootsAs([], id, true) && !BootsAs([], id, false)
  {
  }

  /** Of entries with one id the last declares the risk its spawn brings. */
  lemma {:induction false} BootDeclaresRisk(entries: seq<BootEntry>, lawRouted: bool, i: nat)
    requires i < |entries| && forall j | i < j < |entries| :: entries[j].id != entries[i].id
    ensures RiskOf(Boot(entries, lawRouted), entries[i].id) == entries[i].risky
  {
    var n := |entries| - 1;
    if i < n {
      assert entries[n].id != entries[i].id;
      BootDeclaresRisk(entries[..n], lawRouted, i);
    }
  }
}

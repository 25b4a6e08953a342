/** Gate, resolve, execute: the asynchronous dispatch of calls and the lazy spawning of dormant entries, as
    the interleaving of their uninterrupted pieces. */
module Dispatch {
  import opened Wrappers

  type PluginId = string
  type Op = string

  datatype Target = Target(impl: PluginId, op: Op)

  /** `Other` is everything else a good law result can hold: an unknown decision, or a value that is no
      decision object at all and whose decision property reads as undefined. */
  datatype Decision = Allow | Deny | RequireConsent | Other(text: string)

  /** What the law call comes back with: an error result, a null or missing value, whose decision property
      cannot be read so that the dispatch throws, or any other value. */
  datatype GateAnswer = GateError | NoValue | Decided(decision: Decision)

  predicate Passes(a: GateAnswer) {
    a.Decided? && a.decision != Deny && a.decision != RequireConsent
  }

  datatype Handle = Booting | Active | Degraded | Stopped

  /** A spawn promise: still checking out, waiting for readiness, settled, or settled and forgotten. */
  datatype SpawnPhase = CheckingOut | AwaitingReady | Settled(ok: bool) | Forgotten(ok: bool)

  datatype Spawn = Spawn(id: PluginId, phase: SpawnPhase)

  datatype FramePhase = AwaitingLaw | AwaitingSpawn(spawn: nat) | Delivered | Refused

  /** One dispatch. Its causation id is its position among the frames. */
  datatype Frame = Frame(principal: PluginId, target: Target, phase: FramePhase)

  datatype Note =
    | LawAnswered(principal: PluginId, op: Op, cause: nat, answer: GateAnswer)
    | SpawnStarted(id: PluginId, principal: PluginId, op: Op, cause: nat)
    | LazyRegistered(id: PluginId)
    | CallDelivered(impl: PluginId, principal: PluginId, op: Op, cause: nat)

  datatype State = State(
    lawRouted: bool, hasSpawner: bool, declaredRisk: map<PluginId, set<Op>>,
    risk: set<Op>,
    compartments: map<PluginId, Handle>, dormant: set<PluginId>,
    spawning: map<PluginId, nat>, spawns: seq<Spawn>,
    frames: seq<Frame>, log: seq<Note>)

  function RiskOf(s: State, id: PluginId): set<Op> {
    if id in s.declaredRisk then s.declaredRisk[id] else {}
  }

  /** A booted router: every dormant entry's risky ops are already known. */
  predicate Booted(s: State) {
    && s.spawning == map[] && s.spawns == [] && s.frames == [] && s.log == []
    && forall id | id in s.dormant :: RiskOf(s, id) <= s.risk
  }

  datatype BootEntry = BootEntry(id: PluginId, bootPhase: int, risky: set<Op>)

  /** The boot loop: the phase-0 entry is spawned and registered, every other one registered dormant. */
  function Boot(entries: seq<BootEntry>, lawRouted: bool): State {
    if entries == [] then State(lawRouted, true, map[], {}, map[], {}, map[], [], [], [])
    else
      var s, e := Boot(entries[..|entries| - 1], lawRouted), entries[|entries| - 1];
      var known := s.(risk := s.risk + e.risky, declaredRisk := s.declaredRisk[e.id := e.risky]);
      if e.bootPhase == 0 then known.(compartments := s.compartments[e.id := Booting])
      else known.(dormant := s.dormant + {e.id})
  }

  lemma {:induction false} BootIsBooted(entries: seq<BootEntry>, lawRouted: bool)
    ensures Booted(Boot(entries, lawRouted))
  {
    if entries != [] {
      BootIsBooted(entries[..|entries| - 1], lawRouted);
    }
  }

  /** The ops known to be risky are those any entry, dormant or not, declares. */
  lemma {:induction false} BootKnowsRisk(entries: seq<BootEntry>, lawRouted: bool)
    ensures Boot(entries, lawRouted).risk == set i, op | 0 <= i < |entries| && op in entries[i].risky :: op
  {
    if entries != [] {
      var n := |entries| - 1;
      BootKnowsRisk(entries[..n], lawRouted);
      assert forall i | 0 <= i < n :: entries[..n][i] == entries[i];
      forall op ensures op in Boot(entries, lawRouted).risk <==> op in set i, op | 0 <= i < |entries| && op in entries[i].risky :: op {
        if op in Boot(entries[..n], lawRouted).risk {
          var i :| 0 <= i < n && op in entries[..n][i].risky;
          assert op in entries[i].risky;
        }
      }
    }
  }

  // ---- pieces of a dispatch ----

  function SetPhase(s: State, f: nat, p: FramePhase): State
    requires f < |s.frames|
  {
    s.(frames := s.frames[f := s.frames[f].(phase := p)])
  }

  function Logged(s: State, n: Note): State {
    s.(log := s.log + [n])
  }

  /** Hand the call to the target's queue, if the target is there and well. */
  function Finish(s: State, f: nat): State
    requires f < |s.frames|
  {
    var fr := s.frames[f];
    if fr.target.impl !in s.compartments || s.compartments[fr.target.impl].Stopped? || s.compartments[fr.target.impl].Degraded? then
      SetPhase(s, f, Refused)
    else Logged(SetPhase(s, f, Delivered), CallDelivered(fr.target.impl, fr.principal, fr.target.op, f))
  }

  /** Join the running spawn of an id or start one. */
  function JoinSpawn(s: State, f: nat): State
    requires f < |s.frames|
  {
    var fr := s.frames[f];
    var id := fr.target.impl;
    if id in s.spawning then SetPhase(s, f, AwaitingSpawn(s.spawning[id]))
    else
      var p := |s.spawns|;
      var started := SetPhase(s, f, AwaitingSpawn(p)).(spawning := s.spawning[id := p]);
      if s.hasSpawner then Logged(started.(spawns := s.spawns + [Spawn(id, CheckingOut)]), SpawnStarted(id, fr.principal, fr.target.op, f))
      else started.(spawns := s.spawns + [Spawn(id, Settled(false))])
  }

  function Proceed(s: State, f: nat): State
    requires f < |s.frames|
  {
    var id := s.frames[f].target.impl;
    if id !in s.compartments && id in s.dormant then JoinSpawn(s, f) else Finish(s, f)
  }

  datatype Event =
    | Call(principal: PluginId, resolved: Option<Target>)
    | LawReply(f: nat, answer: GateAnswer)
    | CheckedOut(p: nat, ok: bool)
    | BecameReady(p: nat, ok: bool)
    | Forget(p: nat)
    | Resume(f: nat)
    | HandleChange(id: PluginId, h: Handle)

  predicate Enabled(s: State, e: Event) {
    match e
    case Call(_, _) => true
    case LawReply(f, _) => f < |s.frames| && s.frames[f].phase == AwaitingLaw
    case CheckedOut(p, _) => p < |s.spawns| && s.spawns[p].phase == CheckingOut
    case BecameReady(p, _) => p < |s.spawns| && s.spawns[p].phase == AwaitingReady
    case Forget(p) => p < |s.spawns| && s.spawns[p].phase.Settled?
    case Resume(f) => f < |s.frames| && s.frames[f].phase.AwaitingSpawn? && s.frames[f].phase.spawn < |s.spawns|
                      && s.spawns[s.frames[f].phase.spawn].phase.Forgotten?
    case HandleChange(id, _) => id in s.compartments
  }

  /** A call up to its first wait. */
  function Begin(s: State, principal: PluginId, resolved: Option<Target>): State {
    var f := |s.frames|;
    if resolved.None? then s.(frames := s.frames + [Frame(principal, Target("", ""), Refused)])
    else
      var begun := s.(frames := s.frames + [Frame(principal, resolved.value, AwaitingLaw)]);
      if resolved.value.op in s.risk then if s.lawRouted then begun else SetPhase(begun, f, Refused)
      else Proceed(begun, f)
  }

  /** The call's target op is risky and a law compartment is routed: the dispatch waits for the law. */
  predicate AsksLaw(s: State, e: Event) {
    e.Call? && e.resolved.Some? && e.resolved.value.op in s.risk && s.lawRouted
  }

  function AfterLaw(s: State, f: nat, answer: GateAnswer): State
    requires f < |s.frames|
  {
    var fr := s.frames[f];
    var answered := Logged(s, LawAnswered(fr.principal, fr.target.op, f, answer));
    if Passes(answer) then Proceed(answered, f) else SetPhase(answered, f, Refused)
  }

  function SetSpawn(s: State, p: nat, phase: SpawnPhase): State
    requires p < |s.spawns|
  {
    s.(spawns := s.spawns[p := s.spawns[p].(phase := phase)])
  }

  /** A compartment checked out for a dormant id is registered at once. */
  function Registered(s: State, p: nat): State
    requires p < |s.spawns|
  {
    var id := s.spawns[p].id;
    Logged(SetSpawn(s, p, AwaitingReady).(compartments := s.compartments[id := Booting], risk := s.risk + RiskOf(s, id)), LazyRegistered(id))
  }

  function Step(s: State, e: Event): State
    requires Enabled(s, e)
  {
    match e
    case Call(principal, resolved) => Begin(s, principal, resolved)
    case LawReply(f, answer) => AfterLaw(s, f, answer)
    case CheckedOut(p, ok) => if ok then Registered(s, p) else SetSpawn(s, p, Settled(false))
    case BecameReady(p, ok) =>
      if ok then SetSpawn(s, p, Settled(true)).(dormant := s.dormant - {s.spawns[p].id}) else SetSpawn(s, p, Settled(false))
    case Forget(p) =>
      var id := s.spawns[p].id;
      SetSpawn(s, p, Forgotten(s.spawns[p].phase.ok)).(spawning := if id in s.spawning && s.spawning[id] == p then s.spawning - {id} else s.spawning)
    case Resume(f) => if s.spawns[s.frames[f].phase.spawn].phase.ok then Finish(s, f) else SetPhase(s, f, Refused)
    case HandleChange(id, h) => s.(compartments := s.compartments[id := h])
  }

  ghost predicate Runs(s: State, es: seq<Event>, s': State)
    decreases |es|
  {
    if es == [] then s == s' else Enabled(s, es[0]) && Runs(Step(s, es[0]), es[1..], s')
  }

  // ---- what holds of every log ----

  ghost predicate PassedBefore(log: seq<Note>, n: nat, principal: PluginId, op: Op, cause: nat) {
    exists j | 0 <= j < n && j < |log| :: log[j].LawAnswered? && log[j] == LawAnswered(principal, op, cause, log[j].answer) && Passes(log[j].answer)
  }

  /** A risky call is delivered, and a spawn for it started, only after its own law answer let it pass. */
  ghost predicate Gated(log: seq<Note>, risk: set<Op>) {
    && (forall i | 0 <= i < |log| && log[i].CallDelivered? && log[i].op in risk :: PassedBefore(log, i, log[i].principal, log[i].op, log[i].cause))
    && (forall i | 0 <= i < |log| && log[i].SpawnStarted? && log[i].op in risk :: PassedBefore(log, i, log[i].principal, log[i].op, log[i].cause))
  }

  ghost predicate RegisteredOnce(log: seq<Note>) {
    forall i, j | 0 <= i < j < |log| && log[i].LazyRegistered? && log[j].LazyRegistered? :: log[i].id != log[j].id
  }

  ghost predicate DeliveredOnce(log: seq<Note>) {
    forall i, j | 0 <= i < j < |log| && log[i].CallDelivered? && log[j].CallDelivered? :: log[i].cause != log[j].cause
  }

  ghost predicate AnsweredOnce(log: seq<Note>) {
    forall i, j | 0 <= i < j < |log| && log[i].LawAnswered? && log[j].LawAnswered? :: log[i].cause != log[j].cause
  }

  // ---- the invariant ----

  ghost predicate FramesGated(frames: seq<Frame>, log: seq<Note>, risk: set<Op>) {
    forall f | 0 <= f < |frames| && frames[f].phase.AwaitingSpawn? && frames[f].target.op in risk ::
      PassedBefore(log, |log|, frames[f].principal, frames[f].target.op, f)
  }

  ghost predicate DeliveriesKnown(frames: seq<Frame>, log: seq<Note>) {
    forall i | 0 <= i < |log| && log[i].CallDelivered? :: log[i].cause < |frames| && frames[log[i].cause].phase == Delivered
  }

  ghost predicate AnswersKnown(frames: seq<Frame>, log: seq<Note>) {
    forall i | 0 <= i < |log| && log[i].LawAnswered? :: log[i].cause < |frames| && frames[log[i].cause].phase != AwaitingLaw
  }

  ghost predicate RegistrationsKnown(compartments: map<PluginId, Handle>, log: seq<Note>) {
    && (forall i | 0 <= i < |log| && log[i].LazyRegistered? :: log[i].id in compartments)
    && (forall i | 0 <= i < |log| && log[i].CallDelivered? :: log[i].impl in compartments)
  }

  /** The unfinished spawns are those that `spawning` points to, each under its own id. */
  ghost predicate SingleFlight(spawning: map<PluginId, nat>, spawns: seq<Spawn>) {
    && (forall p | 0 <= p < |spawns| && !spawns[p].phase.Forgotten? :: spawns[p].id in spawning && spawning[spawns[p].id] == p)
    && (forall id | id in spawning :: spawning[id] < |spawns| && spawns[spawning[id]].id == id && !spawns[spawning[id]].phase.Forgotten?)
  }

  ghost predicate SpawnsFresh(compartments: map<PluginId, Handle>, spawns: seq<Spawn>) {
    forall p | 0 <= p < |spawns| && spawns[p].phase == CheckingOut :: spawns[p].id !in compartments
  }

  ghost predicate RiskKnown(s: State) {
    && (forall id | id in s.dormant :: RiskOf(s, id) <= s.risk)
    && (forall p | 0 <= p < |s.spawns| && s.spawns[p].phase == CheckingOut :: RiskOf(s, s.spawns[p].id) <= s.risk)
  }

  ghost predicate LogOk(s: State) {
    Gated(s.log, s.risk) && FramesGated(s.frames, s.log, s.risk)
  }

  ghost predicate OnceOk(s: State) {
    && DeliveredOnce(s.log) && DeliveriesKnown(s.frames, s.log)
    && AnsweredOnce(s.log) && AnswersKnown(s.frames, s.log)
    && RegisteredOnce(s.log) && RegistrationsKnown(s.compartments, s.log)
  }

  ghost predicate SpawnsOk(s: State) {
    SingleFlight(s.spawning, s.spawns) && SpawnsFresh(s.compartments, s.spawns) && RiskKnown(s)
  }

  ghost predicate Valid(s: State) {
    LogOk(s) && OnceOk(s) && SpawnsOk(s)
  }

  lemma PassedStays(log: seq<Note>, x: Note, n: nat, m: nat, principal: PluginId, op: Op, cause: nat)
    requires PassedBefore(log, n, principal, op, cause) && n <= m
    ensures PassedBefore(log + [x], m, principal, op, cause)
  {
    var j :| 0 <= j < n && j < |log| && log[j].LawAnswered? && log[j] == LawAnswered(principal, op, cause, log[j].answer) && Passes(log[j].answer);
    assert (log + [x])[j] == log[j];
  }

  predicate NeedsGate(x: Note, risk: set<Op>) {
    (x.CallDelivered? || x.SpawnStarted?) && x.op in risk
  }

  lemma GatedSnoc(log: seq<Note>, x: Note, risk: set<Op>)
    requires Gated(log, risk) && (NeedsGate(x, risk) ==> PassedBefore(log, |log|, x.principal, x.op, x.cause))
    ensures Gated(log + [x], risk)
  {
    hide PassedBefore;
    var log' := log + [x];
    forall i | 0 <= i < |log'| && NeedsGate(log'[i], risk) ensures PassedBefore(log', i, log'[i].principal, log'[i].op, log'[i].cause) {
      if i < |log| {
        assert log'[i] == log[i];
        PassedStays(log, x, i, i, log[i].principal, log[i].op, log[i].cause);
      } else {
        PassedStays(log, x, i, i, x.principal, x.op, x.cause);
      }
    }
  }

  lemma FramesSnoc(frames: seq<Frame>, log: seq<Note>, x: Note, risk: set<Op>)
    requires FramesGated(frames, log, risk)
    ensures FramesGated(frames, log + [x], risk)
  {
    hide PassedBefore;
    forall f | 0 <= f < |frames| && frames[f].phase.AwaitingSpawn? && frames[f].target.op in risk
      ensures PassedBefore(log + [x], |log + [x]|, frames[f].principal, frames[f].target.op, f)
    {
      PassedStays(log, x, |log|, |log| + 1, frames[f].principal, frames[f].target.op, f);
    }
  }

  /** The frame was let through: its op carries no risk, or its law answer passed. */
  ghost predicate Cleared(s: State, f: nat) {
    f < |s.frames| && s.frames[f].phase != Delivered
    && (s.frames[f].target.op in s.risk ==> PassedBefore(s.log, |s.log|, s.frames[f].principal, s.frames[f].target.op, f))
  }

  lemma FinishLog(s: State, f: nat)
    requires LogOk(s) && Cleared(s, f)
    ensures LogOk(Finish(s, f))
  {
    hide PassedBefore, Gated;
    var fr := s.frames[f];
    var x := CallDelivered(fr.target.impl, fr.principal, fr.target.op, f);
    GatedSnoc(s.log, x, s.risk);
    FramesSnoc(s.frames, s.log, x, s.risk);
  }

  lemma DeliverOnce(frames: seq<Frame>, log: seq<Note>, f: nat, x: Note)
    requires DeliveredOnce(log) && DeliveriesKnown(frames, log) && f < |frames| && frames[f].phase != Delivered
    requires x.CallDelivered? && x.cause == f
    ensures DeliveredOnce(log + [x]) && DeliveriesKnown(frames[f := frames[f].(phase := Delivered)], log + [x])
  {
  }

  lemma SnocRegistered(log: seq<Note>, x: Note, compartments: map<PluginId, Handle>)
    requires RegisteredOnce(log) && RegistrationsKnown(compartments, log)
    requires !x.LazyRegistered? && (x.CallDelivered? ==> x.impl in compartments)
    ensures RegisteredOnce(log + [x]) && RegistrationsKnown(compartments, log + [x])
  {
  }

  lemma SnocDelivered(log: seq<Note>, x: Note, frames: seq<Frame>)
    requires DeliveredOnce(log) && DeliveriesKnown(frames, log) && !x.CallDelivered?
    ensures DeliveredOnce(log + [x]) && DeliveriesKnown(frames, log + [x])
  {
  }

  lemma SnocAnswered(log: seq<Note>, x: Note, frames: seq<Frame>)
    requires AnsweredOnce(log) && AnswersKnown(frames, log) && !x.LawAnswered?
    ensures AnsweredOnce(log + [x]) && AnswersKnown(frames, log + [x])
  {
  }

  lemma PhaseKeepsAnswers(frames: seq<Frame>, log: seq<Note>, f: nat, p: FramePhase)
    requires AnswersKnown(frames, log) && f < |frames| && p != AwaitingLaw
    ensures AnswersKnown(frames[f := frames[f].(phase := p)], log)
  {
  }

  /** Moving an undelivered frame to another phase forgets no delivery. */
  lemma PhaseKeepsDeliveries(frames: seq<Frame>, log: seq<Note>, f: nat, p: FramePhase)
    requires DeliveriesKnown(frames, log) && f < |frames| && frames[f].phase != Delivered
    ensures DeliveriesKnown(frames[f := frames[f].(phase := p)], log)
  {
  }

  lemma FinishOnce(s: State, f: nat)
    requires OnceOk(s) && Cleared(s, f)
    ensures OnceOk(Finish(s, f))
  {
    hide PassedBefore;
    var fr := s.frames[f];
    var x := CallDelivered(fr.target.impl, fr.principal, fr.target.op, f);
    if Finish(s, f).frames[f].phase == Delivered {
      DeliverOnce(s.frames, s.log, f, x);
      SnocRegistered(s.log, x, s.compartments);
      PhaseKeepsAnswers(s.frames, s.log, f, Delivered);
      SnocAnswered(s.log, x, SetPhase(s, f, Delivered).frames);
    } else {
      PhaseKeepsDeliveries(s.frames, s.log, f, Refused);
      PhaseKeepsAnswers(s.frames, s.log, f, Refused);
    }
    hide DeliveredOnce, DeliveriesKnown, RegisteredOnce, RegistrationsKnown, AnsweredOnce, AnswersKnown;
  }

  lemma FinishOk(s: State, f: nat)
    requires Valid(s) && Cleared(s, f)
    ensures Valid(Finish(s, f))
  {
    FinishLog(s, f);
    FinishOnce(s, f);
    hide LogOk, OnceOk, Cleared;
  }

  lemma JoinLog(s: State, f: nat)
    requires LogOk(s) && Cleared(s, f)
    ensures LogOk(JoinSpawn(s, f))
  {
    hide PassedBefore, Gated;
    var fr := s.frames[f];
    var x := SpawnStarted(fr.target.impl, fr.principal, fr.target.op, f);
    GatedSnoc(s.log, x, s.risk);
    var p := if fr.target.impl in s.spawning then s.spawning[fr.target.impl] else |s.spawns|;
    assert FramesGated(SetPhase(s, f, AwaitingSpawn(p)).frames, s.log, s.risk);
    FramesSnoc(SetPhase(s, f, AwaitingSpawn(p)).frames, s.log, x, s.risk);
  }

  lemma JoinOnce(s: State, f: nat)
    requires OnceOk(s) && Cleared(s, f)
    ensures OnceOk(JoinSpawn(s, f))
  {
    hide PassedBefore;
    var fr := s.frames[f];
    var x := SpawnStarted(fr.target.impl, fr.principal, fr.target.op, f);
    var p := if fr.target.impl in s.spawning then s.spawning[fr.target.impl] else |s.spawns|;
    PhaseKeepsDeliveries(s.frames, s.log, f, AwaitingSpawn(p));
    SnocRegistered(s.log, x, s.compartments);
    SnocDelivered(s.log, x, SetPhase(s, f, AwaitingSpawn(p)).frames);
    PhaseKeepsAnswers(s.frames, s.log, f, AwaitingSpawn(p));
    SnocAnswered(s.log, x, SetPhase(s, f, AwaitingSpawn(p)).frames);
    hide DeliveredOnce, DeliveriesKnown, RegisteredOnce, RegistrationsKnown, AnsweredOnce, AnswersKnown;
  }

  lemma JoinSpawns(s: State, f: nat)
    requires SpawnsOk(s) && f < |s.frames| && s.frames[f].target.impl in s.dormant && s.frames[f].target.impl !in s.compartments
    ensures SpawnsOk(JoinSpawn(s, f))
  {
    var id := s.frames[f].target.impl;
    if id !in s.spawning {
      var x := Spawn(id, if s.hasSpawner then CheckingOut else Settled(false));
      StartFlight(s.spawning, s.spawns, x);
      StartFresh(s.compartments, s.spawns, x);
      StartKnown(s, JoinSpawn(s, f), x);
    }
    hide SingleFlight, SpawnsFresh, RiskKnown;
  }

  lemma StartFresh(compartments: map<PluginId, Handle>, spawns: seq<Spawn>, x: Spawn)
    requires SpawnsFresh(compartments, spawns) && x.id !in compartments
    ensures SpawnsFresh(compartments, spawns + [x])
  {
  }

  lemma StartKnown(s: State, s': State, x: Spawn)
    requires RiskKnown(s) && x.id in s.dormant && s'.spawns == s.spawns + [x]
    requires s'.dormant == s.dormant && s'.risk == s.risk && s'.declaredRisk == s.declaredRisk
    ensures RiskKnown(s')
  {
    assert forall p | 0 <= p < |s.spawns| :: s'.spawns[p] == s.spawns[p];
  }

  lemma StartFlight(spawning: map<PluginId, nat>, spawns: seq<Spawn>, x: Spawn)
    requires SingleFlight(spawning, spawns) && x.id !in spawning && !x.phase.Forgotten?
    ensures SingleFlight(spawning[x.id := |spawns|], spawns + [x])
  {
  }

  lemma ProceedOk(s: State, f: nat)
    requires Valid(s) && Cleared(s, f)
    ensures Valid(Proceed(s, f))
  {
    hide LogOk, OnceOk, SpawnsOk, Cleared, Finish, JoinSpawn;
    assert f < |s.frames| by { ClearedFrame(s, f); }
    if s.frames[f].target.impl !in s.compartments && s.frames[f].target.impl in s.dormant {
      JoinLog(s, f);
      JoinOnce(s, f);
      JoinSpawns(s, f);
    } else {
      FinishOk(s, f);
    }
  }

  lemma ClearedFrame(s: State, f: nat)
    requires Cleared(s, f)
    ensures f < |s.frames|
  {
  }

  // ---- every event keeps the invariant ----

  lemma RefuseOk(s: State, f: nat)
    requires Valid(s) && f < |s.frames| && s.frames[f].phase != Delivered
    ensures Valid(SetPhase(s, f, Refused))
  {
  }

  lemma AppendOk(s: State, fr: Frame)
    requires Valid(s) && (fr.phase == AwaitingLaw || fr.phase == Refused)
    ensures Valid(s.(frames := s.frames + [fr]))
  {
  }

  lemma BeginOk(s: State, principal: PluginId, resolved: Option<Target>)
    requires Valid(s)
    ensures Valid(Begin(s, principal, resolved))
  {
    hide Valid, Proceed;
    var f := |s.frames|;
    if resolved.None? {
      AppendOk(s, Frame(principal, Target("", ""), Refused));
    } else {
      AppendOk(s, Frame(principal, resolved.value, AwaitingLaw));
      var begun := s.(frames := s.frames + [Frame(principal, resolved.value, AwaitingLaw)]);
      if resolved.value.op in s.risk {
        RefuseOk(begun, f);
      } else {
        ProceedOk(begun, f);
      }
    }
  }

  lemma AnswerOnce(frames: seq<Frame>, log: seq<Note>, f: nat, x: Note, p: FramePhase)
    requires AnsweredOnce(log) && AnswersKnown(frames, log) && f < |frames| && frames[f].phase == AwaitingLaw
    requires x.LawAnswered? && x.cause == f && p != AwaitingLaw
    ensures AnsweredOnce(log + [x]) && AnswersKnown(frames[f := frames[f].(phase := p)], log + [x])
  {
  }

  lemma AnswerOk(s: State, f: nat, answer: GateAnswer)
    requires Valid(s) && f < |s.frames| && s.frames[f].phase == AwaitingLaw
    ensures Valid(Logged(SetPhase(s, f, Refused), LawAnswered(s.frames[f].principal, s.frames[f].target.op, f, answer)))
  {
    hide PassedBefore, DeliveredOnce, RegisteredOnce, RegistrationsKnown, SingleFlight, SpawnsFresh, Gated, AnsweredOnce, AnswersKnown;
    var x, s' := LawAnswered(s.frames[f].principal, s.frames[f].target.op, f, answer), SetPhase(s, f, Refused);
    PhaseKeepsDeliveries(s.frames, s.log, f, Refused);
    hide DeliveriesKnown;
    assert FramesGated(s'.frames, s.log, s.risk);
    hide FramesGated;
    GatedSnoc(s.log, x, s.risk);
    FramesSnoc(s'.frames, s.log, x, s.risk);
    SnocRegistered(s.log, x, s.compartments);
    SnocDelivered(s.log, x, s'.frames);
    AnswerOnce(s.frames, s.log, f, x, Refused);
  }

  lemma AfterLawOk(s: State, f: nat, answer: GateAnswer)
    requires Valid(s) && f < |s.frames| && s.frames[f].phase == AwaitingLaw
    ensures Valid(AfterLaw(s, f, answer))
  {
    hide Valid, Proceed;
    AnswerOk(s, f, answer);
    var x := LawAnswered(s.frames[f].principal, s.frames[f].target.op, f, answer);
    var refused := Logged(SetPhase(s, f, Refused), x);
    var answered := Logged(s, x);
    assert AfterLaw(s, f, answer) == if Passes(answer) then Proceed(answered, f) else refused;
    if Passes(answer) {
      assert refused.log[|s.log|] == x;
      assert Cleared(refused, f);
      ProceedOk(refused, f);
      PhaseIsOverwritten(answered, f);
    }
  }

  /** What the frame's phase was does not matter once the dispatch goes on. */
  lemma PhaseIsOverwritten(s: State, f: nat)
    requires f < |s.frames|
    ensures Proceed(SetPhase(s, f, Refused), f) == Proceed(s, f)
  {
    var s' := SetPhase(s, f, Refused);
    assert forall p :: SetPhase(s', f, p) == SetPhase(s, f, p);
  }

  lemma RegisteredSpawns(s: State, p: nat)
    requires SpawnsOk(s) && p < |s.spawns| && s.spawns[p].phase == CheckingOut
    ensures SpawnsOk(Registered(s, p)) && Registered(s, p).risk == s.risk
  {
  }

  lemma RegisterOnce(compartments: map<PluginId, Handle>, log: seq<Note>, id: PluginId)
    requires RegisteredOnce(log) && RegistrationsKnown(compartments, log) && id !in compartments
    ensures RegisteredOnce(log + [LazyRegistered(id)]) && RegistrationsKnown(compartments[id := Booting], log + [LazyRegistered(id)])
  {
  }

  lemma RegisteredOk(s: State, p: nat)
    requires Valid(s) && p < |s.spawns| && s.spawns[p].phase == CheckingOut
    ensures Valid(Registered(s, p))
  {
    RegisteredSpawns(s, p);
    var x := LazyRegistered(s.spawns[p].id);
    assert s.spawns[p].id !in s.compartments;
    hide PassedBefore, DeliveredOnce, DeliveriesKnown, RegisteredOnce, RegistrationsKnown, Gated, FramesGated, SpawnsOk;
    hide AnsweredOnce, AnswersKnown;
    SnocAnswered(s.log, x, s.frames);
    GatedSnoc(s.log, x, s.risk);
    FramesSnoc(s.frames, s.log, x, s.risk);
    RegisterOnce(s.compartments, s.log, s.spawns[p].id);
    SnocDelivered(s.log, x, s.frames);
  }

  /** A spawn that stops checking out, and is not forgotten, stays the one in flight. */
  lemma SettleSpawns(s: State, p: nat, phase: SpawnPhase)
    requires SpawnsOk(s) && p < |s.spawns| && !s.spawns[p].phase.Forgotten?
    requires phase.Settled?
    ensures SpawnsOk(SetSpawn(s, p, phase))
    ensures SpawnsOk(SetSpawn(s, p, phase).(dormant := s.dormant - {s.spawns[p].id}))
  {
  }

  lemma ForgetSpawns(s: State, p: nat)
    requires SpawnsOk(s) && p < |s.spawns| && s.spawns[p].phase.Settled?
    ensures SpawnsOk(Step(s, Forget(p)))
  {
    var s' := Step(s, Forget(p));
    assert s.spawning[s.spawns[p].id] == p;
    forall q | 0 <= q < |s'.spawns| && !s'.spawns[q].phase.Forgotten? ensures s'.spawns[q].id in s'.spawning && s'.spawning[s'.spawns[q].id] == q {
      assert !s.spawns[q].phase.Forgotten?;
    }
  }

  lemma StepOk(s: State, e: Event)
    requires Valid(s) && Enabled(s, e)
    ensures Valid(Step(s, e))
  {
    match e
    case Call(principal, resolved) => BeginOk(s, principal, resolved);
    case LawReply(f, answer) => AfterLawOk(s, f, answer);
    case CheckedOut(p, ok) =>
      if ok {
        RegisteredOk(s, p);
      } else {
        SettleSpawns(s, p, Settled(false));
        SpawnStepKeepsLog(s, e);
      }
    case BecameReady(p, ok) =>
      SettleSpawns(s, p, Settled(ok));
      SpawnStepKeepsLog(s, e);
    case Forget(p) =>
      ForgetSpawns(s, p);
      SpawnStepKeepsLog(s, e);
    case Resume(f) => ResumeOk(s, f);
    case HandleChange(id, h) => HandleOk(s, id, h);
  }

  lemma ResumeOk(s: State, f: nat)
    requires Valid(s) && Enabled(s, Resume(f))
    ensures Valid(Step(s, Resume(f)))
  {
    assert Cleared(s, f);
    hide Valid, Finish;
    FinishOk(s, f);
    RefuseOk(s, f);
  }

  lemma SpawnStepKeepsLog(s: State, e: Event)
    requires LogOk(s) && OnceOk(s) && Enabled(s, e)
    requires (e.CheckedOut? && !e.ok) || e.BecameReady? || e.Forget?
    ensures LogOk(Step(s, e)) && OnceOk(Step(s, e))
  {
    hide Gated, FramesGated, DeliveredOnce, DeliveriesKnown, RegisteredOnce, RegistrationsKnown, AnsweredOnce, AnswersKnown;
  }

  lemma HandleOk(s: State, id: PluginId, h: Handle)
    requires Valid(s) && id in s.compartments
    ensures Valid(s.(compartments := s.compartments[id := h]))
  {
    hide Gated, FramesGated, DeliveredOnce, DeliveriesKnown, RegisteredOnce, SingleFlight, AnsweredOnce, AnswersKnown;
  }

  lemma {:induction false} RunsAreValid(s: State, es: seq<Event>, s': State)
    requires Valid(s) && Runs(s, es, s')
    ensures Valid(s') && s.risk == s'.risk
    decreases |es|
  {
    if es != [] {
      StepOk(s, es[0]);
      StepKeepsRisk(s, es[0]);
      hide Valid;
      RunsAreValid(Step(s, es[0]), es[1..], s');
    }
  }

  lemma StepKeepsRisk(s: State, e: Event)
    requires Valid(s) && Enabled(s, e)
    ensures Step(s, e).risk == s.risk
  {
    hide LogOk, OnceOk, SpawnsOk, Proceed, Finish, Registered;
    match e
    case CheckedOut(p, ok) => RegisteredSpawns(s, p);
    case Call(_, resolved) =>
      if resolved.Some? {
        ProceedKeepsRisk(s.(frames := s.frames + [Frame(e.principal, resolved.value, AwaitingLaw)]), |s.frames|);
      }
    case LawReply(f, answer) => ProceedKeepsRisk(Logged(s, LawAnswered(s.frames[f].principal, s.frames[f].target.op, f, answer)), f);
    case Resume(f) => FinishKeepsRisk(s, f);
    case BecameReady(_, _) =>
    case Forget(_) =>
    case HandleChange(_, _) =>
  }

  lemma ProceedKeepsRisk(s: State, f: nat)
    requires f < |s.frames|
    ensures Proceed(s, f).risk == s.risk
  {
  }

  lemma FinishKeepsRisk(s: State, f: nat)
    requires f < |s.frames|
    ensures Finish(s, f).risk == s.risk
  {
  }

  // ---- main results ----

  /** In every run from a booted router: risky calls are delivered, and spawns for them started, only after
      a law answer for the same principal, effective op and causation id let them pass; every call is
      delivered at most once, and only to a registered compartment; every dormant id is registered by a
      lazy spawn at most once, however many first touches race; and at most one spawn per id is unfinished. */
  lemma GateBeforeDelivery(s: State, es: seq<Event>, s': State)
    requires Booted(s) && Runs(s, es, s')
    ensures Gated(s'.log, s.risk)
    ensures DeliveredOnce(s'.log) && RegisteredOnce(s'.log) && RegistrationsKnown(s'.compartments, s'.log)
    ensures forall p, q | 0 <= p < q < |s'.spawns| && s'.spawns[p].id == s'.spawns[q].id ::
              s'.spawns[p].phase.Forgotten? || s'.spawns[q].phase.Forgotten?
  {
    RunsAreValid(s, es, s');
  }

  /** The gate let a risky delivery or spawn through on the answer allow exactly when its law answer was one
      of the three decisions: anything else but an error or a missing value passes as well. */
  lemma GateMeansAllowIff(s: State, es: seq<Event>, s': State, i: nat)
    requires Booted(s) && Runs(s, es, s')
    requires i < |s'.log| && NeedsGate(s'.log[i], s.risk)
    ensures var x := s'.log[i];
            (exists j | 0 <= j < i :: s'.log[j] == LawAnswered(x.principal, x.op, x.cause, Decided(Allow)))
            <==> forall j | 0 <= j < |s'.log| && s'.log[j].LawAnswered? && s'.log[j].cause == x.cause ::
                   s'.log[j].answer.Decided? ==> !s'.log[j].answer.decision.Other?
  {
    RunsAreValid(s, es, s');
    var x, log := s'.log[i], s'.log;
    hide Runs, OnceOk, SpawnsOk;
    assert PassedBefore(log, i, x.principal, x.op, x.cause);
    assert AnsweredOnce(log) by { OnceHasAnswers(s'); }
    var k :| 0 <= k < i && log[k].LawAnswered? && log[k] == LawAnswered(x.principal, x.op, x.cause, log[k].answer) && Passes(log[k].answer);
    assert forall j | 0 <= j < |log| && log[j].LawAnswered? && log[j].cause == x.cause :: j == k;
  }

  lemma OnceHasAnswers(s: State)
    requires OnceOk(s)
    ensures AnsweredOnce(s.log)
  {
  }

  /** Such a run exists: a law result that is none of the three decisions delivers a risky call. */
  lemma UnknownDecisionDelivers(s: State, principal: PluginId, target: Target, text: string)
    requires Booted(s) && s.lawRouted && target.op in s.risk
    requires target.impl in s.compartments && s.compartments[target.impl] == Active
    ensures exists es, s' :: Runs(s, es, s') && s'.log == [LawAnswered(principal, target.op, 0, Decided(Other(text))),
                                                          CallDelivered(target.impl, principal, target.op, 0)]
  {
    var e1, e2 := Call(principal, Some(target)), LawReply(0, Decided(Other(text)));
    var s1 := Step(s, e1);
    var s2 := Step(s1, e2);
    assert Runs(s2, [], s2);
    assert [e2][1..] == [] && Runs(s1, [e2], s2);
    assert [e1, e2][1..] == [e2] && Runs(s, [e1, e2], s2);
  }
}

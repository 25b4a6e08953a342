/** The dispatch side of the router as an object: each method is one uninterrupted piece of `dispatch` or
    `spawnDormant`, between two waits, and updates the router's maps in place. */
module Dispatcher {
  import opened Wrappers
  import opened Dispatch

  class Dispatcher {
    const lawRouted: bool
    const hasSpawner: bool
    const declaredRisk: map<PluginId, set<Op>>
    var opRisk: set<Op>
    var compartments: map<PluginId, Handle>
    var dormant: set<PluginId>
    var spawning: map<PluginId, nat>
    var spawns: seq<Spawn>
    var frames: seq<Frame>
    var log: seq<Note>

    ghost function View(): State
      reads this
    {
      State(lawRouted, hasSpawner, declaredRisk, opRisk, compartments, dormant, spawning, spawns, frames, log)
    }

    ghost predicate Sound()
      reads this
    {
      Valid(View())
    }

    constructor (lawRouted: bool, hasSpawner: bool, declaredRisk: map<PluginId, set<Op>>, opRisk: set<Op>,
                 compartments: map<PluginId, Handle>, dormant: set<PluginId>)
      requires Booted(State(lawRouted, hasSpawner, declaredRisk, opRisk, compartments, dormant, map[], [], [], []))
      ensures Sound()
      ensures View() == State(lawRouted, hasSpawner, declaredRisk, opRisk, compartments, dormant, map[], [], [], [])
    {
      this.lawRouted, this.hasSpawner, this.declaredRisk := lawRouted, hasSpawner, declaredRisk;
      this.opRisk, this.compartments, this.dormant := opRisk, compartments, dormant;
      spawning, spawns, frames, log := map[], [], [], [];
    }

    method Settle(f: nat, phase: FramePhase)
      requires f < |frames|
      modifies this`frames
      ensures View() == SetPhase(old(View()), f, phase)
    {
      frames := frames[f := frames[f].(phase := phase)];
    }

    /** The part of `dispatch` after the gate, up to its next wait or its end. */
    method Continue(f: nat)
      requires f < |frames|
      modifies this
      ensures View() == Proceed(old(View()), f)
    {
      var impl := frames[f].target.impl;
      if impl !in compartments && impl in dormant {
        SpawnDormant(f);
      } else {
        Deliver(f);
      }
    }

    method SpawnDormant(f: nat)
      requires f < |frames|
      modifies this
      ensures View() == JoinSpawn(old(View()), f)
    {
      var fr := frames[f];
      var id := fr.target.impl;
      if id !in spawning {
        var p := |spawns|;
        if hasSpawner {
          spawns := spawns + [Spawn(id, CheckingOut)];
          log := log + [SpawnStarted(id, fr.principal, fr.target.op, f)];
        } else {
          spawns := spawns + [Spawn(id, Settled(false))];
        }
        spawning := spawning[id := p];
      }
      Settle(f, AwaitingSpawn(spawning[id]));
    }

    method Deliver(f: nat)
      requires f < |frames|
      modifies this
      ensures View() == Finish(old(View()), f)
    {
      var fr := frames[f];
      if fr.target.impl !in compartments || compartments[fr.target.impl] == Stopped || compartments[fr.target.impl] == Degraded {
        Settle(f, Refused);
      } else {
        log := log + [CallDelivered(fr.target.impl, fr.principal, fr.target.op, f)];
        Settle(f, Delivered);
      }
    }

    /** A new dispatch, up to its first wait. */
    method OnCall(principal: PluginId, resolved: Option<Target>)
      requires Sound()
      modifies this
      ensures Sound() && View() == Step(old(View()), Call(principal, resolved))
    {
      StepOk(View(), Call(principal, resolved));
      hide Valid;
      var f := |frames|;
      if resolved.None? {
        frames := frames + [Frame(principal, Target("", ""), Refused)];
        return;
      }
      frames := frames + [Frame(principal, resolved.value, AwaitingLaw)];
      if resolved.value.op in opRisk {
        if !lawRouted {
          Settle(f, Refused);
        }
      } else {
        Continue(f);
      }
    }

    method OnLawReply(f: nat, answer: GateAnswer)
      requires Sound() && Enabled(View(), LawReply(f, answer))
      modifies this
      ensures Sound() && View() == Step(old(View()), LawReply(f, answer))
    {
      StepOk(View(), LawReply(f, answer));
      hide Valid, Proceed;
      log := log + [LawAnswered(frames[f].principal, frames[f].target.op, f, answer)];
      if answer.Decided? && answer.decision != Deny && answer.decision != RequireConsent {
        Continue(f);
      } else {
        Settle(f, Refused);
      }
    }

    method OnCheckedOut(p: nat, ok: bool)
      requires Sound() && Enabled(View(), CheckedOut(p, ok))
      modifies this
      ensures Sound() && View() == Step(old(View()), CheckedOut(p, ok))
    {
      StepOk(View(), CheckedOut(p, ok));
      hide Valid;
      if !ok {
        spawns := spawns[p := spawns[p].(phase := Settled(false))];
        return;
      }
      var id := spawns[p].id;
      compartments := compartments[id := Booting];
      opRisk := opRisk + if id in declaredRisk then declaredRisk[id] else {};
      log := log + [LazyRegistered(id)];
      spawns := spawns[p := spawns[p].(phase := AwaitingReady)];
    }

    method OnReady(p: nat, ok: bool)
      requires Sound() && Enabled(View(), BecameReady(p, ok))
      modifies this
      ensures Sound() && View() == Step(old(View()), BecameReady(p, ok))
    {
      StepOk(View(), BecameReady(p, ok));
      hide Valid;
      if ok {
        dormant := dormant - {spawns[p].id};
      }
      spawns := spawns[p := spawns[p].(phase := Settled(ok))];
    }

    method OnForget(p: nat)
      requires Sound() && Enabled(View(), Forget(p))
      modifies this
      ensures Sound() && View() == Step(old(View()), Forget(p))
    {
      StepOk(View(), Forget(p));
      hide Valid;
      var id := spawns[p].id;
      if id in spawning && spawning[id] == p {
        spawning := spawning - {id};
      }
      spawns := spawns[p := spawns[p].(phase := Forgotten(spawns[p].phase.ok))];
    }

    method OnResume(f: nat)
      requires Sound() && Enabled(View(), Resume(f))
      modifies this
      ensures Sound() && View() == Step(old(View()), Resume(f))
    {
      StepOk(View(), Resume(f));
      hide Valid;
      if spawns[frames[f].phase.spawn].phase.ok {
        Deliver(f);
      } else {
        Settle(f, Refused);
      }
    }

    method OnHandleChange(id: PluginId, h: Handle)
      requires Sound() && id in compartments
      modifies this
      ensures Sound() && View() == Step(old(View()), HandleChange(id, h))
    {
      StepOk(View(), HandleChange(id, h));
      hide Valid;
      compartments := compartments[id := h];
    }
  }
}

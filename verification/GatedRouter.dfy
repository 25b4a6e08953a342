/** Dispatch over the delivery core: the law question is a call the router delivers to the law compartment,
    the gate's answer is that call's result, and what a dispatch hands over the router delivers. */
module GatedRouter {
  import opened Wrappers
  import R = RouterState
  import E = RouterEvents
  import Runs = RouterRuns
  import I = RouterInvariant
  import Limits = RouterDeadlines
  import Results = RouterOutcomes
  import D = Dispatch

  /** `keys` names the causation id of a dispatch, `reading` what a good law result says. */
  datatype Setting = Setting(law: R.PluginId, keys: nat -> R.Key, reading: string -> D.GateAnswer)

  /** `trace` holds the router's events so far, `asked` the law call of each dispatch that asked and `sent` the
      call each dispatch delivered to its target. */
  datatype World = World(router: R.State, trace: seq<E.Event>, dispatch: D.State, asked: map<nat, nat>, sent: map<nat, nat>)

  function AnswerOf(g: Setting, r: R.PortResult): D.GateAnswer {
    match r
    case Ok(value) => g.reading(value)
    case Err(_, _) => D.GateError
  }

  const GATE_DEADLINE := 500

  function LawQuestion(g: Setting, f: nat): E.Event {
    E.DeliverEv(g.law, g.keys(f), R.LAW_CHECK, GATE_DEADLINE, false)
  }

  /** The router's delivery of the call a dispatch hands over: same target, op and causation id. */
  function Delivery(g: Setting, x: D.Note, deadlineMs: int, streaming: bool): E.Event
    requires x.CallDelivered?
  {
    E.DeliverEv(x.impl, g.keys(x.cause), x.op, deadlineMs, streaming)
  }

  // ---- one move ----

  /** Everything in the router but a delivery: returns, chunks, timers, crashes, registrations, time. */
  ghost predicate RouterMoves(w: World, e: E.Event, w': World) {
    && I.Valid(w.router) && E.Enabled(w.router, e) && !e.DeliverEv?
    && w' == w.(router := E.Step(w.router, e), trace := w.trace + [e])
  }

  /** The event is performed by the router together with a piece of a dispatch. */
  ghost predicate Performs(w: World, e: E.Event, w': World) {
    && I.Valid(w.router) && E.Enabled(w.router, e)
    && w'.router == E.Step(w.router, e) && w'.trace == w.trace + [e]
  }

  /** A new dispatch that has to ask the law: its question is delivered. */
  ghost predicate Asks(g: Setting, w: World, e: D.Event, w': World) {
    var f := |w.dispatch.frames|;
    && D.AsksLaw(w.dispatch, e) && Performs(w, LawQuestion(g, f), w')
    && w'.dispatch == D.Step(w.dispatch, e) && w'.asked == w.asked[f := |w.router.calls|] && w'.sent == w.sent
  }

  /** A dispatch takes up the law's answer: the one result of its question. */
  ghost predicate Answered(g: Setting, w: World, f: nat, answer: D.GateAnswer) {
    f in w.asked && w.asked[f] < |w.router.calls|
    && exists r :: w.router.calls[w.asked[f]].results == [r] && AnswerOf(g, r) == answer
  }

  /** What a piece of a dispatch hands over, if anything: its last note. */
  function HandsOver(s: D.State, e: D.Event): (x: Option<D.Note>)
    requires D.Enabled(s, e)
    ensures x.Some? ==> x.value.CallDelivered?
  {
    var log := D.Step(s, e).log;
    if |s.log| < |log| && log[|log| - 1].CallDelivered? then Some(log[|log| - 1]) else None
  }

  ghost predicate TakesUp(g: Setting, w: World, e: D.Event) {
    D.Enabled(w.dispatch, e) && !D.AsksLaw(w.dispatch, e) && (e.LawReply? ==> Answered(g, w, e.f, e.answer))
  }

  /** A piece of a dispatch that ends in handing its call to the target: the router delivers it. */
  ghost predicate Sends(g: Setting, w: World, e: D.Event, deadlineMs: int, streaming: bool, w': World) {
    && TakesUp(g, w, e) && HandsOver(w.dispatch, e).Some?
    && var x := HandsOver(w.dispatch, e).value;
    && Performs(w, Delivery(g, x, deadlineMs, streaming), w')
    && w'.dispatch == D.Step(w.dispatch, e) && w'.asked == w.asked && w'.sent == w.sent[x.cause := |w.router.calls|]
  }

  /** Any other piece of a dispatch. */
  ghost predicate Continues(g: Setting, w: World, e: D.Event, w': World) {
    TakesUp(g, w, e) && HandsOver(w.dispatch, e).None? && w' == w.(dispatch := D.Step(w.dispatch, e))
  }

  ghost predicate DispatchMoves(g: Setting, w: World, e: D.Event, w': World) {
    || Asks(g, w, e, w') || Continues(g, w, e, w')
    || exists deadlineMs, streaming :: Sends(g, w, e, deadlineMs, streaming, w')
  }

  ghost predicate Moves(g: Setting, w: World, w': World) {
    (exists e :: RouterMoves(w, e, w')) || (exists e :: DispatchMoves(g, w, e, w'))
  }

  ghost predicate Reaches(g: Setting, ws: seq<World>) {
    ws != [] && forall i | 0 <= i < |ws| - 1 :: Moves(g, ws[i], ws[i + 1])
  }

  /** A booted host: no call delivered yet. */
  ghost predicate Starts(w: World) {
    w.router == R.INITIAL && w.trace == [] && w.asked == map[] && w.sent == map[] && D.Booted(w.dispatch)
  }

  // ---- the invariant ----

  /** The call as the router holds it. */
  ghost predicate IsCall(router: R.State, c: nat, target: R.PluginId, key: R.Key, op: string) {
    && c < |router.calls|
    && router.calls[c].item.target == target && router.calls[c].item.key == key && router.calls[c].item.op == op
  }

  ghost predicate QuestionsHeld(g: Setting, w: World) {
    forall f | f in w.asked :: f < |w.dispatch.frames| && IsCall(w.router, w.asked[f], g.law, g.keys(f), R.LAW_CHECK)
  }

  /** A dispatch past the gate has its question resolved. */
  ghost predicate QuestionsSettled(w: World) {
    forall f | f in w.asked ::
      f < |w.dispatch.frames| && w.asked[f] < |w.router.calls|
      && (w.dispatch.frames[f].phase == D.AwaitingLaw || w.router.calls[w.asked[f]].results != [])
  }

  /** Every answer the gate took is the result of that dispatch's question. */
  ghost predicate AnswersHeld(g: Setting, w: World) {
    forall i | 0 <= i < |w.dispatch.log| && w.dispatch.log[i].LawAnswered? ::
      Answered(g, w, w.dispatch.log[i].cause, w.dispatch.log[i].answer)
  }

  /** The router holds the call a dispatch noted as delivered. */
  ghost predicate IsSent(g: Setting, w: World, x: D.Note)
    requires x.CallDelivered?
  {
    x.cause in w.sent && IsCall(w.router, w.sent[x.cause], x.impl, g.keys(x.cause), x.op)
  }

  ghost predicate NotesSent(g: Setting, w: World) {
    forall i | 0 <= i < |w.dispatch.log| && w.dispatch.log[i].CallDelivered? :: IsSent(g, w, w.dispatch.log[i])
  }

  ghost predicate SentDelivered(w: World) {
    forall f | f in w.sent :: f < |w.dispatch.frames| && w.dispatch.frames[f].phase == D.Delivered
  }

  /** The call is the law question or the delivery of dispatch `f`. */
  ghost predicate Owns(g: Setting, w: World, f: nat, c: nat) {
    && c < |w.router.calls| && w.router.calls[c].item.key == g.keys(f)
    && ((f in w.asked && w.asked[f] == c) || (f in w.sent && w.sent[f] == c))
  }

  ghost predicate HasOwner(g: Setting, w: World, c: nat) {
    exists f :: Owns(g, w, f, c)
  }

  ghost predicate CallsOwned(g: Setting, w: World) {
    forall c | 0 <= c < |w.router.calls| :: HasOwner(g, w, c)
  }

  /** The law compartment returned an answer under the causation id that lets its dispatch pass. */
  ghost predicate LawLetPass(g: Setting, trace: seq<E.Event>, key: R.Key) {
    exists i :: 0 <= i < |trace| && trace[i].ReturnEv? && trace[i].plugin == g.law && trace[i].key == key
                && trace[i].result.Ok? && D.Passes(g.reading(trace[i].result.value))
  }

  predicate IsRisky(e: E.Event, risk: set<D.Op>) {
    e.DeliverEv? && e.op in risk
  }

  ghost predicate IsQuestion(g: Setting, e: E.Event) {
    exists f :: e == LawQuestion(g, f)
  }

  /** Whatever risky call the router was given, but for the law's own questions, the law had let pass by
      then. */
  ghost predicate TraceGated(g: Setting, trace: seq<E.Event>, risk: set<D.Op>) {
    forall j | 0 <= j < |trace| && IsRisky(trace[j], risk) ::
      IsQuestion(g, trace[j]) || LawLetPass(g, trace[..j], trace[j].key)
  }

  ghost predicate Sound(g: Setting, w: World) {
    && Runs.Runs(R.INITIAL, w.trace, w.router) && D.Valid(w.dispatch)
    && QuestionsHeld(g, w) && QuestionsSettled(w) && AnswersHeld(g, w)
    && NotesSent(g, w) && SentDelivered(w) && CallsOwned(g, w)
    && TraceGated(g, w.trace, w.dispatch.risk)
  }

  // ---- pieces of a dispatch ----

  /** The dispatch a piece belongs to: a new one unless it continues one. */
  function ActorOf(s: D.State, e: D.Event): nat {
    if e.LawReply? || e.Resume? then e.f else |s.frames|
  }

  /** `log'` goes on from `log`: a law answer is the one event `e` takes up, a delivery comes last and is that
      of dispatch `f`. */
  ghost predicate GoesOn(log: seq<D.Note>, log': seq<D.Note>, e: D.Event, f: nat) {
    && |log| <= |log'| && log'[..|log|] == log
    && forall i | |log| <= i < |log'| ::
         (log'[i].LawAnswered? ==> e.LawReply? && log'[i].cause == e.f && log'[i].answer == e.answer)
         && (log'[i].CallDelivered? ==> i == |log'| - 1 && log'[i].cause == f)
  }

  lemma GoesOnTransitive(log: seq<D.Note>, x: D.Note, log': seq<D.Note>, e: D.Event, f: nat)
    requires !x.CallDelivered? && GoesOn(log, log + [x], e, f) && GoesOn(log + [x], log', e, f)
    ensures GoesOn(log, log', e, f)
  {
    assert log'[..|log|] == log'[..|log| + 1][..|log|];
    assert log'[|log|] == log'[..|log| + 1][|log|];
  }

  lemma NoteGoesOn(log: seq<D.Note>, x: D.Note, e: D.Event, f: nat)
    requires x.LawAnswered? ==> e.LawReply? && x.cause == e.f && x.answer == e.answer
    requires x.CallDelivered? ==> x.cause == f
    ensures GoesOn(log, log + [x], e, f)
  {
  }

  lemma SameGoesOn(log: seq<D.Note>, e: D.Event, f: nat)
    ensures GoesOn(log, log, e, f)
  {
  }

  /** Only the frame of `f` may have moved. */
  ghost predicate OnlyFrame(frames: seq<D.Frame>, frames': seq<D.Frame>, f: nat) {
    |frames| <= |frames'| && forall x | 0 <= x < |frames| && x != f :: frames'[x] == frames[x]
  }

  lemma FinishGoesOn(s: D.State, f: nat, e: D.Event)
    requires f < |s.frames|
    ensures GoesOn(s.log, D.Finish(s, f).log, e, f) && OnlyFrame(s.frames, D.Finish(s, f).frames, f)
  {
    SameGoesOn(s.log, e, f);
    var fr := s.frames[f];
    NoteGoesOn(s.log, D.CallDelivered(fr.target.impl, fr.principal, fr.target.op, f), e, f);
    hide GoesOn;
  }

  lemma ProceedGoesOn(s: D.State, f: nat, e: D.Event)
    requires f < |s.frames|
    ensures GoesOn(s.log, D.Proceed(s, f).log, e, f) && OnlyFrame(s.frames, D.Proceed(s, f).frames, f)
  {
    hide GoesOn, D.Finish;
    FinishGoesOn(s, f, e);
    SameGoesOn(s.log, e, f);
    var fr := s.frames[f];
    NoteGoesOn(s.log, D.SpawnStarted(fr.target.impl, fr.principal, fr.target.op, f), e, f);
  }

  lemma CallGoesOn(s: D.State, principal: D.PluginId, resolved: Option<D.Target>)
    ensures var e, f := D.Call(principal, resolved), |s.frames|;
            && GoesOn(s.log, D.Begin(s, principal, resolved).log, e, f)
            && OnlyFrame(s.frames, D.Begin(s, principal, resolved).frames, f) && |D.Begin(s, principal, resolved).frames| > f
  {
    hide GoesOn, D.Proceed;
    var e, f := D.Call(principal, resolved), |s.frames|;
    SameGoesOn(s.log, e, f);
    if resolved.Some? {
      ProceedGoesOn(s.(frames := s.frames + [D.Frame(principal, resolved.value, D.AwaitingLaw)]), f, e);
    }
  }

  lemma ReplyGoesOn(s: D.State, f: nat, answer: D.GateAnswer)
    requires f < |s.frames|
    ensures var e := D.LawReply(f, answer);
            GoesOn(s.log, D.AfterLaw(s, f, answer).log, e, f) && OnlyFrame(s.frames, D.AfterLaw(s, f, answer).frames, f)
  {
    hide GoesOn, D.Proceed;
    var e, x := D.LawReply(f, answer), D.LawAnswered(s.frames[f].principal, s.frames[f].target.op, f, answer);
    NoteGoesOn(s.log, x, e, f);
    ProceedGoesOn(D.Logged(s, x), f, e);
    if D.Passes(answer) {
      GoesOnTransitive(s.log, x, D.AfterLaw(s, f, answer).log, e, f);
    }
  }

  /** A piece of a dispatch appends to the log and moves no other dispatch. */
  lemma PieceGoesOn(s: D.State, e: D.Event)
    requires D.Enabled(s, e)
    ensures GoesOn(s.log, D.Step(s, e).log, e, ActorOf(s, e)) && OnlyFrame(s.frames, D.Step(s, e).frames, ActorOf(s, e))
    ensures e.Call? ==> |D.Step(s, e).frames| > |s.frames|
  {
    hide GoesOn, D.Begin, D.AfterLaw, D.Finish;
    var f := ActorOf(s, e);
    SameGoesOn(s.log, e, f);
    match e
    case Call(principal, resolved) => CallGoesOn(s, principal, resolved);
    case LawReply(_, answer) => ReplyGoesOn(s, f, answer);
    case Resume(_) => FinishGoesOn(s, f, e);
    case CheckedOut(p, ok) => NoteGoesOn(s.log, D.LazyRegistered(s.spawns[p].id), e, f);
    case BecameReady(_, _) =>
    case Forget(_) =>
    case HandleChange(_, _) =>
  }

  /** The dispatch that hands over its call had not delivered it before. */
  lemma HandsOverIs(s: D.State, e: D.Event)
    requires D.Enabled(s, e) && HandsOver(s, e).Some?
    ensures var f := HandsOver(s, e).value.cause;
            f == ActorOf(s, e) && !D.AsksLaw(s, e) && (f < |s.frames| ==> s.frames[f].phase != D.Delivered)
  {
    hide D.Proceed, D.Finish;
    PieceGoesOn(s, e);
  }

  lemma AskingWaits(s: D.State, e: D.Event)
    requires D.AsksLaw(s, e)
    ensures D.Step(s, e).log == s.log && |D.Step(s, e).frames| == |s.frames| + 1
    ensures D.Step(s, e).frames[|s.frames|].phase == D.AwaitingLaw
  {
  }

  // ---- what the router's part of a move keeps ----

  lemma {:induction false} RunsSnoc(s: R.State, es: seq<E.Event>, s': R.State, e: E.Event)
    requires Runs.Runs(s, es, s') && I.Valid(s') && E.Enabled(s', e)
    ensures Runs.Runs(s, es + [e], E.Step(s', e))
    decreases |es|
  {
    hide I.Inv, E.Step, E.Enabled;
    if es == [] {
      assert ([e])[1..] == [];
      assert Runs.Runs(E.Step(s', e), [], E.Step(s', e));
      assert es + [e] == [e];
    } else {
      RunsSnoc(E.Step(s, es[0]), es[1..], s', e);
      assert (es + [e])[1..] == es[1..] + [e];
    }
  }

  /** What the router holds of a question and its answer stays. */
  lemma AnsweredStays(g: Setting, w: World, w': World, f: nat, answer: D.GateAnswer)
    requires Answered(g, w, f, answer) && Runs.Extends(w.router, w'.router)
    requires f in w'.asked && w'.asked[f] == w.asked[f]
    ensures Answered(g, w', f, answer)
  {
    var r :| w.router.calls[w.asked[f]].results == [r] && AnswerOf(g, r) == answer;
    assert w'.router.calls[w.asked[f]] == w.router.calls[w.asked[f]];
  }

  lemma CallStays(s: R.State, s': R.State, c: nat, target: R.PluginId, key: R.Key, op: string)
    requires IsCall(s, c, target, key, op) && Runs.Extends(s, s')
    ensures IsCall(s', c, target, key, op)
  {
  }

  ghost predicate RouterSide(g: Setting, w: World) {
    QuestionsHeld(g, w) && QuestionsSettled(w) && AnswersHeld(g, w) && NotesSent(g, w)
  }

  lemma RouterKeeps(g: Setting, w: World, w': World)
    requires RouterSide(g, w) && Runs.Extends(w.router, w'.router)
    requires w'.dispatch == w.dispatch && w'.asked == w.asked && w'.sent == w.sent
    ensures RouterSide(g, w')
  {
    hide Answered, IsCall;
    forall f | f in w'.asked ensures IsCall(w'.router, w'.asked[f], g.law, g.keys(f), R.LAW_CHECK) {
      CallStays(w.router, w'.router, w.asked[f], g.law, g.keys(f), R.LAW_CHECK);
    }
    forall i | 0 <= i < |w'.dispatch.log| && w'.dispatch.log[i].LawAnswered?
      ensures Answered(g, w', w'.dispatch.log[i].cause, w'.dispatch.log[i].answer)
    {
      AskedOf(g, w, w.dispatch.log[i].cause, w.dispatch.log[i].answer);
      AnsweredStays(g, w, w', w.dispatch.log[i].cause, w.dispatch.log[i].answer);
    }
    forall i | 0 <= i < |w'.dispatch.log| && w'.dispatch.log[i].CallDelivered? ensures IsSent(g, w', w'.dispatch.log[i]) {
      var x := w.dispatch.log[i];
      CallStays(w.router, w'.router, w.sent[x.cause], x.impl, g.keys(x.cause), x.op);
    }
  }

  lemma AskedOf(g: Setting, w: World, f: nat, answer: D.GateAnswer)
    requires Answered(g, w, f, answer)
    ensures f in w.asked && w.asked[f] < |w.router.calls| && w.router.calls[w.asked[f]].results != []
  {
  }

  /** A delivery opens one call; everything else opens none. */
  lemma StepCallCount(s: R.State, e: E.Event)
    requires I.Valid(s) && E.Enabled(s, e)
    ensures |E.Step(s, e).calls| == |s.calls| + if e.DeliverEv? then 1 else 0
  {
    hide I.Inv, R.Admit, R.Release, R.Refill, R.FailQueue, R.FailKeys, E.FreshKey;
    I.InvIsReady(s, {}, None);
    match e
    case DeliverEv(t, key, op, deadlineMs, streaming) => DeliverCount(s, t, key, op, deadlineMs, streaming);
    case ReturnEv(plugin, key, r) =>
      assert R.QueueReady(s, plugin);
      ReturnCount(s, plugin, key, r);
    case TimerEv(c) =>
      E.TimerServes(s, c);
      assert R.QueueReady(s, s.calls[c].item.target);
      TimerCount(s, s.calls[c].item);
    case FailEv(t, reason) => Limits.FailSettles(s, t, reason);
    case ChunkEv(_, _, _) =>
    case RegisterEv(_, _, _) =>
    case TickEv(_) =>
  }

  lemma ReturnCount(s: R.State, plugin: R.PluginId, key: R.Key, r: R.PortResult)
    requires R.QueueReady(s, plugin) && forall k | k in s.pending :: s.pending[k].call < |s.calls|
    ensures |R.OnReturn(s, plugin, key, r).calls| == |s.calls|
  {
    hide R.Refill;
    if key in s.pending {
      R.ReleaseKeepsCalls(R.Forget(R.ClearTimer(s, s.pending[key].call), key), plugin, key);
    }
  }

  lemma TimerCount(s: R.State, it: R.Item)
    requires R.QueueReady(s, it.target) && it.call < |s.calls|
    ensures |R.OnTimer(s, it).calls| == |s.calls|
  {
    hide R.Refill;
    var fired := R.ClearTimer(s, it.call);
    if it.key in s.pending {
      R.ReleaseKeepsCalls(R.Forget(fired, it.key), it.target, it.key);
    }
  }

  lemma DeliverCount(s: R.State, t: R.PluginId, key: R.Key, op: string, deadlineMs: int, streaming: bool)
    requires R.QueueReady(s, t)
    ensures |R.Deliver(s, t, key, op, deadlineMs, streaming).calls| == |s.calls| + 1
  {
    hide R.Admit;
    var it := R.NewItem(s, t, key, op, deadlineMs, streaming);
    var begun := R.OpenCall(s, it);
    if t in s.delivered && |R.Inflight(begun, t)| < R.MaxInflight(begun, t) {
      R.AdmitKeepsCalls(begun, it);
    }
  }

  /** A delivered call is the router's newest one. */
  lemma CallAdded(s: R.State, t: R.PluginId, key: R.Key, op: string, deadlineMs: int, streaming: bool)
    requires I.Valid(s) && E.Enabled(s, E.DeliverEv(t, key, op, deadlineMs, streaming))
    ensures IsCall(E.Step(s, E.DeliverEv(t, key, op, deadlineMs, streaming)), |s.calls|, t, key, op)
    ensures |E.Step(s, E.DeliverEv(t, key, op, deadlineMs, streaming)).calls| == |s.calls| + 1
  {
    hide I.Inv, R.Deliver, E.FreshKey;
    I.InvIsReady(s, {}, None);
    assert R.QueueReady(s, t);
    Runs.DeliverExtends(s, t, key, op, deadlineMs, streaming);
    DeliverCount(s, t, key, op, deadlineMs, streaming);
    var begun := R.OpenCall(s, R.NewItem(s, t, key, op, deadlineMs, streaming));
    Runs.SameItemIn(begun, R.Deliver(s, t, key, op, deadlineMs, streaming), |s.calls|);
  }

  predicate Grows(m: map<nat, nat>, m': map<nat, nat>) {
    forall k | k in m :: k in m' && m'[k] == m[k]
  }

  /** Every call but perhaps a newest one had its owner already. */
  lemma OwnersStay(g: Setting, w: World, w': World, f: nat)
    requires CallsOwned(g, w) && Runs.Extends(w.router, w'.router) && Grows(w.asked, w'.asked) && Grows(w.sent, w'.sent)
    requires |w'.router.calls| == |w.router.calls|
             || (|w'.router.calls| == |w.router.calls| + 1 && Owns(g, w', f, |w.router.calls|))
    ensures CallsOwned(g, w')
  {
    forall c | 0 <= c < |w'.router.calls| ensures HasOwner(g, w', c) {
      if c < |w.router.calls| {
        assert HasOwner(g, w, c);
        var x :| Owns(g, w, x, c);
        assert Owns(g, w', x, c);
      } else {
        assert Owns(g, w', f, c);
      }
    }
  }

  lemma TraceStays(g: Setting, trace: seq<E.Event>, e: E.Event, risk: set<D.Op>)
    requires TraceGated(g, trace, risk)
    requires IsRisky(e, risk) ==> IsQuestion(g, e) || LawLetPass(g, trace, e.key)
    ensures TraceGated(g, trace + [e], risk)
  {
    hide LawLetPass, IsQuestion;
    var trace' := trace + [e];
    forall j | 0 <= j < |trace'| && IsRisky(trace'[j], risk)
      ensures IsQuestion(g, trace'[j]) || LawLetPass(g, trace'[..j], trace'[j].key)
    {
      if j < |trace| {
        assert trace'[..j] == trace[..j] && trace'[j] == trace[j];
      } else {
        assert trace'[..j] == trace;
      }
    }
  }

  // ---- what the dispatch's part of a move keeps ----

  /** A question asked in this move is held by the router already. */
  ghost predicate AsksOnly(g: Setting, w: World, e: D.Event, asked: map<nat, nat>) {
    && Grows(w.asked, asked)
    && forall x | x in asked && x !in w.asked ::
         D.AsksLaw(w.dispatch, e) && x == |w.dispatch.frames| && IsCall(w.router, asked[x], g.law, g.keys(x), R.LAW_CHECK)
  }

  lemma DispatchKeeps(g: Setting, w: World, e: D.Event, w': World)
    requires QuestionsHeld(g, w) && QuestionsSettled(w) && AnswersHeld(g, w) && D.Enabled(w.dispatch, e)
    requires e.LawReply? ==> Answered(g, w, e.f, e.answer)
    requires w'.router == w.router && w'.dispatch == D.Step(w.dispatch, e) && AsksOnly(g, w, e, w'.asked)
    ensures QuestionsHeld(g, w') && QuestionsSettled(w') && AnswersHeld(g, w')
  {
    hide D.Step, Answered, D.AsksLaw;
    PieceGoesOn(w.dispatch, e);
    if D.AsksLaw(w.dispatch, e) {
      AskingWaits(w.dispatch, e);
      AskingCalls(w.dispatch, e);
    }
    if e.LawReply? {
      AskedOf(g, w, e.f, e.answer);
    }
    forall i | 0 <= i < |w'.dispatch.log| && w'.dispatch.log[i].LawAnswered?
      ensures Answered(g, w', w'.dispatch.log[i].cause, w'.dispatch.log[i].answer)
    {
      var x := w'.dispatch.log[i];
      if i < |w.dispatch.log| {
        assert x == w.dispatch.log[i];
      }
      AskedOf(g, w, x.cause, x.answer);
      SameExtends(w.router);
      AnsweredStays(g, w, w', x.cause, x.answer);
    }
  }

  lemma SameExtends(s: R.State)
    ensures Runs.Extends(s, s)
  {
  }

  lemma AskingCalls(s: D.State, e: D.Event)
    requires D.AsksLaw(s, e)
    ensures e.Call? && D.Enabled(s, e)
  {
  }

  lemma NotesStay(g: Setting, w: World, e: D.Event, w': World)
    requires NotesSent(g, w) && D.Enabled(w.dispatch, e)
    requires w'.router == w.router && w'.dispatch == D.Step(w.dispatch, e) && Grows(w.sent, w'.sent)
    requires HandsOver(w.dispatch, e).Some? ==> IsSent(g, w', HandsOver(w.dispatch, e).value)
    ensures NotesSent(g, w')
  {
    hide D.Step, IsCall;
    PieceGoesOn(w.dispatch, e);
    forall i | 0 <= i < |w'.dispatch.log| && w'.dispatch.log[i].CallDelivered? ensures IsSent(g, w', w'.dispatch.log[i]) {
      if i < |w.dispatch.log| {
        assert w'.dispatch.log[i] == w.dispatch.log[i];
      }
    }
  }

  lemma SentStay(w: World, e: D.Event, w': World)
    requires SentDelivered(w) && D.Enabled(w.dispatch, e)
    requires w'.dispatch == D.Step(w.dispatch, e)
    requires forall x | x in w'.sent && x !in w.sent ::
               x < |w'.dispatch.frames| && w'.dispatch.frames[x].phase == D.Delivered
    ensures SentDelivered(w')
  {
    hide D.Step;
    PieceGoesOn(w.dispatch, e);
  }

  // ---- every move is sound ----

  lemma RouterStepSound(g: Setting, w: World, e: E.Event, w': World)
    requires Sound(g, w) && RouterMoves(w, e, w')
    ensures Sound(g, w')
  {
    hide I.Inv, E.Step, E.Enabled, D.Valid, Runs.Extends, Runs.Runs, TraceGated, CallsOwned,
         QuestionsHeld, QuestionsSettled, AnswersHeld, NotesSent;
    RunsSnoc(R.INITIAL, w.trace, w.router, e);
    Runs.StepExtends(w.router, e);
    RouterKeeps(g, w, w');
    StepCallCount(w.router, e);
    OwnersStay(g, w, w', 0);
    TraceStays(g, w.trace, e, w.dispatch.risk);
  }

  lemma ContinueSound(g: Setting, w: World, e: D.Event, w': World)
    requires Sound(g, w) && Continues(g, w, e, w')
    ensures Sound(g, w')
  {
    hide D.Valid, D.Step, D.Enabled, Answered, Runs.Runs, TraceGated, CallsOwned, QuestionsHeld, QuestionsSettled, AnswersHeld,
         NotesSent, SentDelivered, D.AsksLaw;
    D.StepOk(w.dispatch, e);
    D.StepKeepsRisk(w.dispatch, e);
    DispatchKeeps(g, w, e, w');
    NotesStay(g, w, e, w');
    SentStay(w, e, w');
    SameExtends(w.router);
    OwnersStay(g, w, w', 0);
  }

  lemma AskSound(g: Setting, w: World, e: D.Event, w': World)
    requires Sound(g, w) && Asks(g, w, e, w')
    ensures Sound(g, w')
  {
    hide I.Inv, E.Step, E.Enabled, D.Valid, D.Step, D.Enabled, IsCall, Runs.Extends, Runs.Runs, TraceGated, CallsOwned,
         QuestionsHeld, QuestionsSettled, AnswersHeld, NotesSent, SentDelivered, D.AsksLaw;
    var f := |w.dispatch.frames|;
    AskingCalls(w.dispatch, e);
    RunsSnoc(R.INITIAL, w.trace, w.router, LawQuestion(g, f));
    Runs.StepExtends(w.router, LawQuestion(g, f));
    CallAdded(w.router, g.law, g.keys(f), R.LAW_CHECK, GATE_DEADLINE, false);
    var half := w.(router := w'.router, trace := w'.trace);
    RouterKeeps(g, w, half);
    D.StepOk(w.dispatch, e);
    D.StepKeepsRisk(w.dispatch, e);
    AskingWaits(w.dispatch, e);
    NotAsked(g, w, f);
    DispatchKeeps(g, half, e, w');
    NotesStay(g, half, e, w');
    SentStay(w, e, w');
    OwnsNew(g, w', f, |w.router.calls|, g.law, R.LAW_CHECK);
    OwnersStay(g, w, w', f);
    assert IsQuestion(g, LawQuestion(g, f));
    TraceStays(g, w.trace, LawQuestion(g, f), w.dispatch.risk);
  }

  lemma NotAsked(g: Setting, w: World, f: nat)
    requires QuestionsHeld(g, w) && f >= |w.dispatch.frames|
    ensures f !in w.asked
  {
  }

  lemma OwnsNew(g: Setting, w: World, f: nat, c: nat, target: R.PluginId, op: string)
    requires IsCall(w.router, c, target, g.keys(f), op)
    requires (f in w.asked && w.asked[f] == c) || (f in w.sent && w.sent[f] == c)
    ensures Owns(g, w, f, c)
  {
  }

  lemma SendSound(g: Setting, w: World, e: D.Event, deadlineMs: int, streaming: bool, w': World)
    requires Sound(g, w) && Sends(g, w, e, deadlineMs, streaming, w')
    ensures Sound(g, w')
  {
    hide I.Inv, E.Step, E.Enabled, D.Valid, D.Step, D.Enabled, IsCall, Runs.Extends, Runs.Runs, TraceGated, CallsOwned,
         QuestionsHeld, QuestionsSettled, AnswersHeld, NotesSent, SentDelivered, D.AsksLaw, Answered, HandsOver, LawLetPass, IsQuestion;
    var x := HandsOver(w.dispatch, e).value;
    var ev, f := Delivery(g, x, deadlineMs, streaming), x.cause;
    RunsSnoc(R.INITIAL, w.trace, w.router, ev);
    Runs.StepExtends(w.router, ev);
    CallAdded(w.router, x.impl, g.keys(f), x.op, deadlineMs, streaming);
    var half := w.(router := w'.router, trace := w'.trace);
    RouterKeeps(g, w, half);
    D.StepOk(w.dispatch, e);
    D.StepKeepsRisk(w.dispatch, e);
    HandsOverIs(w.dispatch, e);
    NotSent(w, f);
    if e.LawReply? {
      AskedOf(g, w, e.f, e.answer);
      AnsweredStays(g, w, half, e.f, e.answer);
    }
    DispatchKeeps(g, half, e, w');
    NotesStay(g, half, e, w');
    HandedIsDelivered(w.dispatch, e);
    SentStay(w, e, w');
    OwnsNew(g, w', f, |w.router.calls|, x.impl, x.op);
    OwnersStay(g, w, w', f);
    if IsRisky(ev, w.dispatch.risk) {
      HandedPassed(g, w, e);
    }
    TraceStays(g, w.trace, ev, w.dispatch.risk);
  }

  lemma NotSent(w: World, f: nat)
    requires SentDelivered(w) && (f < |w.dispatch.frames| ==> w.dispatch.frames[f].phase != D.Delivered)
    ensures f !in w.sent
  {
  }

  lemma HandedIsDelivered(s: D.State, e: D.Event)
    requires D.Enabled(s, e) && HandsOver(s, e).Some? && D.Valid(D.Step(s, e))
    ensures var f, s' := HandsOver(s, e).value.cause, D.Step(s, e); f < |s'.frames| && s'.frames[f].phase == D.Delivered
  {
    hide D.Step, D.LogOk, D.SpawnsOk, D.DeliveredOnce, D.AnsweredOnce, D.AnswersKnown, D.RegisteredOnce, D.RegistrationsKnown;
  }

  /** A risky call that is handed over has its passing answer, and that answer was the law's return. */
  lemma HandedPassed(g: Setting, w: World, e: D.Event)
    requires Sound(g, w) && TakesUp(g, w, e) && HandsOver(w.dispatch, e).Some? && HandsOver(w.dispatch, e).value.op in w.dispatch.risk
    ensures LawLetPass(g, w.trace, g.keys(HandsOver(w.dispatch, e).value.cause))
  {
    hide D.Step, D.OnceOk, D.SpawnsOk, D.FramesGated, Answered, Runs.Runs, LawLetPass, QuestionsSettled, CallsOwned, TraceGated;
    D.StepOk(w.dispatch, e);
    D.StepKeepsRisk(w.dispatch, e);
    PieceGoesOn(w.dispatch, e);
    var x, log := HandsOver(w.dispatch, e).value, D.Step(w.dispatch, e).log;
    assert D.PassedBefore(log, |log| - 1, x.principal, x.op, x.cause);
    var j :| 0 <= j < |log| - 1 && log[j].LawAnswered? && log[j] == D.LawAnswered(x.principal, x.op, x.cause, log[j].answer)
             && D.Passes(log[j].answer);
    if j < |w.dispatch.log| {
      assert w.dispatch.log[j] == log[j];
    }
    AnswerWasReturned(g, w, x.cause, log[j].answer);
  }

  lemma AnswerWasReturned(g: Setting, w: World, f: nat, answer: D.GateAnswer)
    requires Runs.Runs(R.INITIAL, w.trace, w.router) && QuestionsHeld(g, w) && Answered(g, w, f, answer) && D.Passes(answer)
    ensures LawLetPass(g, w.trace, g.keys(f))
  {
    hide I.Inv, E.Step, Runs.Runs;
    var c := w.asked[f];
    var r :| w.router.calls[c].results == [r] && AnswerOf(g, r) == answer;
    Runs.InitialIsValid();
    assert IsCall(w.router, c, g.law, g.keys(f), R.LAW_CHECK);
    Results.GoodResultWasReturned(R.INITIAL, w.trace, w.router, c);
    var i :| 0 <= i < |w.trace| && w.trace[i] == E.ReturnEv(w.router.calls[c].item.target, w.router.calls[c].item.key, r);
    assert w.trace[i].ReturnEv? && w.trace[i].plugin == g.law && w.trace[i].key == g.keys(f);
  }

  lemma MoveSound(g: Setting, w: World, w': World)
    requires Sound(g, w) && Moves(g, w, w')
    ensures Sound(g, w')
    ensures w'.dispatch.risk == w.dispatch.risk
  {
    hide Sound, RouterMoves, Asks, Continues, Sends;
    if e :| RouterMoves(w, e, w') {
      RouterStepSound(g, w, e, w');
      RouterKeepsDispatch(w, e, w');
    } else {
      var e :| DispatchMoves(g, w, e, w');
      if deadlineMs, streaming :| Sends(g, w, e, deadlineMs, streaming, w') {
        SendSound(g, w, e, deadlineMs, streaming, w');
      } else if Asks(g, w, e, w') {
        AskSound(g, w, e, w');
      } else {
        ContinueSound(g, w, e, w');
      }
      DispatchKeepsRisk(g, w, e, w');
    }
  }

  lemma RouterKeepsDispatch(w: World, e: E.Event, w': World)
    requires RouterMoves(w, e, w')
    ensures w'.dispatch == w.dispatch
  {
  }

  lemma DispatchKeepsRisk(g: Setting, w: World, e: D.Event, w': World)
    requires Sound(g, w) && DispatchMoves(g, w, e, w')
    ensures w'.dispatch.risk == w.dispatch.risk
  {
    hide D.Valid, D.Step, E.Step, I.Inv, Runs.Runs, E.Enabled, QuestionsHeld, QuestionsSettled, AnswersHeld, NotesSent, SentDelivered,
         CallsOwned, TraceGated, HandsOver, Answered;
    assert D.Enabled(w.dispatch, e);
    D.StepKeepsRisk(w.dispatch, e);
  }

  lemma {:induction false} ReachedIsSound(g: Setting, ws: seq<World>)
    requires Reaches(g, ws) && Starts(ws[0])
    ensures Sound(g, ws[|ws| - 1]) && ws[|ws| - 1].dispatch.risk == ws[0].dispatch.risk
  {
    hide Moves, Sound;
    var n := |ws| - 1;
    if n == 0 {
      StartIsSound(g, ws[0]);
    } else {
      assert forall i | 0 <= i < n - 1 :: Moves(g, ws[..n][i], ws[..n][i + 1]) by {
        forall i | 0 <= i < n - 1 ensures Moves(g, ws[..n][i], ws[..n][i + 1]) {
          assert Moves(g, ws[i], ws[i + 1]);
        }
      }
      ReachedIsSound(g, ws[..n]);
      assert Moves(g, ws[n - 1], ws[n - 1 + 1]);
      MoveSound(g, ws[n - 1], ws[n]);
    }
  }

  lemma StartIsSound(g: Setting, w: World)
    requires Starts(w)
    ensures Sound(g, w)
  {
  }

  // ---- main results ----

  /** In every run of router and dispatch together, a risky call is handed over, and a lazy spawn for it
      started, only after the law compartment itself returned, for that causation id, a result that lets it
      pass: not a timeout, a crash, or anybody else's message. */
  lemma RiskyOnlyAfterTheLaw(g: Setting, ws: seq<World>, i: nat)
    requires Reaches(g, ws) && Starts(ws[0])
    requires i < |ws[|ws| - 1].dispatch.log| && D.NeedsGate(ws[|ws| - 1].dispatch.log[i], ws[0].dispatch.risk)
    ensures LawLetPass(g, ws[|ws| - 1].trace, g.keys(ws[|ws| - 1].dispatch.log[i].cause))
  {
    hide I.Inv, Moves, D.OnceOk, D.SpawnsOk, E.Step, Runs.Runs, LawLetPass, CallsOwned, TraceGated, NotesSent;
    ReachedIsSound(g, ws);
    var w := ws[|ws| - 1];
    var x := w.dispatch.log[i];
    assert D.PassedBefore(w.dispatch.log, i, x.principal, x.op, x.cause);
    var j :| 0 <= j < i && w.dispatch.log[j].LawAnswered?
             && w.dispatch.log[j] == D.LawAnswered(x.principal, x.op, x.cause, w.dispatch.log[j].answer)
             && D.Passes(w.dispatch.log[j].answer);
    AnswerWasReturned(g, w, x.cause, w.dispatch.log[j].answer);
  }

  /** So the router is given a risky call, for whatever compartment, only after that return under the same
      causation id; the law's own questions are the one exception. */
  lemma RouterCallsAreGated(g: Setting, ws: seq<World>, j: nat)
    requires Reaches(g, ws) && Starts(ws[0])
    requires var w := ws[|ws| - 1]; j < |w.trace| && IsRisky(w.trace[j], ws[0].dispatch.risk) && !IsQuestion(g, w.trace[j])
    ensures var w := ws[|ws| - 1]; LawLetPass(g, w.trace[..j], w.trace[j].key)
  {
    hide Moves, Starts, D.Valid, Runs.Runs, LawLetPass, IsQuestion, CallsOwned, NotesSent, SentDelivered, QuestionsHeld, QuestionsSettled, AnswersHeld;
    ReachedIsSound(g, ws);
  }

  /** What a dispatch noted as delivered the router holds, for that target, op and causation id. */
  lemma DeliveredIsHeld(g: Setting, ws: seq<World>, i: nat)
    requires Reaches(g, ws) && Starts(ws[0])
    requires i < |ws[|ws| - 1].dispatch.log| && ws[|ws| - 1].dispatch.log[i].CallDelivered?
    ensures IsSent(g, ws[|ws| - 1], ws[|ws| - 1].dispatch.log[i])
  {
    hide Moves, Starts, D.Valid, Runs.Runs, CallsOwned, TraceGated, SentDelivered, QuestionsHeld, QuestionsSettled, AnswersHeld;
    ReachedIsSound(g, ws);
  }

  // ---- fresh causation ids ----

  /** Distinct, non-empty causation ids, as a counter behind a prefix gives. */
  ghost predicate DistinctKeys(g: Setting) {
    (forall f :: g.keys(f) != "") && forall f, f' :: g.keys(f) == g.keys(f') ==> f == f'
  }

  /** With distinct causation ids the router's demand for fresh ones is met whenever a dispatch delivers, its
      question and its call under one id included. */
  lemma DeliveriesAreFresh(g: Setting, ws: seq<World>, e: D.Event)
    requires Reaches(g, ws) && Starts(ws[0]) && DistinctKeys(g)
    ensures var w := ws[|ws| - 1];
            && (D.AsksLaw(w.dispatch, e) ==> E.FreshKey(w.router, g.keys(|w.dispatch.frames|)))
            && (TakesUp(g, w, e) && HandsOver(w.dispatch, e).Some? ==>
                  E.FreshKey(w.router, g.keys(HandsOver(w.dispatch, e).value.cause)))
  {
    hide Moves, Starts, D.Valid, Runs.Runs, TraceGated, AnswersHeld, NotesSent, HandsOver, E.FreshKey, DistinctKeys, D.AsksLaw,
         QuestionsHeld, QuestionsSettled, SentDelivered, CallsOwned, Answered, D.Enabled;
    ReachedIsSound(g, ws);
    var w := ws[|ws| - 1];
    if D.AsksLaw(w.dispatch, e) {
      NotAsked(g, w, |w.dispatch.frames|);
      IdleIsFresh(g, w, |w.dispatch.frames|);
    } else if TakesUp(g, w, e) && HandsOver(w.dispatch, e).Some? {
      HandsOverIs(w.dispatch, e);
      PastTheGate(g, w, e);
      IdleIsFresh(g, w, HandsOver(w.dispatch, e).value.cause);
    }
  }

  /** The question of a dispatch that goes on is resolved. */
  lemma PastTheGate(g: Setting, w: World, e: D.Event)
    requires QuestionsHeld(g, w) && QuestionsSettled(w) && TakesUp(g, w, e)
    ensures var f := ActorOf(w.dispatch, e);
            f in w.asked && w.asked[f] < |w.router.calls| ==> w.router.calls[w.asked[f]].results != []
  {
    if e.LawReply? {
      AskedOf(g, w, e.f, e.answer);
    }
    hide Answered;
  }

  /** A dispatch that has delivered nothing, and whose question, if any, is resolved, has no open call. */
  lemma IdleIsFresh(g: Setting, w: World, f: nat)
    requires DistinctKeys(g) && QuestionsSettled(w) && SentDelivered(w) && CallsOwned(g, w)
    requires f < |w.dispatch.frames| ==> w.dispatch.frames[f].phase != D.Delivered
    requires f in w.asked && w.asked[f] < |w.router.calls| ==> w.router.calls[w.asked[f]].results != []
    ensures E.FreshKey(w.router, g.keys(f))
  {
    forall c | 0 <= c < |w.router.calls| && w.router.calls[c].results == [] ensures w.router.calls[c].item.key != g.keys(f) {
      assert HasOwner(g, w, c);
      var x: nat :| Owns(g, w, x, c);
      assert x != f;
    }
  }
}

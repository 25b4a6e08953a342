/** The streaming call: the producer's emit, the router's relay and the consumer's generator. */
module Stream {
  import opened Wrappers

  datatype Chunk = Chunk(streamId: string, seqNo: int, data: string, final: bool)

  const STREAM_SEQ_START := 1

  // ---- the sequence rule ----

  datatype Violation = BeforeStart | NotContiguous

  function CheckStreamSeq(prevSeq: int, c: Chunk): Option<Violation> {
    if c.seqNo < STREAM_SEQ_START then Some(BeforeStart)
    else if c.seqNo != prevSeq + 1 then Some(NotContiguous)
    else None
  }

  /** Chunks numbered 1, 2, 3, …, none after a final one. */
  predicate Lawful(cs: seq<Chunk>) {
    forall i | 0 <= i < |cs| :: cs[i].seqNo == i + 1 && (cs[i].final ==> i == |cs| - 1)
  }

  /** A list passes the pairwise rule from the start exactly when it is numbered 1, 2, 3, … */
  lemma CheckedIffNumbered(cs: seq<Chunk>)
    ensures (forall i | 0 <= i < |cs| :: CheckStreamSeq(if i == 0 then 0 else cs[i - 1].seqNo, cs[i]).None?)
            <==> forall i | 0 <= i < |cs| :: cs[i].seqNo == i + 1
  {
    if forall i | 0 <= i < |cs| :: CheckStreamSeq(if i == 0 then 0 else cs[i - 1].seqNo, cs[i]).None? {
      for n := 0 to |cs|
        invariant forall i | 0 <= i < n :: cs[i].seqNo == i + 1
      {
        assert CheckStreamSeq(if n == 0 then 0 else cs[n - 1].seqNo, cs[n]).None?;
      }
    }
  }

  // ---- producer ----

  datatype Producer = Producer(streamId: string, nextSeq: int, closed: bool)

  /** `None` is the error thrown by an emit after the final chunk. */
  function Emit(p: Producer, data: string, final: bool): Option<(Producer, Chunk)> {
    if p.closed then None
    else Some((p.(nextSeq := p.nextSeq + 1, closed := final), Chunk(p.streamId, p.nextSeq, data, final)))
  }

  class ShimEmitter {
    const streamId: string
    var nextSeq: int
    var closed: bool
    var sent: seq<Chunk>

    ghost predicate Valid()
      reads this
    {
      Lawful(sent) && nextSeq == |sent| + 1 && (closed <==> sent != [] && sent[|sent| - 1].final)
    }

    constructor (causationId: string)
      ensures Valid() && streamId == causationId && sent == []
    {
      streamId := causationId;
      nextSeq, closed, sent := STREAM_SEQ_START, false, [];
    }

    method Emit(data: string, final: bool) returns (ok: bool)
      requires Valid()
      modifies this
      ensures Valid() && ok == !old(closed)
      ensures sent == if ok then old(sent) + [Chunk(streamId, |old(sent)| + 1, data, final)] else old(sent)
      ensures closed == (if ok then final else old(closed))
    {
      if closed {
        return false;
      }
      if final {
        closed := true;
      }
      sent := sent + [Chunk(streamId, nextSeq, data, final)];
      nextSeq := nextSeq + 1;
      ok := true;
    }
  }

  // ---- consumer ----

  /** The generator: suspended at a yield (of a final chunk or not) or before its first step, asleep on the
      wake-up promise, woken, finished, or raised. */
  datatype Gen = Suspended(afterFinal: bool) | Sleeping | Woken | Done | Raised

  datatype Consumer = Consumer(queue: seq<Chunk>, settled: bool, gen: Gen, prev: int, yielded: seq<Chunk>, overflow: bool)

  const FRESH := Consumer([], false, Suspended(false), 0, [], false)

  function Wake(k: Consumer): Consumer {
    if k.gen == Sleeping then k.(gen := Woken) else k
  }

  /** A chunk over the bound is kept, but the error it raises skips the wake-up. */
  function Enqueued(k: Consumer, c: Chunk, maxBuffered: int): Consumer {
    var pushed := k.(queue := k.queue + [c]);
    if |pushed.queue| > maxBuffered then pushed.(overflow := true) else Wake(pushed)
  }

  function Settled(k: Consumer): Consumer {
    Wake(k.(settled := true))
  }

  predicate CanAdvance(k: Consumer) {
    k.gen.Suspended? || k.gen.Woken?
  }

  /** One run of the generator, from `next()` or from a wake-up to its next yield, sleep or end. */
  function Advance(k: Consumer): Consumer
    requires CanAdvance(k)
  {
    if k.gen == Suspended(true) then k.(gen := Done)
    else if k.queue != [] then
      var c := k.queue[0];
      if CheckStreamSeq(k.prev, c).Some? then k.(queue := k.queue[1..], gen := Raised)
      else k.(queue := k.queue[1..], prev := c.seqNo, yielded := k.yielded + [c], gen := Suspended(c.final))
    else if k.settled then k.(gen := Done)
    else k.(gen := Sleeping)
  }

  class StreamCall {
    const maxBuffered: int
    var queue: seq<Chunk>
    var settled: bool
    var gen: Gen
    var prev: int
    var yielded: seq<Chunk>
    var overflow: bool

    ghost function View(): Consumer
      reads this
    {
      Consumer(queue, settled, gen, prev, yielded, overflow)
    }

    constructor (maxBufferedChunks: Option<int>)
      ensures View() == FRESH && maxBuffered == (if maxBufferedChunks.Some? then maxBufferedChunks.value else 1000)
    {
      maxBuffered := if maxBufferedChunks.Some? then maxBufferedChunks.value else 1000;
      queue, settled, gen, prev, yielded, overflow := [], false, Suspended(false), 0, [], false;
    }

    method WakeUp()
      modifies this`gen
      ensures View() == Wake(old(View()))
    {
      if gen == Sleeping {
        gen := Woken;
      }
    }

    method Push(c: Chunk)
      modifies this
      ensures View() == Enqueued(old(View()), c, maxBuffered)
    {
      queue := queue + [c];
      if |queue| > maxBuffered {
        overflow := true;
        return;
      }
      WakeUp();
    }

    method Settle()
      modifies this
      ensures View() == Settled(old(View()))
    {
      settled := true;
      WakeUp();
    }

    method Next()
      requires CanAdvance(View())
      modifies this
      ensures View() == Advance(old(View()))
    {
      if gen == Suspended(true) {
        gen := Done;
      } else if queue != [] {
        var c := queue[0];
        queue := queue[1..];
        if CheckStreamSeq(prev, c).Some? {
          gen := Raised;
        } else {
          prev := c.seqNo;
          yielded := yielded + [c];
          gen := Suspended(c.final);
        }
      } else if settled {
        gen := Done;
      } else {
        gen := Sleeping;
      }
    }
  }

  // ---- the whole call ----

  datatype Message = ChunkMsg(c: Chunk) | ReturnMsg

  /** `wire` is the worker's ordered channel to the host; `received` and `relayed` are histories. */
  datatype Call = Call(
    delivered: bool, producer: Producer, emitted: seq<Chunk>,
    wire: seq<Message>, received: seq<Chunk>, relayed: seq<Chunk>,
    pending: bool, resolved: bool, rejected: bool, consumer: Consumer, maxBuffered: int)

  function Start(id: string, maxBuffered: int): Call {
    Call(false, Producer(id, STREAM_SEQ_START, false), [], [], [], [], false, false, false, FRESH, maxBuffered)
  }

  datatype Step =
    | Deliver                              // the router admits and posts the call
    | Refuse                               // resolved without being delivered
    | Reject                               // the dispatch throws on a null law value: nothing settles
    | EmitStep(data: string, final: bool)  // handler code, also after its return
    | ReturnStep                           // the handler's result is sent
    | Receive                              // the host handles the next worker message
    | Cut                                  // deadline, crash or termination resolves the call
    | SettleStep                           // the promise continuation runs
    | AdvanceStep                          // next() or a wake-up runs the generator

  /** The dispatch of the call has not come to an end. */
  predicate Open(s: Call) {
    !s.delivered && !s.resolved && !s.rejected
  }

  predicate Enabled(s: Call, e: Step) {
    match e
    case Deliver => Open(s)
    case Refuse => Open(s)
    case Reject => Open(s)
    case EmitStep(_, _) => s.delivered
    case ReturnStep => s.delivered
    case Receive => s.wire != []
    case Cut => s.pending
    case SettleStep => s.resolved && !s.consumer.settled
    case AdvanceStep => CanAdvance(s.consumer)
  }

  function Take(s: Call, e: Step): Call
    requires Enabled(s, e)
  {
    match e
    case Deliver => s.(delivered := true, pending := true)
    case Refuse => s.(resolved := true)
    case Reject => s.(rejected := true)
    case EmitStep(data, final) =>
      var r := Emit(s.producer, data, final);
      if r.None? then s
      else s.(producer := r.value.0, emitted := s.emitted + [r.value.1], wire := s.wire + [ChunkMsg(r.value.1)])
    case ReturnStep => s.(wire := s.wire + [ReturnMsg])
    case Receive =>
      var rest := s.(wire := s.wire[1..]);
      (match s.wire[0]
       case ChunkMsg(c) =>
         var got := rest.(received := s.received + [c]);
         if s.pending then got.(relayed := s.relayed + [c], consumer := Enqueued(s.consumer, c, s.maxBuffered)) else got
       case ReturnMsg => if s.pending then rest.(pending := false, resolved := true) else rest)
    case Cut => s.(pending := false, resolved := true)
    case SettleStep => s.(consumer := Settled(s.consumer))
    case AdvanceStep => s.(consumer := Advance(s.consumer))
  }

  function ChunksOf(wire: seq<Message>): seq<Chunk> {
    if wire == [] then []
    else (if wire[0].ChunkMsg? then [wire[0].c] else []) + ChunksOf(wire[1..])
  }

  lemma {:induction false} ChunksOfSnoc(wire: seq<Message>, m: Message)
    ensures ChunksOf(wire + [m]) == ChunksOf(wire) + if m.ChunkMsg? then [m.c] else []
  {
    if wire != [] {
      assert (wire + [m])[0] == wire[0] && (wire + [m])[1..] == wire[1..] + [m];
      ChunksOfSnoc(wire[1..], m);
    } else {
      assert ([m])[1..] == [];
    }
  }

  predicate EndsFinal(cs: seq<Chunk>) {
    cs != [] && cs[|cs| - 1].final
  }

  ghost predicate ProducerOk(s: Call) {
    && Lawful(s.emitted) && s.producer.nextSeq == |s.emitted| + 1
    && (s.producer.closed <==> EndsFinal(s.emitted))
    && s.emitted == s.received + ChunksOf(s.wire)
  }

  ghost predicate RelayOk(s: Call) {
    && s.relayed <= s.received && (s.pending ==> s.relayed == s.received)
    && (s.resolved ==> !s.pending) && (s.consumer.settled ==> s.resolved)
    && (s.pending ==> s.delivered) && (!s.delivered ==> s.wire == [] && s.emitted == [])
    && (s.delivered ==> s.pending || s.resolved) && (s.rejected ==> !s.delivered && !s.resolved)
  }

  ghost predicate ConsumerOk(s: Call) {
    var k := s.consumer;
    && k.yielded + k.queue == s.relayed
    && k.prev == |k.yielded|
    && k.gen != Raised
    && (k.gen == Sleeping ==> !k.settled && (s.maxBuffered >= 1 ==> k.queue == []))
    && (k.gen.Suspended? ==> (k.gen.afterFinal <==> EndsFinal(k.yielded)))
    && (k.gen == Sleeping || k.gen == Woken ==> !EndsFinal(k.yielded))
    && (k.gen == Done ==> EndsFinal(k.yielded) || (k.settled && k.queue == []))
  }

  ghost predicate Sound(s: Call) {
    ProducerOk(s) && RelayOk(s) && ConsumerOk(s)
  }

  ghost predicate Runs(s: Call, es: seq<Step>, s': Call)
    decreases |es|
  {
    if es == [] then s == s' else Enabled(s, es[0]) && Runs(Take(s, es[0]), es[1..], s')
  }

  lemma ReceiveSound(s: Call)
    requires Sound(s) && Enabled(s, Receive)
    ensures Sound(Take(s, Receive))
  {
    hide Lawful, EndsFinal;
    var s', k := Take(s, Receive), s.consumer;
    assert ChunksOf(s.wire) == (if s.wire[0].ChunkMsg? then [s.wire[0].c] else []) + ChunksOf(s.wire[1..]);
    match s.wire[0]
    case ChunkMsg(c) =>
      assert s.received + ([c] + ChunksOf(s.wire[1..])) == s.received + [c] + ChunksOf(s.wire[1..]);
      assert k.yielded + (k.queue + [c]) == (k.yielded + k.queue) + [c];
      if s.pending {
        DoneMeansClosed(s, c);
      }
    case ReturnMsg =>
      assert [] + ChunksOf(s.wire[1..]) == ChunksOf(s.wire[1..]);
  }

  /** While chunks still arrive, the generator has not ended: the final chunk is the last one. */
  lemma DoneMeansClosed(s: Call, c: Chunk)
    requires Sound(s) && s.pending && s.wire != [] && s.wire[0] == ChunkMsg(c)
    ensures s.consumer.gen != Done && s.consumer.gen != Suspended(true)
  {
    if EndsFinal(s.consumer.yielded) {
      FinalIsLast(s);
    }
  }

  lemma FinalIsLast(s: Call)
    requires Sound(s) && EndsFinal(s.consumer.yielded)
    ensures |s.emitted| == |s.consumer.yielded| && s.consumer.queue == [] && s.consumer.yielded == s.relayed
  {
    var k, i := s.consumer, |s.consumer.yielded| - 1;
    assert s.emitted[i] == k.yielded[i];
    assert k.queue == [];
    assert k.yielded + [] == k.yielded;
  }

  lemma AdvanceSound(s: Call)
    requires Sound(s) && Enabled(s, AdvanceStep)
    ensures Sound(Take(s, AdvanceStep))
  {
    var k := s.consumer;
    if k.gen != Suspended(true) && k.queue != [] {
      var c, i := k.queue[0], |k.yielded|;
      assert s.relayed[i] == c && s.emitted[i] == c;
      assert k.yielded + [c] + k.queue[1..] == k.yielded + k.queue;
    }
  }

  lemma EmitSound(s: Call, data: string, final: bool)
    requires Sound(s) && s.delivered
    ensures Sound(Take(s, EmitStep(data, final)))
  {
    hide ChunksOf;
    var r := Emit(s.producer, data, final);
    if r.Some? {
      ChunksOfSnoc(s.wire, ChunkMsg(r.value.1));
      assert s.received + (ChunksOf(s.wire) + [r.value.1]) == s.received + ChunksOf(s.wire) + [r.value.1];
      LawfulSnoc(s.emitted, r.value.1);
      hide Lawful;
    }
  }

  lemma LawfulSnoc(cs: seq<Chunk>, c: Chunk)
    requires Lawful(cs) && !EndsFinal(cs) && c.seqNo == |cs| + 1
    ensures Lawful(cs + [c])
  {
  }

  lemma StepSound(s: Call, e: Step)
    requires Sound(s) && Enabled(s, e)
    ensures Sound(Take(s, e))
  {
    match e
    case Receive => ReceiveSound(s);
    case AdvanceStep => AdvanceSound(s);
    case EmitStep(data, final) => EmitSound(s, data, final);
    case ReturnStep => ChunksOfSnoc(s.wire, ReturnMsg); assert ChunksOf(s.wire) + [] == ChunksOf(s.wire);
    case _ =>
  }

  lemma {:induction false} RunsAreSound(s: Call, es: seq<Step>, s': Call)
    requires Sound(s) && Runs(s, es, s')
    ensures Sound(s') && s'.maxBuffered == s.maxBuffered
    decreases |es|
  {
    if es != [] {
      StepSound(s, es[0]);
      hide Sound;
      RunsAreSound(Take(s, es[0]), es[1..], s');
    }
  }

  /** At every moment of every run what was yielded plus what is queued is a prefix of what the producer
      emitted, numbered 1, 2, 3, …; the consumer never raises, never sleeps once the call has settled nor,
      with a buffer bound of at least one, on a queued chunk, and ends only after the final chunk or after
      draining everything relayed. */
  lemma ConsumerSeesAPrefix(id: string, maxBuffered: int, es: seq<Step>, s: Call)
    requires Runs(Start(id, maxBuffered), es, s)
    ensures s.consumer.yielded + s.consumer.queue <= s.emitted && Lawful(s.emitted)
    ensures s.consumer.gen != Raised
    ensures s.consumer.gen == Sleeping ==> !s.consumer.settled && (maxBuffered >= 1 ==> s.consumer.queue == [])
    ensures s.consumer.gen == Done ==> EndsFinal(s.consumer.yielded) || (s.consumer.settled && s.consumer.yielded == s.relayed)
  {
    assert Sound(Start(id, maxBuffered));
    RunsAreSound(Start(id, maxBuffered), es, s);
    assert s.consumer.yielded + [] == s.consumer.yielded;
  }

  ghost predicate NeverSleepsOnWork(id: string, maxBuffered: int) {
    forall es, s :: Runs(Start(id, maxBuffered), es, s) ==> !(s.consumer.gen == Sleeping && s.consumer.queue != [])
  }

  /** The consumer never sleeps on a queued chunk exactly when the buffer bound is at least one: with a
      smaller bound the very first chunk overflows and skips the wake-up. The error an overflow raises leaves
      the host's message handler; here the run goes on, as it does where something outside catches it. */
  lemma WakesIffBufferHoldsOne(id: string, maxBuffered: int)
    ensures NeverSleepsOnWork(id, maxBuffered) <==> maxBuffered >= 1
  {
    if maxBuffered >= 1 {
      forall es, s | Runs(Start(id, maxBuffered), es, s) ensures !(s.consumer.gen == Sleeping && s.consumer.queue != []) {
        ConsumerSeesAPrefix(id, maxBuffered, es, s);
      }
    } else {
      var s0 := Start(id, maxBuffered);
      var s1 := Take(s0, Deliver);
      var s2 := Take(s1, AdvanceStep);
      var s3 := Take(s2, EmitStep("", false));
      var s4 := Take(s3, Receive);
      RunsStep(s0, Deliver, [AdvanceStep, EmitStep("", false), Receive], s4) by {
        RunsStep(s1, AdvanceStep, [EmitStep("", false), Receive], s4) by {
          RunsStep(s2, EmitStep("", false), [Receive], s4) by {
            RunsStep(s3, Receive, [], s4);
          }
        }
      }
      assert s4.consumer.gen == Sleeping && s4.consumer.queue != [];
    }
  }

  lemma RunsStep(s: Call, e: Step, rest: seq<Step>, s': Call)
    requires Enabled(s, e) && Runs(Take(s, e), rest, s')
    ensures Runs(s, [e] + rest, s')
  {
  }

  // ---- left asleep ----

  /** However the run goes on, the consumer is never woken. */
  ghost predicate AsleepForEver(s: Call) {
    forall es, s' :: Runs(s, es, s') ==> s'.consumer.gen == Sleeping
  }

  /** A sleeping consumer is never woken again exactly when its call was rejected: every other call still
      settles, or can. */
  lemma AsleepForEverIffRejected(id: string, maxBuffered: int, es: seq<Step>, s: Call)
    requires Runs(Start(id, maxBuffered), es, s) && s.consumer.gen == Sleeping
    ensures AsleepForEver(s) <==> s.rejected
  {
    assert Sound(Start(id, maxBuffered));
    RunsAreSound(Start(id, maxBuffered), es, s);
    if s.rejected {
      forall more, s' | Runs(s, more, s') ensures s'.consumer.gen == Sleeping {
        NothingEnabled(s);
      }
    } else {
      SettlingWakes(s);
    }
  }

  lemma NothingEnabled(s: Call)
    requires Sound(s) && s.rejected && s.consumer.gen == Sleeping
    ensures forall e :: !Enabled(s, e)
  {
  }

  /** The consumer of a rejected call gets nothing, not even an end: its first request sleeps for ever. */
  lemma RejectedNeverEnds(id: string, maxBuffered: int, es: seq<Step>, s: Call)
    requires Runs(Start(id, maxBuffered), es, s) && s.rejected
    ensures s.consumer.yielded == [] && s.consumer.gen != Done
    ensures AsleepForEver(if CanAdvance(s.consumer) then Take(s, AdvanceStep) else s)
  {
    assert Sound(Start(id, maxBuffered));
    hide Sound, Emit;
    RunsAreSound(Start(id, maxBuffered), es, s);
    var asked := if CanAdvance(s.consumer) then Take(s, AdvanceStep) else s;
    RejectedGotNothing(s);
    if CanAdvance(s.consumer) {
      StepSound(s, AdvanceStep);
    }
    forall more, s' | Runs(asked, more, s') ensures s'.consumer.gen == Sleeping {
      NothingEnabled(asked);
    }
  }

  lemma RejectedGotNothing(s: Call)
    requires Sound(s) && s.rejected
    ensures s.consumer.yielded == [] && s.consumer.queue == [] && !s.consumer.settled
    ensures s.consumer.gen == Sleeping || CanAdvance(s.consumer)
    ensures s.consumer.gen != Suspended(true)
  {
    hide Lawful;
  }

  /** Whatever ends an unrejected call, the continuation of its promise wakes the consumer. */
  lemma SettlingWakes(s: Call)
    requires Sound(s) && !s.rejected && s.consumer.gen == Sleeping
    ensures exists es, s' :: Runs(s, es, s') && s'.consumer.gen == Woken
  {
    var ending := if s.resolved then [] else if s.pending then [Cut] else [Refuse];
    var ended := if s.resolved then s else Take(s, ending[0]);
    var woken := Take(ended, SettleStep);
    RunsStep(ended, SettleStep, [], woken);
    if !s.resolved {
      RunsStep(s, ending[0], [SettleStep], woken);
    }
    assert Runs(s, ending + [SettleStep], woken);
  }

  // ---- draining ----

  function AdvanceN(k: Consumer, n: nat): Consumer
    decreases n
  {
    if n == 0 || !CanAdvance(k) then k else AdvanceN(Advance(k), n - 1)
  }

  /** Once the call has settled, the generator yields everything relayed and ends. */
  lemma {:induction false} DrainThenStop(s: Call)
    requires Sound(s) && s.consumer.settled && CanAdvance(s.consumer)
    ensures AdvanceN(s.consumer, |s.consumer.queue| + 1).gen == Done
    ensures AdvanceN(s.consumer, |s.consumer.queue| + 1).yielded == s.relayed
    decreases |s.consumer.queue|
  {
    var k := s.consumer;
    if k.gen == Suspended(true) {
      FinalIsLast(s);
    } else if k.queue == [] {
      assert k.yielded + [] == k.yielded;
    } else {
      AdvanceSound(s);
      DrainThenStop(Take(s, AdvanceStep));
    }
  }

  // ---- envelopes built from parsed rows ----

  datatype ParsedChunk = ParsedChunk(data: string, final: bool)

  /** `None` is the error on an empty id, an empty parse, an early final row or a non-final last row. */
  function BuildChunkEnvelope(streamId: string, parsed: seq<ParsedChunk>): Option<seq<Chunk>> {
    if streamId == "" || parsed == [] then None
    else if exists i | 0 <= i < |parsed| :: parsed[i].final != (i == |parsed| - 1) then None
    else Some(seq(|parsed|, i requires 0 <= i < |parsed| => Chunk(streamId, STREAM_SEQ_START + i, parsed[i].data, parsed[i].final)))
  }

  /** Emitting rows one by one from a fresh producer. */
  function EmitAll(p: Producer, rows: seq<ParsedChunk>): Option<seq<Chunk>>
    decreases |rows|
  {
    if rows == [] then Some([])
    else
      var r := Emit(p, rows[0].data, rows[0].final);
      if r.None? then None
      else
        var rest := EmitAll(r.value.0, rows[1..]);
        if rest.None? then None else Some([r.value.1] + rest.value)
  }

  lemma {:induction false} EmitAllNumbers(p: Producer, rows: seq<ParsedChunk>)
    requires !p.closed && rows != []
    ensures EmitAll(p, rows).Some? <==> forall i | 0 <= i < |rows| - 1 :: !rows[i].final
    ensures EmitAll(p, rows).Some? ==>
              && |EmitAll(p, rows).value| == |rows|
              && forall i | 0 <= i < |rows| ::
                   EmitAll(p, rows).value[i] == Chunk(p.streamId, p.nextSeq + i, rows[i].data, rows[i].final)
    decreases |rows|
  {
    var q := Emit(p, rows[0].data, rows[0].final).value.0;
    assert forall i | 0 < i < |rows| :: rows[i] == rows[1..][i - 1];
    if |rows| > 1 {
      if rows[0].final {
        assert EmitAll(q, rows[1..]).None?;
      } else {
        EmitAllNumbers(q, rows[1..]);
      }
    } else {
      assert rows[1..] == [];
    }
  }

  predicate FinalExactlyLast(parsed: seq<ParsedChunk>) {
    parsed != [] && forall i | 0 <= i < |parsed| :: parsed[i].final <==> i == |parsed| - 1
  }

  /** Accepted exactly when some id is given and the last row, and no other, is final; the result is then
      what a producer would emit for those rows, a lawful stream ending in its final chunk. */
  lemma EnvelopeIsLawfulStream(streamId: string, parsed: seq<ParsedChunk>)
    ensures var r := BuildChunkEnvelope(streamId, parsed);
            && (r.Some? <==> streamId != "" && FinalExactlyLast(parsed))
            && (r.Some? ==> Lawful(r.value) && EndsFinal(r.value)
                            && r == EmitAll(Producer(streamId, STREAM_SEQ_START, false), parsed))
  {
    var r, p := BuildChunkEnvelope(streamId, parsed), Producer(streamId, STREAM_SEQ_START, false);
    if r.Some? {
      EmitAllNumbers(p, parsed);
      assert r.value == EmitAll(p, parsed).value;
    }
  }
}

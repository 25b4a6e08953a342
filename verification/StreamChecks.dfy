/** The stream consumer on its own, whatever chunks reach it: what it yields, when it raises, when it overflows. */
module StreamChecks {
  import opened Stream

  datatype Move =
    | Arrive(c: Chunk)  // the host pushes a chunk, of any number
    | Settle            // the promise continuation
    | Next              // next() or a wake-up; nothing while the generator cannot run

  function Moved(k: Consumer, m: Move, maxBuffered: int): Consumer {
    match m
    case Arrive(c) => Enqueued(k, c, maxBuffered)
    case Settle => Settled(k)
    case Next => if CanAdvance(k) then Advance(k) else k
  }

  function After(ms: seq<Move>, maxBuffered: int): Consumer {
    if ms == [] then FRESH else Moved(After(ms[..|ms| - 1], maxBuffered), ms[|ms| - 1], maxBuffered)
  }

  function Arrived(ms: seq<Move>): seq<Chunk> {
    if ms == [] then []
    else Arrived(ms[..|ms| - 1]) + if ms[|ms| - 1].Arrive? then [ms[|ms| - 1].c] else []
  }

  /** What arrived was yielded or is queued, but for one chunk out of sequence when the consumer has raised. */
  ghost predicate Accounted(k: Consumer, arrived: seq<Chunk>) {
    if k.gen.Raised? then
      exists bad :: arrived == k.yielded + [bad] + k.queue && bad.seqNo != |k.yielded| + 1 && !EndsFinal(k.yielded)
    else arrived == k.yielded + k.queue
  }

  ghost predicate InSequence(k: Consumer) {
    && Lawful(k.yielded) && k.prev == |k.yielded|
    && (k.gen.Suspended? ==> (k.gen.afterFinal <==> EndsFinal(k.yielded)))
    && (k.gen.Sleeping? || k.gen.Woken? ==> !EndsFinal(k.yielded))
    && (k.gen.Done? ==> EndsFinal(k.yielded) || k.settled)
  }

  lemma ArrivalKeeps(k: Consumer, arrived: seq<Chunk>, c: Chunk, maxBuffered: int)
    requires Accounted(k, arrived) && InSequence(k)
    ensures Accounted(Enqueued(k, c, maxBuffered), arrived + [c]) && InSequence(Enqueued(k, c, maxBuffered))
  {
    hide Lawful, EndsFinal;
    var k' := Enqueued(k, c, maxBuffered);
    assert k'.yielded == k.yielded && k'.queue == k.queue + [c] && (k'.gen.Raised? <==> k.gen.Raised?);
    if k.gen.Raised? {
      var bad :| arrived == k.yielded + [bad] + k.queue && bad.seqNo != |k.yielded| + 1 && !EndsFinal(k.yielded);
      assert arrived + [c] == k.yielded + [bad] + (k.queue + [c]);
    } else {
      assert arrived + [c] == k.yielded + (k.queue + [c]);
    }
  }

  lemma AdvanceKeeps(k: Consumer, arrived: seq<Chunk>)
    requires CanAdvance(k) && Accounted(k, arrived) && InSequence(k)
    ensures Accounted(Advance(k), arrived) && InSequence(Advance(k))
  {
    if k.gen != Suspended(true) && k.queue != [] {
      var c := k.queue[0];
      assert k.queue == [c] + k.queue[1..];
      assert arrived == k.yielded + [c] + k.queue[1..];
      if CheckStreamSeq(k.prev, c).None? {
        LawfulSnoc(k.yielded, c);
      }
    }
  }

  /** Of whatever chunks arrive, the consumer yields only 1, 2, 3, … in the order of arrival and nothing after a
      final one; it raises exactly on a chunk out of this sequence, and no chunk is lost or repeated. */
  lemma {:induction false} YieldsInSequence(ms: seq<Move>, maxBuffered: int)
    ensures var k := After(ms, maxBuffered);
            && Lawful(k.yielded) && Accounted(k, Arrived(ms)) && InSequence(k)
            && (k.gen == Done ==> EndsFinal(k.yielded) || k.settled)
  {
    hide Accounted, InSequence, Lawful;
    if ms == [] {
      NothingYet();
    } else {
      var n := |ms| - 1;
      var k := After(ms[..n], maxBuffered);
      YieldsInSequence(ms[..n], maxBuffered);
      match ms[n]
      case Arrive(c) => ArrivalKeeps(k, Arrived(ms[..n]), c, maxBuffered);
      case Settle => SettlingKeeps(k, Arrived(ms[..n])); assert Arrived(ms[..n]) + [] == Arrived(ms[..n]);
      case Next =>
        assert Arrived(ms[..n]) + [] == Arrived(ms[..n]);
        if CanAdvance(k) {
          AdvanceKeeps(k, Arrived(ms[..n]));
        }
    }
    InSequenceIs(After(ms, maxBuffered));
  }

  lemma NothingYet()
    ensures Accounted(FRESH, []) && InSequence(FRESH)
  {
  }

  lemma SettlingKeeps(k: Consumer, arrived: seq<Chunk>)
    requires Accounted(k, arrived) && InSequence(k)
    ensures Accounted(Settled(k), arrived) && InSequence(Settled(k))
  {
    hide Lawful, EndsFinal;
  }

  lemma InSequenceIs(k: Consumer)
    requires InSequence(k)
    ensures Lawful(k.yielded) && (k.gen == Done ==> EndsFinal(k.yielded) || k.settled)
  {
  }

  /** A generator that may run and has not seen a final chunk takes the next queued one: it yields it when it is the
      next of the sequence and raises otherwise. With nothing queued it ends when the call has settled, else sleeps. */
  lemma NextTakesOne(k: Consumer)
    requires InSequence(k) && CanAdvance(k)
    ensures EndsFinal(k.yielded) ==> Advance(k) == k.(gen := Done)
    ensures !EndsFinal(k.yielded) && k.queue != [] ==>
              Advance(k).queue == k.queue[1..] &&
              if k.queue[0].seqNo == |k.yielded| + 1 then
                Advance(k).yielded == k.yielded + [k.queue[0]] && Advance(k).gen == Suspended(k.queue[0].final)
              else Advance(k).yielded == k.yielded && Advance(k).gen == Raised
    ensures !EndsFinal(k.yielded) && k.queue == [] ==> Advance(k) == k.(gen := if k.settled then Done else Sleeping)
  {
    hide Lawful;
  }

  /** The flood error was raised exactly when, at some moment, more chunks were queued than the bound allows. */
  lemma {:induction false} OverflowIffFlooded(ms: seq<Move>, maxBuffered: int)
    requires maxBuffered >= 0
    ensures After(ms, maxBuffered).overflow <==> exists n | 0 <= n <= |ms| :: |After(ms[..n], maxBuffered).queue| > maxBuffered
  {
    hide CheckStreamSeq, After;
    if ms == [] {
      FreshIs(maxBuffered);
    } else {
      var m := |ms| - 1;
      var init := ms[..m];
      OverflowIffFlooded(init, maxBuffered);
      AfterMove(ms, maxBuffered);
      assert forall n | 0 <= n <= m :: ms[..n] == init[..n];
      assert ms[..|ms|] == ms && init[..m] == init;
      var k, k' := After(init, maxBuffered), After(ms, maxBuffered);
      Floods(k, ms[m], maxBuffered);
      if |k'.queue| > maxBuffered {
        assert |After(ms[..|ms|], maxBuffered).queue| > maxBuffered;
      }
      if |k.queue| > maxBuffered {
        assert |After(init[..m], maxBuffered).queue| > maxBuffered;
      }
      forall n | 0 <= n <= |ms| && |After(ms[..n], maxBuffered).queue| > maxBuffered
        ensures |k'.queue| > maxBuffered || exists l | 0 <= l <= m :: |After(init[..l], maxBuffered).queue| > maxBuffered
      {
        if n <= m {
          assert ms[..n] == init[..n];
        }
      }
      if l :| 0 <= l <= m && |After(init[..l], maxBuffered).queue| > maxBuffered {
        assert ms[..l] == init[..l];
      }
    }
  }

  lemma FreshIs(maxBuffered: int)
    ensures After([], maxBuffered) == FRESH && forall n: nat | n <= 0 :: After([][..n], maxBuffered) == FRESH
  {
  }

  lemma AfterMove(ms: seq<Move>, maxBuffered: int)
    requires ms != []
    ensures After(ms, maxBuffered) == Moved(After(ms[..|ms| - 1], maxBuffered), ms[|ms| - 1], maxBuffered)
  {
  }

  /** One move floods the queue, or leaves it no longer than it was. */
  lemma Floods(k: Consumer, m: Move, maxBuffered: int)
    ensures var k' := Moved(k, m, maxBuffered);
            && (k'.overflow <==> k.overflow || (m.Arrive? && |k'.queue| > maxBuffered))
            && (!m.Arrive? ==> |k'.queue| <= |k.queue|)
  {
  }
}

/** The whole answer of resolution, told by the run of registrations alone: who offers what, and what range the
    caller's manifest declares. */
module ResolvedTargets {
  import opened Wrappers
  import opened Ordered
  import opened JsonText
  import opened Signing
  import opened Graphs = CapabilityGraph
  import opened Tools = ToolRegistry
  import opened Kernel
  import opened Resolution

  // ---- what a run offers ----

  predicate Registers(run: seq<Registering>, id: Id) {
    exists j :: 0 <= j < |run| && run[j].entry.id == id
  }

  /** The ops each id was granted when it first registered, in that order. */
  function OffersOf(run: seq<Registering>): seq<Offered> {
    if run == [] then []
    else
      var init, e := run[..|run| - 1], run[|run| - 1].entry;
      OffersOf(init) + if Registers(init, e.id) then [] else OffersFor(e.id, e.grant.contracts)
  }

  /** The graph offers what the first registration of each id was granted, in order of registration. */
  lemma {:induction false} GraphOffers(s: Scheme, key: RootKey, run: seq<Registering>)
    requires KeyPair(s, key)
    ensures var r := RegisterEach(s, key, run);
            && InStep(s, r.kernel) && Offers(r.kernel.graph.edges) == OffersOf(run) && SeenIs(r.kernel.seen, run)
  {
    hide InStep, KeyPair, Genesis, Registered, Offers, OffersFor, RouteAll;
    if run == [] {
      GenesisOk(s, key);
    } else {
      var init, x := run[..|run| - 1], run[|run| - 1];
      assert run == init + [x];
      GraphOffers(s, key, init);
      var r := RegisterEach(s, key, init);
      RegisterOk(s, key, r.kernel, x.entry.id, x.entry.grant, x.manifest.profile);
      SeenStep(r.kernel.seen, init, x);
      assert x.entry.id in r.kernel.seen <==> Registers(init, x.entry.id);
    }
  }

  // ---- the answer ----

  /** The version of the op that an offer stands for. */
  function AtOffer(o: Offered, op: Text): Target {
    Target(o.impl, Versioned(OpName(op), OpVersion(o.op)))
  }

  /** Nobody offers the op. */
  ghost predicate Falls(run: seq<Registering>, principal: Id, op: Text, t: Option<Target>) {
    var offers := OffersOf(run);
    && (t.None? <==> forall range, i | Declares(run, principal, op, range) && 0 <= i < |offers| :: !InRange(offers[i], OpName(op), range))
    && (t.Some? ==> exists range, i: nat :: Declares(run, principal, op, range) && NewestOffer(offers, OpName(op), range, i)
                                            && t.value == AtOffer(offers[i], op))
  }

  /** Some of several offerors serves the op: the owner of the newest offer of its name in the caller's range, any
      range without a declared one, if it offers the op itself; else the offeror that came last. */
  ghost predicate Chooses(run: seq<Registering>, principal: Id, op: Text, t: Option<Target>) {
    var offers := OffersOf(run);
    exists range ::
      && RangeOf(run, principal, op, range)
      && (forall i: nat | NewestOffer(offers, OpName(op), range, i) ::
            t == if IsOffered(offers, offers[i].impl, op) then Some(AtOffer(offers[i], op)) else Some(Target(LastOfferor(offers, op), op)))
      && ((forall i | 0 <= i < |offers| :: !InRange(offers[i], OpName(op), range)) ==> t == Some(Target(LastOfferor(offers, op), op)))
  }

  ghost predicate RangeOf(run: seq<Registering>, principal: Id, op: Text, range: Text) {
    Declares(run, principal, op, range) || (range == STAR && forall other :: !Declares(run, principal, op, other))
  }

  /** The id whose first offer of the op came last, or none. */
  function LastOfferor(offers: seq<Offered>, op: Text): Id {
    var ids := OfferTargets(offers, op);
    if ids == [] then [] else ids[|ids| - 1]
  }

  /** Where an id first offers the op. */
  ghost predicate FirstOffer(offers: seq<Offered>, x: Id, op: Text, i: int) {
    0 <= i < |offers| && offers[i] == Offered(op, x) && forall j | 0 <= j < i :: offers[j] != Offered(op, x)
  }

  /** The offerors of an op are those who were granted it, each once, in order of first grant. */
  lemma {:induction false} OfferorsInOrder(offers: seq<Offered>, op: Text)
    ensures var ids := OfferTargets(offers, op);
            && NoRepeats(ids) && (forall x :: x in ids <==> IsOffered(offers, x, op))
            && forall a, b, i, j | 0 <= a < b < |ids| && FirstOffer(offers, ids[a], op, i) && FirstOffer(offers, ids[b], op, j) :: i < j
  {
    if offers != [] {
      var n := |offers| - 1;
      var init, o := offers[..n], offers[n];
      OfferorsInOrder(init, op);
      assert offers == init + [o];
      forall x ensures IsOffered(offers, x, op) <==> IsOffered(init, x, op) || o == Offered(op, x) {
        OfferedSnoc(init, o, x, op);
      }
      forall x, i ensures FirstOffer(offers, x, op, i) ==> (i == n && !IsOffered(init, x, op)) || FirstOffer(init, x, op, i) {
      }
      hide IsOffered;
      OrderKept(offers, op);
    }
  }

  lemma OrderKept(offers: seq<Offered>, op: Text)
    requires offers != []
    requires var init := offers[..|offers| - 1];
             && (forall x :: x in OfferTargets(init, op) <==> IsOffered(init, x, op))
             && (forall x, i :: FirstOffer(offers, x, op, i) ==> (i == |offers| - 1 && !IsOffered(init, x, op)) || FirstOffer(init, x, op, i))
             && forall a, b, i, j | 0 <= a < b < |OfferTargets(init, op)| && FirstOffer(init, OfferTargets(init, op)[a], op, i)
                                    && FirstOffer(init, OfferTargets(init, op)[b], op, j) :: i < j
    ensures forall a, b, i, j | 0 <= a < b < |OfferTargets(offers, op)| && FirstOffer(offers, OfferTargets(offers, op)[a], op, i)
                                && FirstOffer(offers, OfferTargets(offers, op)[b], op, j) :: i < j
  {
    var n := |offers| - 1;
    var init, ids, ids' := offers[..n], OfferTargets(offers[..n], op), OfferTargets(offers, op);
    forall a, b, i, j | 0 <= a < b < |ids'| && FirstOffer(offers, ids'[a], op, i) && FirstOffer(offers, ids'[b], op, j) ensures i < j {
      assert ids'[a] == ids[a] && ids[a] in ids;
      assert FirstOffer(init, ids[a], op, i);
      if b < |ids| {
        assert ids[b] in ids && ids'[b] == ids[b];
        assert FirstOffer(init, ids[b], op, j);
      } else {
        assert !IsOffered(init, ids'[b], op);
      }
    }
  }

  /** After any run of registrations of any composition: an op somebody offers goes to its one offeror, or is
      chosen among several; one that nobody offers falls back. */
  lemma ResolutionIsExact(s: Scheme, key: RootKey, run: seq<Registering>, principal: Id, op: Text)
    requires KeyPair(s, key)
    ensures var offers, t := OffersOf(run), ResolveTarget(RegisterEach(s, key, run), principal, op);
            && ((forall x :: !IsOffered(offers, x, op)) ==> Falls(run, principal, op, t))
            && (forall x | IsOffered(offers, x, op) && (forall y | IsOffered(offers, y, op) :: y == x) :: t == Some(Target(x, op)))
            && ((exists x, y :: x != y && IsOffered(offers, x, op) && IsOffered(offers, y, op)) ==> Chooses(run, principal, op, t))
  {
    hide KeyPair, RegisterEach, InStep, Offers, OffersOf, IsOffered, CallerRange, Falls, Chooses, Declares;
    var r, offers := RegisterEach(s, key, run), OffersOf(run);
    GraphOffers(s, key, run);
    OfferorsAre(s, r.kernel, op);
    TargetsFromOffers(r.kernel.graph.edges, op);
    ToolsAre(s, r.kernel, OpName(op));
    CallerRangeIs(s, key, run, principal, op);
    OfferorsInOrder(offers, op);
    var ids := OfferTargets(offers, op);
    hide ResolveTarget, OfferTargets, PinsOf, PinsAt;
    if ids == [] {
      FallsFrom(r, run, principal, op);
    } else if |ids| == 1 {
      OneOfferor(r, ids, principal, op);
      assert ids[0] in ids;
    } else {
      assert ids[0] in ids && ids[1] in ids && ids[0] != ids[1];
      ChoosesFrom(r, run, principal, op);
    }
  }

  lemma OneOfferor(r: Router, ids: seq<Id>, principal: Id, op: Text)
    requires Ids(r.kernel.graph.offerors, op) == ids && |ids| == 1
    ensures ResolveTarget(r, principal, op) == Some(Target(ids[0], op))
  {
  }

  lemma FallsFrom(r: Router, run: seq<Registering>, principal: Id, op: Text)
    requires Ids(r.kernel.graph.offerors, op) == []
    requires PinsAt(r.kernel.tools, OpName(op)) == PinsOf(OffersOf(run), OpName(op))
    requires forall range :: CallerRange(r, principal, op) == Some(range) <==> Declares(run, principal, op, range)
    ensures Falls(run, principal, op, ResolveTarget(r, principal, op))
  {
    hide OffersOf, OpName, OpVersion, CallerRange, InRange, NewestOffer, Newest, PinsOf, PinsAt, Ids, Declares, Versioned;
    var offers, range := OffersOf(run), CallerRange(r, principal, op);
    if range.Some? {
      assert Declares(run, principal, op, range.value);
      assert forall other | Declares(run, principal, op, other) :: other == range.value;
      PinIsNewestOffer(offers, OpName(op), range.value);
      if PinFor(r, op, range.value).Some? {
        var i := FindNewest(offers, OpName(op), range.value);
        InRangeAt(offers, OpName(op), range.value, i);
      }
    }
  }

  lemma ChoosesFrom(r: Router, run: seq<Registering>, principal: Id, op: Text)
    requires Ids(r.kernel.graph.offerors, op) == OfferTargets(OffersOf(run), op) && |OfferTargets(OffersOf(run), op)| > 1
    requires forall x :: x in OfferTargets(OffersOf(run), op) <==> IsOffered(OffersOf(run), x, op)
    requires PinsAt(r.kernel.tools, OpName(op)) == PinsOf(OffersOf(run), OpName(op))
    requires forall range :: CallerRange(r, principal, op) == Some(range) <==> Declares(run, principal, op, range)
    ensures Chooses(run, principal, op, ResolveTarget(r, principal, op))
  {
    hide OffersOf, OpName, OpVersion, CallerRange, InRange, NewestOffer, Newest, PinsOf, PinsAt, Ids, Declares, Versioned, OfferTargets, IsOffered;
    var offers, declared := OffersOf(run), CallerRange(r, principal, op);
    var range := if declared.Some? then declared.value else STAR;
    assert RangeOf(run, principal, op, range);
    PinIsNewestOffer(offers, OpName(op), range);
    if PinFor(r, op, range).Some? {
      var i := FindNewest(offers, OpName(op), range);
      InRangeAt(offers, OpName(op), range, i);
      forall k: nat | NewestOffer(offers, OpName(op), range, k) ensures k == i {
        OneNewest(offers, OpName(op), range, i, k);
      }
    } else {
      forall k: nat | NewestOffer(offers, OpName(op), range, k) ensures false {
        InRangeAt(offers, OpName(op), range, k);
      }
    }
  }

  lemma OneNewest(offers: seq<Offered>, name: Text, range: Text, i: nat, k: nat)
    requires NewestOffer(offers, name, range, i) && NewestOffer(offers, name, range, k)
    ensures i == k
  {
    hide InRange;
  }
}

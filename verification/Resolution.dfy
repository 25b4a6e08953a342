/** Graph-based resolution of a call's target, and its agreement with the op routing map. */
module Resolution {
  import opened Wrappers
  import opened Ordered
  import opened JsonText
  import opened Signing
  import opened Graphs = CapabilityGraph
  import opened Tools = ToolRegistry
  import opened Kernel
  import opened Routing

  /** What registration (eager, dormant or lazy) writes and resolution reads. */
  datatype Router = Router(kernel: KernelState, manifests: map<Id, Manifest>, opRoute: map<Text, Id>)

  datatype Target = Target(impl: Id, op: Text)

  function RouteAll(opRoute: map<Text, Id>, ops: seq<Text>, id: Id): map<Text, Id> {
    if ops == [] then opRoute else RouteAll(opRoute, ops[..|ops| - 1], id)[ops[|ops| - 1] := id]
  }

  function Register(s: Scheme, key: RootKey, r: Router, e: Entry, m: Manifest): Router {
    Router(Registered(s, key, r.kernel, e.id, e.grant, m.profile), r.manifests[e.id := m], RouteAll(r.opRoute, e.grant.contracts, e.id))
  }

  function StripContract(ref: Text): Text {
    if CONTRACT_PREFIX <= ref then ref[|CONTRACT_PREFIX|..] else ref
  }

  predicate RefersTo(d: Dependency, op: Text) {
    d.ref == CONTRACT_PREFIX + op || d.ref == CONTRACT_PREFIX + OpName(op) || OpName(StripContract(d.ref)) == OpName(op)
  }

  /** The range of the first dependency on the op, `*` when it is empty. */
  function DeclaredRange(deps: seq<Dependency>, op: Text): Option<Text> {
    if deps == [] then None
    else if RefersTo(deps[0], op) then Some(if deps[0].range == [] then STAR else deps[0].range)
    else DeclaredRange(deps[1..], op)
  }

  function CallerRange(r: Router, principal: Id, op: Text): Option<Text> {
    if principal in r.manifests then DeclaredRange(r.manifests[principal].dependencies, op) else None
  }

  function PinFor(r: Router, op: Text, range: Text): Option<GenerationPin> {
    Newest(PinsAt(r.kernel.tools, OpName(op)), range)
  }

  function ResolveTarget(r: Router, principal: Id, op: Text): Option<Target> {
    var offerors := Ids(r.kernel.graph.offerors, op);
    var declared := CallerRange(r, principal, op);
    if |offerors| == 1 then Some(Target(offerors[0], op))
    else if |offerors| > 1 then
      var pin := PinFor(r, op, if declared.Some? then declared.value else STAR);
      if pin.Some? && pin.value.impl in offerors then Some(Target(pin.value.impl, Versioned(OpName(op), pin.value.version)))
      else Some(Target(offerors[|offerors| - 1], op))
    else if declared.None? then None
    else
      var pin := PinFor(r, op, declared.value);
      if pin.None? then None else Some(Target(pin.value.impl, Versioned(OpName(op), pin.value.version)))
  }

  // ---- what a caller declares ----

  /** The reference, its `contract:` prefix removed, is the op's name or has that name before its version. */
  predicate NamesOp(d: Dependency, op: Text) {
    var ref := if CONTRACT_PREFIX <= d.ref then d.ref[|CONTRACT_PREFIX|..] else d.ref;
    OpName(ref) == OpName(op) || (CONTRACT_PREFIX <= d.ref && ref == OpName(op))
  }

  /** The first dependency that names the op. */
  ghost predicate FirstNaming(deps: seq<Dependency>, op: Text, i: int) {
    0 <= i < |deps| && NamesOp(deps[i], op) && forall j | 0 <= j < i :: !NamesOp(deps[j], op)
  }

  lemma RefersIffNames(d: Dependency, op: Text)
    ensures RefersTo(d, op) <==> NamesOp(d, op)
  {
    hide OpName;
    if CONTRACT_PREFIX <= d.ref {
      assert d.ref == CONTRACT_PREFIX + d.ref[|CONTRACT_PREFIX|..];
    }
    assert (CONTRACT_PREFIX + op)[|CONTRACT_PREFIX|..] == op;
    assert (CONTRACT_PREFIX + OpName(op))[|CONTRACT_PREFIX|..] == OpName(op);
  }

  /** The declared range is that of the first dependency naming the op, `*` when that is empty; there is none
      exactly when no dependency names it. */
  lemma {:induction false} DeclaredIsFirstNaming(deps: seq<Dependency>, op: Text)
    ensures DeclaredRange(deps, op).None? <==> forall i | 0 <= i < |deps| :: !NamesOp(deps[i], op)
    ensures DeclaredRange(deps, op).Some? ==>
              exists i :: FirstNaming(deps, op, i) && DeclaredRange(deps, op).value == if deps[i].range == [] then STAR else deps[i].range
  {
    hide NamesOp, RefersTo;
    if deps != [] {
      RefersIffNames(deps[0], op);
      if RefersTo(deps[0], op) {
        assert FirstNaming(deps, op, 0);
      } else {
        DeclaredIsFirstNaming(deps[1..], op);
        assert forall i | 0 < i < |deps| :: deps[i] == deps[1..][i - 1];
        if DeclaredRange(deps[1..], op).Some? {
          var i :| FirstNaming(deps[1..], op, i) && DeclaredRange(deps[1..], op).value == if deps[1..][i].range == [] then STAR else deps[1..][i].range;
          assert FirstNaming(deps, op, i + 1);
        }
      }
    }
  }

  // ---- what is resolved is offered ----

  ghost predicate IsOffered(offers: seq<Offered>, impl: Id, op: Text) {
    exists i | 0 <= i < |offers| :: offers[i] == Offered(op, impl)
  }

  lemma {:induction false} TargetsAreOffered(edges: seq<Edge>, op: Text)
    ensures forall x :: x in Targets(edges, op, Offer) <==> IsOffered(Offers(edges), x, op)
  {
    if edges != [] {
      var n := |edges| - 1;
      TargetsAreOffered(edges[..n], op);
      forall x ensures IsOffered(Offers(edges), x, op) <==> IsOffered(Offers(edges[..n]), x, op) || (edges[n].kind == Offer && Offered(op, x) == Offered(edges[n].capability, edges[n].to)) {
        OfferedSnoc(Offers(edges[..n]), Offered(edges[n].capability, edges[n].to), x, op);
        assert Offers(edges[..n]) + [] == Offers(edges[..n]);
      }
      hide IsOffered, Offers;
    }
  }

  lemma OfferedSnoc(offers: seq<Offered>, o: Offered, impl: Id, op: Text)
    ensures IsOffered(offers + [o], impl, op) <==> IsOffered(offers, impl, op) || o == Offered(op, impl)
  {
    if IsOffered(offers, impl, op) {
      var i :| 0 <= i < |offers| && offers[i] == Offered(op, impl);
      assert (offers + [o])[i] == Offered(op, impl);
    }
    assert (offers + [o])[|offers|] == o;
  }

  /** The newest offer of a tool name in a range. */
  ghost predicate NewestOffer(offers: seq<Offered>, name: Text, range: Text, i: nat) {
    && i < |offers| && InRange(offers[i], name, range)
    && forall j | i < j < |offers| :: !InRange(offers[j], name, range)
  }

  predicate InRange(o: Offered, name: Text, range: Text) {
    OpName(o.op) == name && Satisfies(OpVersion(o.op), range)
  }

  /** The pin scan over the tool registry finds the newest offer in range, and nothing exactly when there
      is none. */
  lemma {:induction false} PinIsNewestOffer(offers: seq<Offered>, name: Text, range: Text)
    ensures Newest(PinsOf(offers, name), range).None? <==> forall i | 0 <= i < |offers| :: !InRange(offers[i], name, range)
    ensures Newest(PinsOf(offers, name), range).Some? ==>
              exists i: nat :: NewestOffer(offers, name, range, i)
                               && Newest(PinsOf(offers, name), range).value == GenerationPin(OpVersion(offers[i].op), offers[i].impl)
  {
    hide InRange, OpVersion, PinsOf, Newest;
    if offers == [] {
      NoPins(name, range);
    } else {
      var n := |offers| - 1;
      var init := offers[..n];
      PinIsNewestOffer(init, name, range);
      LastPin(offers, name, range);
      assert forall i | 0 <= i < n :: init[i] == offers[i];
      if InRange(offers[n], name, range) {
        assert NewestOffer(offers, name, range, n);
      } else if Newest(PinsOf(init, name), range).Some? {
        var i: nat :| NewestOffer(init, name, range, i)
                      && Newest(PinsOf(init, name), range).value == GenerationPin(OpVersion(init[i].op), init[i].impl);
        assert NewestOffer(offers, name, range, i);
      }
    }
  }

  lemma NoPins(name: Text, range: Text)
    ensures Newest(PinsOf([], name), range).None?
  {
  }

  /** What the last offer does to the newest pin. */
  lemma LastPin(offers: seq<Offered>, name: Text, range: Text)
    requires offers != []
    ensures var init, o := offers[..|offers| - 1], offers[|offers| - 1];
            Newest(PinsOf(offers, name), range)
            == if InRange(o, name, range) then Some(GenerationPin(OpVersion(o.op), o.impl)) else Newest(PinsOf(init, name), range)
  {
    hide MatchesRange, OpName, OpVersion, Satisfies;
    var init, o := offers[..|offers| - 1], offers[|offers| - 1];
    RangeMeaning(OpVersion(o.op), range);
    var pins := PinsOf(init, name);
    if OpName(o.op) == name {
      var pin := GenerationPin(OpVersion(o.op), o.impl);
      assert PinsOf(offers, name) == pins + [pin];
      assert (pins + [pin])[..|pins|] == pins;
    } else {
      assert PinsOf(offers, name) == pins + [] == pins;
    }
  }

  /** Every op offered splits and recomposes, as all ops declared in manifests do. */
  predicate AllVersioned(offers: seq<Offered>) {
    forall i | 0 <= i < |offers| :: LastIndexOf(offers[i].op, AT) > 0
  }

  /** Whatever the composition, even with several offerors of one op: a resolved target really offers the
      op it is given. */
  lemma ResolvedIsOffered(s: Scheme, r: Router, principal: Id, op: Text)
    requires InStep(s, r.kernel) && AllVersioned(Offers(r.kernel.graph.edges))
    ensures ResolveTarget(r, principal, op).Some? ==>
              IsOffered(Offers(r.kernel.graph.edges), ResolveTarget(r, principal, op).value.impl, ResolveTarget(r, principal, op).value.op)
  {
    hide InStep, AllVersioned, Offers, IsOffered, CallerRange, PinFor, OpName, Versioned, Targets, Ids;
    OfferorsAre(s, r.kernel, op);
    var declared := CallerRange(r, principal, op);
    var range := if declared.Some? then declared.value else STAR;
    if PinFor(r, op, range).Some? {
      PinIsOffered(s, r, op, range);
    }
  }

  lemma OfferorsAre(s: Scheme, k: KernelState, op: Text)
    requires InStep(s, k)
    ensures Ids(k.graph.offerors, op) == Targets(k.graph.edges, op, Offer)
    ensures forall x :: x in Targets(k.graph.edges, op, Offer) <==> IsOffered(Offers(k.graph.edges), x, op)
  {
    TargetsAreOffered(k.graph.edges, op);
    if op !in k.graph.nodes {
      NoEdgeNoIds(k.graph.edges, k.graph.nodes.Keys, op);
    }
  }

  lemma PinIsOffered(s: Scheme, r: Router, op: Text, range: Text)
    requires InStep(s, r.kernel) && AllVersioned(Offers(r.kernel.graph.edges)) && PinFor(r, op, range).Some?
    ensures var pin := PinFor(r, op, range).value;
            IsOffered(Offers(r.kernel.graph.edges), pin.impl, Versioned(OpName(op), pin.version))
  {
    var offers := Offers(r.kernel.graph.edges);
    PinIsNewestOffer(offers, OpName(op), range);
    var i: nat :| NewestOffer(offers, OpName(op), range, i) && PinFor(r, op, range).value == GenerationPin(OpVersion(offers[i].op), offers[i].impl);
    RecomposesIff(offers[i].op);
  }

  // ---- runs of registrations ----

  /** One `register` or `registerDormant` call; a lazy spawn registers its entry once more. */
  datatype Registering = Registering(entry: Entry, manifest: Manifest)

  function RegisterEach(s: Scheme, key: RootKey, run: seq<Registering>): Router {
    if run == [] then Router(Genesis(s, key), map[], map[])
    else Register(s, key, RegisterEach(s, key, run[..|run| - 1]), run[|run| - 1].entry, run[|run| - 1].manifest)
  }

  /** Entries that share an id are granted no op; in particular when no two entries share one. */
  predicate SharedIdsIdle(comp: seq<Entry>) {
    forall i, j | 0 <= i < j < |comp| && comp[i].id == comp[j].id :: comp[i].grant.contracts == [] && comp[j].grant.contracts == []
  }

  /** Entries that share an id are granted the same ops. */
  predicate SharedIdsAgree(comp: seq<Entry>) {
    forall e, f | e in comp && f in comp && e.id == f.id :: forall op | op in f.grant.contracts :: op in e.grant.contracts
  }

  /** No op is granted under two ids. */
  ghost predicate OneOwner(comp: seq<Entry>) {
    forall e, f, op | e in comp && f in comp && op in e.grant.contracts && op in f.grant.contracts :: e.id == f.id
  }

  lemma {:induction false} ClaimOf(comp: seq<Entry>, e: Entry, op: Text)
    requires e in comp && op in e.grant.contracts
    ensures exists i | 0 <= i < |Claims(comp)| :: Claims(comp)[i] == Offered(op, e.id)
  {
    var n := |comp| - 1;
    var init, last := Claims(comp[..n]), OffersFor(comp[n].id, comp[n].grant.contracts);
    if e == comp[n] {
      var j :| 0 <= j < |e.grant.contracts| && e.grant.contracts[j] == op;
      assert Claims(comp)[|init| + j] == last[j] == Offered(op, e.id);
    } else {
      assert comp == comp[..n] + [comp[n]];
      ClaimOf(comp[..n], e, op);
      var i :| 0 <= i < |init| && init[i] == Offered(op, e.id);
      assert Claims(comp)[i] == Offered(op, e.id);
    }
  }

  /** What the composition check accepts gives every op one owner. */
  lemma AcceptedHasOneOwner(comp: seq<Entry>)
    requires DistinctOps(Claims(comp))
    ensures OneOwner(comp)
  {
    forall e, f, op | e in comp && f in comp && op in e.grant.contracts && op in f.grant.contracts ensures e.id == f.id {
      ClaimOf(comp, e, op);
      ClaimOf(comp, f, op);
      var i :| 0 <= i < |Claims(comp)| && Claims(comp)[i] == Offered(op, e.id);
      var j :| 0 <= j < |Claims(comp)| && Claims(comp)[j] == Offered(op, f.id);
      assert i == j;
    }
  }

  lemma IdleAgree(comp: seq<Entry>)
    requires SharedIdsIdle(comp)
    ensures SharedIdsAgree(comp)
  {
  }

  /** When no op is granted twice, entries can be granted the same ops only by being granted none. */
  lemma AgreeingAreIdle(comp: seq<Entry>)
    requires DistinctOps(Claims(comp)) && SharedIdsAgree(comp)
    ensures SharedIdsIdle(comp)
  {
    hide DistinctOps, Claims;
    forall i, j, op | 0 <= i < j < |comp| && comp[i].id == comp[j].id && (op in comp[i].grant.contracts || op in comp[j].grant.contracts)
      ensures false
    {
      assert op in comp[i].grant.contracts && op in comp[j].grant.contracts;
      GrantedTwice(comp, i, j, op);
    }
    forall i, j | 0 <= i < j < |comp| && comp[i].id == comp[j].id ensures comp[i].grant.contracts == [] && comp[j].grant.contracts == [] {
      NoneOrSome(comp[i].grant.contracts);
      NoneOrSome(comp[j].grant.contracts);
    }
  }

  lemma NoneOrSome(ops: seq<Text>)
    ensures ops == [] || ops[0] in ops
  {
  }

  lemma GrantedTwice(comp: seq<Entry>, i: nat, j: nat, op: Text)
    requires i < j < |comp| && op in comp[i].grant.contracts && op in comp[j].grant.contracts
    ensures !DistinctOps(Claims(comp))
  {
    hide DistinctOps, Claims;
    var earlier, later := Claims(comp[..j]), OffersFor(comp[j].id, comp[j].grant.contracts);
    assert comp[..j][i] == comp[i];
    ClaimOf(comp[..j], comp[i], op);
    var k :| 0 <= k < |earlier| && earlier[k] == Offered(op, comp[i].id);
    var l :| 0 <= l < |comp[j].grant.contracts| && comp[j].grant.contracts[l] == op;
    assert later[l].op == op;
    ClaimsStep(comp, j);
    ClaimsPrefix(comp, j + 1);
    SameOp(Claims(comp), k, |earlier| + l);
  }

  lemma SameOp(claims: seq<Offered>, k: nat, l: nat)
    requires k < l < |claims| && claims[k].op == claims[l].op
    ensures !DistinctOps(claims)
  {
  }

  lemma {:induction false} ClaimsPrefix(comp: seq<Entry>, n: nat)
    requires n <= |comp|
    ensures Claims(comp[..n]) <= Claims(comp)
  {
    if n < |comp| {
      var init := comp[..|comp| - 1];
      ClaimsPrefix(init, n);
      assert init[..n] == comp[..n];
    } else {
      assert comp[..n] == comp;
    }
  }

  ghost predicate Follows(comp: seq<Entry>, run: seq<Registering>) {
    forall j | 0 <= j < |run| :: run[j].entry in comp
  }

  function OfferTargets(offers: seq<Offered>, op: Text): seq<Id> {
    if offers == [] then []
    else
      var o := offers[|offers| - 1];
      if o.op == op then Including(OfferTargets(offers[..|offers| - 1], op), o.impl) else OfferTargets(offers[..|offers| - 1], op)
  }

  lemma {:induction false} TargetsFromOffers(edges: seq<Edge>, op: Text)
    ensures Targets(edges, op, Offer) == OfferTargets(Offers(edges), op)
  {
    if edges != [] {
      var n := |edges| - 1;
      TargetsFromOffers(edges[..n], op);
      var init := Offers(edges[..n]);
      assert init + [] == init;
      assert (init + [Offered(edges[n].capability, edges[n].to)])[..|init|] == init;
    }
  }

  lemma {:induction false} TargetsAfterOffers(offers: seq<Offered>, id: Id, ops: seq<Text>, op: Text)
    ensures OfferTargets(offers + OffersFor(id, ops), op)
            == if op in ops then Including(OfferTargets(offers, op), id) else OfferTargets(offers, op)
  {
    if ops == [] {
      assert offers + OffersFor(id, ops) == offers;
    } else {
      var n := |ops| - 1;
      TargetsAfterOffers(offers, id, ops[..n], op);
      var before := offers + OffersFor(id, ops[..n]);
      assert offers + OffersFor(id, ops) == before + [Offered(ops[n], id)];
      assert (before + [Offered(ops[n], id)])[..|before|] == before;
      assert ops == ops[..n] + [ops[n]];
    }
  }

  lemma {:induction false} RouteAllIs(opRoute: map<Text, Id>, ops: seq<Text>, id: Id)
    ensures forall op :: op in RouteAll(opRoute, ops, id) <==> op in opRoute || op in ops
    ensures forall op | op in RouteAll(opRoute, ops, id) :: RouteAll(opRoute, ops, id)[op] == if op in ops then id else opRoute[op]
  {
    if ops != [] {
      var n := |ops| - 1;
      RouteAllIs(opRoute, ops[..n], id);
      assert ops == ops[..n] + [ops[n]];
    }
  }

  /** Per op the graph offers exactly what the routing map holds. */
  ghost predicate RouteAgrees(opRoute: map<Text, Id>, offers: seq<Offered>) {
    forall op :: OfferTargets(offers, op) == if op in opRoute then [opRoute[op]] else []
  }

  ghost predicate Grants(run: seq<Registering>, id: Id, op: Text) {
    exists j | 0 <= j < |run| :: run[j].entry.id == id && op in run[j].entry.grant.contracts
  }

  /** An op is routed exactly when a registered entry was granted it, and to that entry. */
  ghost predicate RoutesAreGrants(opRoute: map<Text, Id>, run: seq<Registering>) {
    forall op, id :: (op in opRoute && opRoute[op] == id) <==> Grants(run, id, op)
  }

  ghost predicate SeenIs(seen: set<Id>, run: seq<Registering>) {
    forall id :: id in seen <==> exists j | 0 <= j < |run| :: run[j].entry.id == id
  }

  ghost predicate Consistent(r: Router, run: seq<Registering>) {
    && RouteAgrees(r.opRoute, Offers(r.kernel.graph.edges))
    && RoutesAreGrants(r.opRoute, run)
    && SeenIs(r.kernel.seen, run)
  }

  /** Every offer in the graph was granted to a registered entry, and an op is routed exactly when some
      entry was granted it. */
  ghost predicate OffersAreGrants(offers: seq<Offered>, run: seq<Registering>) {
    forall i | 0 <= i < |offers| :: Grants(run, offers[i].impl, offers[i].op)
  }

  ghost predicate RoutedIffGranted(opRoute: map<Text, Id>, run: seq<Registering>) {
    forall op :: op in opRoute <==> exists id :: Grants(run, id, op)
  }

  lemma GrantsSnoc(run: seq<Registering>, x: Registering, id: Id, op: Text)
    ensures Grants(run + [x], id, op) <==> Grants(run, id, op) || (x.entry.id == id && op in x.entry.grant.contracts)
  {
    if Grants(run, id, op) {
      var j :| 0 <= j < |run| && run[j].entry.id == id && op in run[j].entry.grant.contracts;
      assert (run + [x])[j] == run[j];
    }
    assert (run + [x])[|run|] == x;
  }

  lemma OffersStep(offers: seq<Offered>, run: seq<Registering>, x: Registering, more: seq<Offered>)
    requires OffersAreGrants(offers, run)
    requires more == [] || more == OffersFor(x.entry.id, x.entry.grant.contracts)
    ensures OffersAreGrants(offers + more, run + [x])
  {
    hide Grants;
    forall i | 0 <= i < |offers + more| ensures Grants(run + [x], (offers + more)[i].impl, (offers + more)[i].op) {
      GrantsSnoc(run, x, (offers + more)[i].impl, (offers + more)[i].op);
    }
  }

  lemma RoutedStep(opRoute: map<Text, Id>, run: seq<Registering>, x: Registering)
    requires RoutedIffGranted(opRoute, run)
    ensures RoutedIffGranted(RouteAll(opRoute, x.entry.grant.contracts, x.entry.id), run + [x])
  {
    hide Grants;
    RouteAllIs(opRoute, x.entry.grant.contracts, x.entry.id);
    forall op ensures (exists id :: Grants(run + [x], id, op)) <==> op in opRoute || op in x.entry.grant.contracts {
      if op in x.entry.grant.contracts {
        GrantsSnoc(run, x, x.entry.id, op);
      } else if op in opRoute {
        var id :| Grants(run, id, op);
        GrantsSnoc(run, x, id, op);
      }
      if id :| Grants(run + [x], id, op) {
        GrantsSnoc(run, x, id, op);
      }
    }
  }

  /** Any run of registrations: in step, every offer granted, an op routed exactly when granted. */
  lemma {:induction false} RunFacts(s: Scheme, key: RootKey, run: seq<Registering>)
    requires KeyPair(s, key)
    ensures var r := RegisterEach(s, key, run);
            && InStep(s, r.kernel) && SeenIs(r.kernel.seen, run)
            && OffersAreGrants(Offers(r.kernel.graph.edges), run) && RoutedIffGranted(r.opRoute, run)
  {
    hide InStep, KeyPair, Genesis, Registered, OffersAreGrants, RoutedIffGranted, SeenIs;
    if run == [] {
      GenesisOk(s, key);
      NothingGranted();
    } else {
      var init, x := run[..|run| - 1], run[|run| - 1];
      assert run == init + [x];
      RunFacts(s, key, init);
      var r := RegisterEach(s, key, init);
      RegisterOk(s, key, r.kernel, x.entry.id, x.entry.grant, x.manifest.profile);
      OffersStep(Offers(r.kernel.graph.edges), init, x, if x.entry.id in r.kernel.seen then [] else OffersFor(x.entry.id, x.entry.grant.contracts));
      RoutedStep(r.opRoute, init, x);
      SeenStep(r.kernel.seen, init, x);
    }
  }

  lemma NothingGranted()
    ensures OffersAreGrants([], []) && RoutedIffGranted(map[], []) && SeenIs({}, [])
  {
  }

  lemma SeenStep(seen: set<Id>, run: seq<Registering>, x: Registering)
    requires SeenIs(seen, run)
    ensures SeenIs(seen + {x.entry.id}, run + [x])
  {
    forall id ensures id in seen + {x.entry.id} <==> exists j | 0 <= j < |run + [x]| :: (run + [x])[j].entry.id == id {
      if id in seen {
        var j :| 0 <= j < |run| && run[j].entry.id == id;
        assert (run + [x])[j].entry.id == id;
      }
      assert (run + [x])[|run|] == x;
    }
  }

  /** The owner of an op granted to `x` can only have the id of `x`. */
  lemma OwnerIsSelf(comp: seq<Entry>, run: seq<Registering>, x: Entry, id: Id, op: Text)
    requires OneOwner(comp) && Follows(comp, run) && x in comp && op in x.grant.contracts && Grants(run, id, op)
    ensures id == x.id
  {
    var j :| 0 <= j < |run| && run[j].entry.id == id && op in run[j].entry.grant.contracts;
    assert run[j].entry in comp;
  }

  lemma RoutesStep(comp: seq<Entry>, opRoute: map<Text, Id>, run: seq<Registering>, x: Registering)
    requires OneOwner(comp) && Follows(comp, run) && x.entry in comp && RoutesAreGrants(opRoute, run)
    ensures RoutesAreGrants(RouteAll(opRoute, x.entry.grant.contracts, x.entry.id), run + [x])
  {
    var ops, next := x.entry.grant.contracts, RouteAll(opRoute, x.entry.grant.contracts, x.entry.id);
    RouteAllIs(opRoute, ops, x.entry.id);
    forall op, id ensures (op in next && next[op] == id) <==> Grants(run + [x], id, op) {
      GrantsSnoc(run, x, id, op);
      if op in ops && Grants(run, id, op) {
        OwnerIsSelf(comp, run, x.entry, id, op);
      }
    }
  }

  /** With one owner per op the router's map holds exactly the grants of the registered entries. */
  lemma {:induction false} RoutesHold(s: Scheme, key: RootKey, comp: seq<Entry>, run: seq<Registering>)
    requires OneOwner(comp) && Follows(comp, run)
    ensures RoutesAreGrants(RegisterEach(s, key, run).opRoute, run)
  {
    hide Genesis, OneOwner, Registered, RoutesAreGrants;
    if run == [] {
      NoRoutes();
    } else {
      var init, x := run[..|run| - 1], run[|run| - 1];
      assert run == init + [x];
      RoutesHold(s, key, comp, init);
      RoutesStep(comp, RegisterEach(s, key, init).opRoute, init, x);
    }
  }

  lemma NoRoutes()
    ensures RoutesAreGrants(map[], [])
  {
  }

  /** An entry whose id was registered before has its ops routed to that id already. */
  lemma KnownIsGranted(comp: seq<Entry>, run: seq<Registering>, x: Entry, op: Text)
    requires SharedIdsAgree(comp) && Follows(comp, run) && x in comp && op in x.grant.contracts
    requires exists j | 0 <= j < |run| :: run[j].entry.id == x.id
    ensures Grants(run, x.id, op)
  {
    var j :| 0 <= j < |run| && run[j].entry.id == x.id;
    assert run[j].entry in comp;
  }

  lemma AgreementStep(comp: seq<Entry>, opRoute: map<Text, Id>, offers: seq<Offered>, run: seq<Registering>, x: Registering, known: bool)
    requires OneOwner(comp) && SharedIdsAgree(comp) && Follows(comp, run) && x.entry in comp
    requires RoutesAreGrants(opRoute, run) && RouteAgrees(opRoute, offers)
    requires known <==> exists j | 0 <= j < |run| :: run[j].entry.id == x.entry.id
    ensures RouteAgrees(RouteAll(opRoute, x.entry.grant.contracts, x.entry.id),
                        offers + if known then [] else OffersFor(x.entry.id, x.entry.grant.contracts))
  {
    hide OneOwner, SharedIdsAgree, Follows, Grants;
    var ops, id := x.entry.grant.contracts, x.entry.id;
    RouteAllIs(opRoute, ops, id);
    assert offers + [] == offers;
    forall op ensures OfferTargets(offers + if known then [] else OffersFor(id, ops), op)
                      == if op in opRoute || op in ops then [if op in ops then id else opRoute[op]] else []
    {
      TargetsAfterOffers(offers, id, ops, op);
      if op in ops {
        if known {
          KnownIsGranted(comp, run, x.entry, op);
        } else if op in opRoute {
          OwnerIsSelf(comp, run, x.entry, opRoute[op], op);
          GranterSeen(run, id, op);
          assert false;
        }
      }
    }
  }

  lemma GranterSeen(run: seq<Registering>, id: Id, op: Text)
    requires Grants(run, id, op)
    ensures exists j | 0 <= j < |run| :: run[j].entry.id == id
  {
  }

  lemma {:induction false} RunIsConsistent(s: Scheme, key: RootKey, comp: seq<Entry>, run: seq<Registering>)
    requires KeyPair(s, key) && OneOwner(comp) && SharedIdsAgree(comp) && Follows(comp, run)
    ensures InStep(s, RegisterEach(s, key, run).kernel) && Consistent(RegisterEach(s, key, run), run)
  {
    hide InStep, KeyPair, Genesis, OneOwner, SharedIdsAgree, Registered, RouteAgrees, RoutesAreGrants, OffersAreGrants, RoutedIffGranted;
    RunFacts(s, key, run);
    RoutesHold(s, key, comp, run);
    if run == [] {
      GenesisOk(s, key);
      NothingAgrees();
    } else {
      var init, x := run[..|run| - 1], run[|run| - 1];
      assert run == init + [x];
      RunIsConsistent(s, key, comp, init);
      var r := RegisterEach(s, key, init);
      RegisterOk(s, key, r.kernel, x.entry.id, x.entry.grant, x.manifest.profile);
      AgreementStep(comp, r.opRoute, Offers(r.kernel.graph.edges), init, x, x.entry.id in r.kernel.seen);
    }
  }

  lemma NothingAgrees()
    ensures RouteAgrees(map[], [])
  {
  }

  // ---- what the caller registered last declares ----

  ghost predicate LastRegistered(run: seq<Registering>, id: Id, j: int) {
    0 <= j < |run| && run[j].entry.id == id && forall k | j < k < |run| :: run[k].entry.id != id
  }

  /** The manifest registered last for the caller names the op, first with this range. */
  ghost predicate Declares(run: seq<Registering>, principal: Id, op: Text, range: Text) {
    exists j, i :: LastRegistered(run, principal, j) && DeclaresAt(run[j].manifest.dependencies, op, i, range)
  }

  ghost predicate DeclaresAt(deps: seq<Dependency>, op: Text, i: int, range: Text) {
    FirstNaming(deps, op, i) && range == if deps[i].range == [] then STAR else deps[i].range
  }

  lemma {:induction false} ManifestIsLast(s: Scheme, key: RootKey, run: seq<Registering>, id: Id)
    ensures var r := RegisterEach(s, key, run);
            && (id in r.manifests <==> exists j :: LastRegistered(run, id, j))
            && forall j | LastRegistered(run, id, j) :: r.manifests[id] == run[j].manifest
  {
    hide Registered, Genesis, RouteAll;
    if run != [] {
      var n := |run| - 1;
      ManifestIsLast(s, key, run[..n], id);
      assert forall j | 0 <= j < n :: run[..n][j] == run[j];
      if run[n].entry.id == id {
        assert LastRegistered(run, id, n);
      } else {
        forall j ensures LastRegistered(run, id, j) <==> LastRegistered(run[..n], id, j) {
        }
      }
    }
  }

  /** The range a call is resolved with is the one the caller's manifest declares, if it declares any. */
  lemma CallerRangeIs(s: Scheme, key: RootKey, run: seq<Registering>, principal: Id, op: Text)
    ensures forall range :: CallerRange(RegisterEach(s, key, run), principal, op) == Some(range) <==> Declares(run, principal, op, range)
  {
    hide RegisterEach, DeclaredRange, NamesOp;
    var r := RegisterEach(s, key, run);
    ManifestIsLast(s, key, run, principal);
    forall range ensures CallerRange(r, principal, op) == Some(range) <==> Declares(run, principal, op, range) {
      if principal in r.manifests {
        var j :| LastRegistered(run, principal, j);
        DeclaredIsFirstNaming(run[j].manifest.dependencies, op);
        if CallerRange(r, principal, op) == Some(range) {
          var i :| FirstNaming(run[j].manifest.dependencies, op, i)
                   && range == if run[j].manifest.dependencies[i].range == [] then STAR else run[j].manifest.dependencies[i].range;
          assert DeclaresAt(run[j].manifest.dependencies, op, i, range);
        }
        if Declares(run, principal, op, range) {
          var k, i :| LastRegistered(run, principal, k) && DeclaresAt(run[k].manifest.dependencies, op, i, range);
          assert run[k].manifest == run[j].manifest;
        }
      }
    }
  }

  // ---- the refinement ----

  /** The answer for an op no registered entry was granted: nothing unless the caller's manifest declares a
      range for it and some registered offer of the same name is in that range, else the newest such offer. The
      target is granted the op it is given exactly when its offer is written name@version or it is also granted
      version 1 of the unversioned name. */
  ghost predicate FallsBack(r: Router, run: seq<Registering>, principal: Id, op: Text) {
    var offers, target := Offers(r.kernel.graph.edges), ResolveTarget(r, principal, op);
    && (target.None? <==> forall range, i | Declares(run, principal, op, range) && 0 <= i < |offers| :: !InRange(offers[i], OpName(op), range))
    && (target.Some? ==>
          exists range, i: nat :: Declares(run, principal, op, range) && NewestOffer(offers, OpName(op), range, i)
                                  && FallbackTarget(offers[i], run, op, target.value))
  }

  ghost predicate FallbackTarget(o: Offered, run: seq<Registering>, op: Text, target: Target) {
    && target.impl == o.impl && Grants(run, o.impl, o.op)
    && target.op == Versioned(OpName(op), OpVersion(o.op))
    && (target.op == o.op <==> LastIndexOf(o.op, AT) > 0)
    && (Grants(run, target.impl, target.op) <==> LastIndexOf(o.op, AT) > 0 || Grants(run, o.impl, Versioned(o.op, ONE)))
  }

  /** After any run, whatever the composition: an op no registered entry was granted falls back. */
  lemma UngrantedFallsBack(s: Scheme, key: RootKey, run: seq<Registering>, principal: Id, op: Text)
    requires KeyPair(s, key) && op !in RegisterEach(s, key, run).opRoute
    ensures FallsBack(RegisterEach(s, key, run), run, principal, op)
  {
    var r := RegisterEach(s, key, run);
    RunFacts(s, key, run);
    hide KeyPair, RegisterEach, SeenIs, FallsBack, InStep, OffersAreGrants, RoutedIffGranted;
    NotOffered(s, r, run, op);
    ToolsAre(s, r.kernel, OpName(op));
    CallerRangeIs(s, key, run, principal, op);
    FallbackFrom(r, run, principal, op);
  }

  lemma FallbackFrom(r: Router, run: seq<Registering>, principal: Id, op: Text)
    requires Ids(r.kernel.graph.offerors, op) == [] && OffersAreGrants(Offers(r.kernel.graph.edges), run)
    requires PinsAt(r.kernel.tools, OpName(op)) == PinsOf(Offers(r.kernel.graph.edges), OpName(op))
    requires forall range :: CallerRange(r, principal, op) == Some(range) <==> Declares(run, principal, op, range)
    ensures FallsBack(r, run, principal, op)
  {
    hide Offers, OpName, OpVersion, CallerRange, InRange, FallbackTarget, NewestOffer, Newest, PinsOf, PinsAt, OffersAreGrants, Ids, Declares;
    var offers, range := Offers(r.kernel.graph.edges), CallerRange(r, principal, op);
    if range.Some? {
      assert Declares(run, principal, op, range.value);
      assert forall other | Declares(run, principal, op, other) :: other == range.value;
      PinIsNewestOffer(offers, OpName(op), range.value);
      if PinFor(r, op, range.value).Some? {
        var i := FindNewest(offers, OpName(op), range.value);
        NewestIsGranted(offers, run, op, range.value, i);
        InRangeAt(offers, OpName(op), range.value, i);
      }
    }
  }

  lemma InRangeAt(offers: seq<Offered>, name: Text, range: Text, i: nat)
    requires NewestOffer(offers, name, range, i)
    ensures i < |offers| && InRange(offers[i], name, range)
  {
  }

  lemma FindNewest(offers: seq<Offered>, name: Text, range: Text) returns (i: nat)
    requires Newest(PinsOf(offers, name), range).Some?
    ensures i < |offers| && NewestOffer(offers, name, range, i)
    ensures Newest(PinsOf(offers, name), range).value == GenerationPin(OpVersion(offers[i].op), offers[i].impl)
  {
    hide Newest, PinsOf, OpVersion, InRange;
    PinIsNewestOffer(offers, name, range);
    i :| NewestOffer(offers, name, range, i) && Newest(PinsOf(offers, name), range).value == GenerationPin(OpVersion(offers[i].op), offers[i].impl);
  }

  lemma ToolsAre(s: Scheme, k: KernelState, name: Text)
    requires InStep(s, k)
    ensures PinsAt(k.tools, name) == PinsOf(Offers(k.graph.edges), name)
  {
  }

  lemma NewestIsGranted(offers: seq<Offered>, run: seq<Registering>, op: Text, range: Text, i: nat)
    requires OffersAreGrants(offers, run) && NewestOffer(offers, OpName(op), range, i)
    ensures i < |offers|
    ensures FallbackTarget(offers[i], run, op, Target(offers[i].impl, Versioned(OpName(op), OpVersion(offers[i].op))))
  {
    hide Grants, OpVersion, LastIndexOf;
    assert OpName(offers[i].op) == OpName(op);
    VersionedOffer(offers[i]);
  }

  /** What an offer recomposes to: its own op, or version 1 of the unversioned name. */
  lemma VersionedOffer(o: Offered)
    ensures Versioned(OpName(o.op), OpVersion(o.op)) == o.op <==> LastIndexOf(o.op, AT) > 0
    ensures LastIndexOf(o.op, AT) <= 0 ==> Versioned(OpName(o.op), OpVersion(o.op)) == Versioned(o.op, ONE)
  {
    RecomposesIff(o.op);
  }

  lemma NotOffered(s: Scheme, r: Router, run: seq<Registering>, op: Text)
    requires InStep(s, r.kernel) && OffersAreGrants(Offers(r.kernel.graph.edges), run) && RoutedIffGranted(r.opRoute, run) && op !in r.opRoute
    ensures Ids(r.kernel.graph.offerors, op) == []
  {
    hide Grants, IsOffered, InStep, OffersAreGrants;
    var offers := Offers(r.kernel.graph.edges);
    OfferorsAre(s, r.kernel, op);
    forall x ensures !IsOffered(offers, x, op) {
      if IsOffered(offers, x, op) {
        OfferedIsGranted(offers, run, x, op);
      }
    }
    EmptyOrNot(Targets(r.kernel.graph.edges, op, Offer));
  }

  lemma OfferedIsGranted(offers: seq<Offered>, run: seq<Registering>, impl: Id, op: Text)
    requires OffersAreGrants(offers, run) && IsOffered(offers, impl, op)
    ensures Grants(run, impl, op)
  {
    hide Grants;
    var i :| 0 <= i < |offers| && offers[i] == Offered(op, impl);
  }

  lemma EmptyOrNot(ids: seq<Id>)
    ensures ids == [] || exists x :: x in ids
  {
    if ids != [] {
      assert ids[0] in ids;
    }
  }

  /** A granted op resolves to its owner in the op map, for every caller. */
  ghost predicate AgreesWithMap(r: Router) {
    forall principal, op | op in r.opRoute :: ResolveTarget(r, principal, op) == Some(Target(r.opRoute[op], op))
  }

  /** For a composition the boot checks accept and in which entries that share an id are granted no op, after
      any order and repetition of registrations: a granted op resolves to its owner in the routing map, for
      every caller, and any other op falls back. */
  lemma RoutingRefines(s: Scheme, key: RootKey, comp: seq<Entry>, run: seq<Registering>, principal: Id, op: Text)
    requires KeyPair(s, key) && DistinctOps(Claims(comp)) && SharedIdsIdle(comp) && Follows(comp, run)
    ensures var r := RegisterEach(s, key, run);
            && (op in r.opRoute <==> exists id :: Grants(run, id, op))
            && (op in r.opRoute ==> Grants(run, r.opRoute[op], op) && ResolveTarget(r, principal, op) == Some(Target(r.opRoute[op], op)))
            && (op !in r.opRoute ==> FallsBack(r, run, principal, op))
  {
    hide KeyPair, RegisterEach, DistinctOps, OneOwner, SharedIdsAgree, SharedIdsIdle, Follows, FallsBack, OffersAreGrants, SeenIs, CallerRange, Grants;
    var r := RegisterEach(s, key, run);
    AcceptedHasOneOwner(comp);
    IdleAgree(comp);
    RunIsConsistent(s, key, comp, run);
    RunFacts(s, key, run);
    hide InStep;
    if op in r.opRoute {
      OneTarget(s, r, op);
      assert Grants(run, r.opRoute[op], op);
    } else {
      UngrantedFallsBack(s, key, run, principal, op);
    }
  }

  lemma OneTarget(s: Scheme, r: Router, op: Text)
    requires InStep(s, r.kernel) && RouteAgrees(r.opRoute, Offers(r.kernel.graph.edges)) && op in r.opRoute
    ensures Ids(r.kernel.graph.offerors, op) == [r.opRoute[op]]
  {
    OfferorsAre(s, r.kernel, op);
    TargetsFromOffers(r.kernel.graph.edges, op);
  }

  /** Registrations of entries of the composition, each with the manifest boot read for it. */
  ghost predicate Uses(comp: seq<Entry>, manifests: map<Id, Manifest>, run: seq<Registering>) {
    && Follows(comp, run)
    && forall j | 0 <= j < |run| :: run[j].entry.id in manifests && run[j].manifest == manifests[run[j].entry.id]
  }

  /** The graph agrees with the op map after every run of registrations of an accepted composition exactly
      when its entries that share an id are granted no op. The host does not check this. */
  lemma RefinesIffSharedIdsIdle(s: Scheme, key: RootKey, comp: seq<Entry>, manifests: map<Id, Manifest>)
    requires KeyPair(s, key) && DistinctOps(Claims(comp)) && forall e | e in comp :: e.id in manifests
    ensures (forall run | Uses(comp, manifests, run) :: AgreesWithMap(RegisterEach(s, key, run))) <==> SharedIdsIdle(comp)
  {
    hide KeyPair, RegisterEach, DistinctOps, ResolveTarget, FallsBack, Grants, SharedIdsIdle;
    if SharedIdsIdle(comp) {
      forall run | Uses(comp, manifests, run) ensures AgreesWithMap(RegisterEach(s, key, run)) {
        forall principal, op | op in RegisterEach(s, key, run).opRoute
          ensures ResolveTarget(RegisterEach(s, key, run), principal, op) == Some(Target(RegisterEach(s, key, run).opRoute[op], op))
        {
          RoutingRefines(s, key, comp, run, principal, op);
        }
      }
    } else {
      if SharedIdsAgree(comp) {
        AgreeingAreIdle(comp);
      }
      var e, f, op :| e in comp && f in comp && e.id == f.id && op in f.grant.contracts && op !in e.grant.contracts;
      var run := [Registering(e, manifests[e.id]), Registering(f, manifests[f.id])];
      SharedIdBreaksRefinement(s, key, run[0], run[1], e.id + [0], op);
      assert Uses(comp, manifests, run);
    }
  }

  // ---- the table boot computes ----

  lemma {:induction false} AllDeclared(ops: seq<Text>, id: Id, declared: seq<Text>)
    requires forall op | op in ops :: op in declared
    ensures Declared(ops, id, declared) == OffersFor(id, ops)
  {
    if ops != [] {
      AllDeclared(ops[..|ops| - 1], id, declared);
    }
  }

  lemma {:induction false} RoutableDeclaresAll(comp: seq<Entry>, whole: seq<Entry>, manifests: map<Id, Manifest>)
    requires forall i | 0 <= i < |comp| :: EntryRoutable(whole, manifests, comp[i])
    ensures DeclaredClaims(comp, manifests) == Claims(comp)
  {
    hide RoutableOps, Satisfied, Declared, OffersFor;
    if comp != [] {
      var n := |comp| - 1;
      RoutableDeclaresAll(comp[..n], whole, manifests);
      assert EntryRoutable(whole, manifests, comp[n]);
      AllDeclared(comp[n].grant.contracts, comp[n].id, RoutableOps(manifests[comp[n].id]));
    }
  }

  lemma {:induction false} RoutesOfClaims(claims: seq<Offered>)
    requires DistinctOps(claims)
    ensures forall op, id :: (op in Routes(claims) && Routes(claims)[op] == id) <==> IsOffered(claims, id, op)
  {
    if claims != [] {
      var init, o := claims[..|claims| - 1], claims[|claims| - 1];
      assert claims == init + [o];
      RoutesOfClaims(init);
      forall op, id ensures (op in Routes(claims) && Routes(claims)[op] == id) <==> IsOffered(claims, id, op) {
        OfferedSnoc(init, o, id, op);
        ClaimedOnce(init, o, id);
      }
    }
  }

  lemma ClaimedOnce(claims: seq<Offered>, o: Offered, id: Id)
    requires DistinctOps(claims + [o])
    ensures !IsOffered(claims, id, o.op)
  {
    forall i | 0 <= i < |claims| ensures claims[i].op != o.op {
      assert (claims + [o])[i] == claims[i] && (claims + [o])[|claims|] == o;
    }
  }

  lemma {:induction false} ClaimHasEntry(comp: seq<Entry>, id: Id, op: Text)
    requires IsOffered(Claims(comp), id, op)
    ensures exists e :: e in comp && e.id == id && op in e.grant.contracts
  {
    var i :| 0 <= i < |Claims(comp)| && Claims(comp)[i] == Offered(op, id);
    var n := |comp| - 1;
    assert comp == comp[..n] + [comp[n]];
    if i < |Claims(comp[..n])| {
      assert Claims(comp[..n])[i] == Offered(op, id);
      ClaimHasEntry(comp[..n], id, op);
    } else {
      assert op == comp[n].grant.contracts[i - |Claims(comp[..n])|];
      assert comp[n] in comp;
    }
  }

  /** Once every entry is registered, in whatever order, the router's map is the table boot computed. */
  lemma RouterMapIsTheTable(s: Scheme, key: RootKey, comp: seq<Entry>, manifests: map<Id, Manifest>, run: seq<Registering>)
    requires DistinctOps(Claims(comp)) && Follows(comp, run) && Routable(comp, manifests)
    requires forall e | e in comp :: exists j | 0 <= j < |run| :: run[j].entry == e
    ensures RegisterEach(s, key, run).opRoute == Routes(DeclaredClaims(comp, manifests))
  {
    var r := RegisterEach(s, key, run);
    AcceptedHasOneOwner(comp);
    RoutesHold(s, key, comp, run);
    RoutableDeclaresAll(comp, comp, manifests);
    RoutesOfClaims(Claims(comp));
    var table := Routes(Claims(comp));
    hide RegisterEach, Routable, DistinctOps, OneOwner;
    forall op, id ensures RoutesTo(r.opRoute, op, id) <==> RoutesTo(table, op, id) {
      if Grants(run, id, op) {
        var j :| 0 <= j < |run| && run[j].entry.id == id && op in run[j].entry.grant.contracts;
        ClaimOf(comp, run[j].entry, op);
      }
      if IsOffered(Claims(comp), id, op) {
        ClaimHasEntry(comp, id, op);
        var e :| e in comp && e.id == id && op in e.grant.contracts;
        var j :| 0 <= j < |run| && run[j].entry == e;
        assert Grants(run, id, op);
      }
    }
    SameMaps(r.opRoute, table);
  }

  predicate RoutesTo(opRoute: map<Text, Id>, op: Text, id: Id) {
    op in opRoute && opRoute[op] == id
  }

  lemma SameMaps(a: map<Text, Id>, b: map<Text, Id>)
    requires forall op, id :: RoutesTo(a, op, id) <==> RoutesTo(b, op, id)
    ensures a == b
  {
    forall op ensures (op in a <==> op in b) && (op in a && op in b ==> a[op] == b[op]) {
      if op in a {
        assert RoutesTo(a, op, a[op]);
      }
      if op in b {
        assert RoutesTo(b, op, b[op]);
      }
    }
  }

  /** Of two entries with one id the routing map has the ops of both, but the graph never hears of those of
      the second alone: no caller that declares no dependency on such an op, registered or not, has it
      resolved. */
  lemma SharedIdBreaksRefinement(s: Scheme, key: RootKey, first: Registering, second: Registering, principal: Id, op: Text)
    requires KeyPair(s, key) && first.entry.id == second.entry.id
    requires op in second.entry.grant.contracts && op !in first.entry.grant.contracts
    requires principal == first.entry.id ==> DeclaredRange(second.manifest.dependencies, op).None?
    ensures var r := RegisterEach(s, key, [first, second]);
            op in r.opRoute && ResolveTarget(r, principal, op) == None
  {
    hide InStep, KeyPair, Registered, Genesis, RegisterEach, RouteAll, DeclaredRange;
    var r0 := Router(Genesis(s, key), map[], map[]);
    var r1 := Register(s, key, r0, first.entry, first.manifest);
    var r := Register(s, key, r1, second.entry, second.manifest);
    TwoRegistrations(s, key, first, second);
    GenesisOk(s, key);
    RegisterOk(s, key, r0.kernel, first.entry.id, first.entry.grant, first.manifest.profile);
    RegisterOk(s, key, r1.kernel, second.entry.id, second.entry.grant, second.manifest.profile);
    assert Offers(r.kernel.graph.edges) == OffersFor(first.entry.id, first.entry.grant.contracts);
    OnlyFirst(s, r.kernel, first.entry.id, first.entry.grant.contracts, op);
    RouteAllIs(r1.opRoute, second.entry.grant.contracts, second.entry.id);
    assert r.manifests == map[first.entry.id := second.manifest];
  }

  lemma TwoRegistrations(s: Scheme, key: RootKey, first: Registering, second: Registering)
    ensures RegisterEach(s, key, [first, second])
            == Register(s, key, Register(s, key, Router(Genesis(s, key), map[], map[]), first.entry, first.manifest), second.entry, second.manifest)
  {
    hide Register, Genesis;
    assert [first, second][..1] == [first] && [first][..0] == [];
    assert RegisterEach(s, key, [first]) == Register(s, key, RegisterEach(s, key, []), first.entry, first.manifest);
    assert RegisterEach(s, key, []) == Router(Genesis(s, key), map[], map[]);
  }

  lemma OnlyFirst(s: Scheme, k: KernelState, id: Id, ops: seq<Text>, op: Text)
    requires InStep(s, k) && Offers(k.graph.edges) == OffersFor(id, ops) && op !in ops
    ensures Ids(k.graph.offerors, op) == []
  {
    OfferorsAre(s, k, op);
    TargetsFromOffers(k.graph.edges, op);
    TargetsAfterOffers([], id, ops, op);
    assert [] + OffersFor(id, ops) == OffersFor(id, ops);
    assert OfferTargets([], op) == [];
    hide InStep, Offers, Targets, OfferTargets, OffersFor;
  }
}

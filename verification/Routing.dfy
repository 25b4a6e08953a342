/** Compositions, the routing table boot checks, and the graph-based resolution that replaces it. */
module Routing {
  import opened JsonText
  import opened Graphs = CapabilityGraph
  import opened Kernel

  datatype ContributionKind = ContractKind | EngineKind | ProviderKind | OtherKind

  datatype Contribution = Contribution(kind: ContributionKind, id: Text, version: Text)

  datatype Dependency = Dependency(ref: Text, range: Text)

  datatype Manifest = Manifest(contributions: seq<Contribution>, dependencies: seq<Dependency>, profile: Profile)

  datatype Entry = Entry(id: Id, bootPhase: int, grant: Grant)

  const CONTRACT_PREFIX: Text := [99, 111, 110, 116, 114, 97, 99, 116, 58]
  const LAW_ID: Text := [118, 105, 118, 105, 109, 46, 108, 97, 119]

  function OpsOfKind(cs: seq<Contribution>, kind: ContributionKind): seq<Text> {
    if cs == [] then []
    else (if cs[0].kind == kind then [Versioned(cs[0].id, cs[0].version)] else []) + OpsOfKind(cs[1..], kind)
  }

  function RoutableOps(m: Manifest): seq<Text> {
    OpsOfKind(m.contributions, ContractKind) + OpsOfKind(m.contributions, EngineKind) + OpsOfKind(m.contributions, ProviderKind)
  }

  lemma {:induction false} OpsOfKindAre(cs: seq<Contribution>, kind: ContributionKind, op: Text)
    ensures op in OpsOfKind(cs, kind) <==> exists c :: c in cs && c.kind == kind && op == c.id + [64] + c.version
  {
    if cs != [] {
      OpsOfKindAre(cs[1..], kind, op);
      assert cs == [cs[0]] + cs[1..];
      assert forall c :: c in cs <==> c == cs[0] || c in cs[1..];
    }
  }

  /** A manifest declares the ops of its contracts, engines and providers, versions joined by an `@`. */
  lemma RoutableOpsAre(m: Manifest, op: Text)
    ensures op in RoutableOps(m) <==>
              exists c :: c in m.contributions && (c.kind == ContractKind || c.kind == EngineKind || c.kind == ProviderKind)
                          && op == c.id + [64] + c.version
  {
    hide OpsOfKind;
    OpsOfKindAre(m.contributions, ContractKind, op);
    OpsOfKindAre(m.contributions, EngineKind, op);
    OpsOfKindAre(m.contributions, ProviderKind, op);
  }

  // ---- composition checks ----

  datatype CompositionError = BadPhaseZero | RoutedOpConflict(op: Text, first: Id, second: Id)

  /** Which entry is granted which op, in composition order. */
  function Claims(comp: seq<Entry>): seq<Offered> {
    if comp == [] then []
    else Claims(comp[..|comp| - 1]) + OffersFor(comp[|comp| - 1].id, comp[|comp| - 1].grant.contracts)
  }

  lemma ClaimsSnoc(comp: seq<Entry>, e: Entry)
    ensures Claims(comp + [e]) == Claims(comp) + OffersFor(e.id, e.grant.contracts)
  {
    assert (comp + [e])[..|comp|] == comp;
  }

  lemma NoClaims()
    ensures Claims([]) == []
  {
  }

  lemma {:induction false} ClaimsConcat(a: seq<Entry>, b: seq<Entry>)
    ensures Claims(a + b) == Claims(a) + Claims(b)
  {
    hide Claims, OffersFor;
    if b == [] {
      assert a + b == a;
      NoClaims();
      assert Claims(a) + [] == Claims(a);
    } else {
      var init, e := b[..|b| - 1], b[|b| - 1];
      ClaimsConcat(a, init);
      ClaimsSnoc(a + init, e);
      ClaimsSnoc(init, e);
      assert a + init + [e] == a + b && init + [e] == b;
      Regroup(Claims(a), Claims(init), OffersFor(e.id, e.grant.contracts));
    }
  }

  lemma Regroup(a: seq<Offered>, b: seq<Offered>, c: seq<Offered>)
    ensures a + b + c == a + (b + c)
  {
  }

  /** The claims of a composition are the grants of its entries, entry by entry, each in order. */
  lemma ClaimsAreGrants(before: seq<Entry>, e: Entry, after: seq<Entry>)
    ensures Claims(before + [e] + after)
            == Claims(before) + seq(|e.grant.contracts|, i requires 0 <= i < |e.grant.contracts| => Offered(e.grant.contracts[i], e.id)) + Claims(after)
    ensures Claims([]) == []
  {
    hide Claims;
    NoClaims();
    ClaimsConcat(before + [e], after);
    ClaimsSnoc(before, e);
  }

  predicate DistinctOps(claims: seq<Offered>) {
    forall i, j | 0 <= i < j < |claims| :: claims[i].op != claims[j].op
  }

  function PhaseZero(comp: seq<Entry>): seq<Entry> {
    if comp == [] then []
    else (if comp[0].bootPhase == 0 then [comp[0]] else []) + PhaseZero(comp[1..])
  }

  predicate LawAloneInPhaseZero(comp: seq<Entry>) {
    |PhaseZero(comp)| == 1 && PhaseZero(comp)[0].id == LAW_ID
  }

  /** Exactly one entry boots in phase zero, and it is the law. */
  lemma {:induction false} LawAloneIff(comp: seq<Entry>)
    ensures LawAloneInPhaseZero(comp) <==>
              exists i | 0 <= i < |comp| ::
                comp[i].bootPhase == 0 && comp[i].id == LAW_ID && forall j | 0 <= j < |comp| && j != i :: comp[j].bootPhase != 0
    ensures PhaseZero(comp) == [] <==> forall j | 0 <= j < |comp| :: comp[j].bootPhase != 0
  {
    if comp != [] {
      LawAloneIff(comp[1..]);
      assert forall j | 0 < j < |comp| :: comp[j] == comp[1..][j - 1];
      assert forall j | 0 <= j < |comp| - 1 :: comp[1..][j] == comp[j + 1];
    }
  }

  /** The last claim of an op wins. */
  function Routes(claims: seq<Offered>): map<Text, Id> {
    if claims == [] then map[]
    else Routes(claims[..|claims| - 1])[claims[|claims| - 1].op := claims[|claims| - 1].impl]
  }

  /** One conflict per claim of an op that was claimed before: with the last claimant before it. */
  function Conflicts(claims: seq<Offered>): seq<CompositionError> {
    if claims == [] then []
    else
      var before, o := claims[..|claims| - 1], claims[|claims| - 1];
      Conflicts(before) + if o.op in Routes(before) then [RoutedOpConflict(o.op, Routes(before)[o.op], o.impl)] else []
  }

  /** The law entry must alone boot first, and no op be granted twice. */
  method VerifyCompositionInvariants(comp: seq<Entry>) returns (errors: seq<CompositionError>)
    ensures errors == (if LawAloneInPhaseZero(comp) then [] else [BadPhaseZero]) + Conflicts(Claims(comp))
    ensures errors == [] <==> LawAloneInPhaseZero(comp) && DistinctOps(Claims(comp))
  {
    hide DistinctOps, OffersFor, Claims, Routes, Conflicts;
    errors := [];
    ScanStarts(comp);
    if |PhaseZero(comp)| != 1 || PhaseZero(comp)[0].id != LAW_ID {
      errors := [BadPhaseZero];
    }
    ghost var first := errors;
    var owner: map<Text, Id> := map[];
    assert comp[..|comp|] == comp;
    for i := 0 to |comp|
      invariant owner == Routes(Claims(comp[..i]))
      invariant errors == first + Conflicts(Claims(comp[..i]))
    {
      var ops := comp[i].grant.contracts;
      ghost var claimed := Claims(comp[..i]);
      ClaimsStep(comp, i);
      OffersSoFar(claimed, comp[i].id, ops, 0);
      for j := 0 to |ops|
        invariant owner == Routes(claimed + OffersFor(comp[i].id, ops[..j]))
        invariant errors == first + Conflicts(claimed + OffersFor(comp[i].id, ops[..j]))
      {
        OffersSoFar(claimed, comp[i].id, ops, j);
        ConflictsSnoc(first, claimed + OffersFor(comp[i].id, ops[..j]), Offered(ops[j], comp[i].id));
        if ops[j] in owner {
          errors := errors + [RoutedOpConflict(ops[j], owner[ops[j]], comp[i].id)];
        }
        owner := owner[ops[j] := comp[i].id];
      }
      assert ops[..|ops|] == ops;
    }
    NoConflictIff(Claims(comp));
  }

  lemma ScanStarts(comp: seq<Entry>)
    ensures Routes(Claims(comp[..0])) == map[] && Conflicts(Claims(comp[..0])) == []
  {
  }

  lemma ClaimsStep(comp: seq<Entry>, i: nat)
    requires i < |comp|
    ensures Claims(comp[..i + 1]) == Claims(comp[..i]) + OffersFor(comp[i].id, comp[i].grant.contracts)
  {
    assert comp[..i + 1][..i] == comp[..i];
  }

  /** The claims of an entry, one contract after another. */
  lemma OffersSoFar(claimed: seq<Offered>, id: Id, ops: seq<Text>, j: nat)
    requires j <= |ops|
    ensures claimed + OffersFor(id, ops[..0]) == claimed
    ensures j < |ops| ==> claimed + OffersFor(id, ops[..j + 1]) == claimed + OffersFor(id, ops[..j]) + [Offered(ops[j], id)]
  {
  }

  lemma ConflictsSnoc(first: seq<CompositionError>, claims: seq<Offered>, o: Offered)
    ensures Routes(claims + [o]) == Routes(claims)[o.op := o.impl]
    ensures first + Conflicts(claims + [o])
            == first + Conflicts(claims)
               + if o.op in Routes(claims) then [RoutedOpConflict(o.op, Routes(claims)[o.op], o.impl)] else []
  {
    assert (claims + [o])[..|claims|] == claims;
  }

  /** The last claim of the op among the first `n`. */
  predicate LastClaim(claims: seq<Offered>, n: nat, i: nat, op: Text) {
    i < n <= |claims| && claims[i].op == op && forall j | i < j < n :: claims[j].op != op
  }

  /** An op is routed exactly when it is claimed, to its last claimant. */
  lemma {:induction false} RoutedToLast(claims: seq<Offered>, op: Text)
    ensures op in Routes(claims) <==> exists i | 0 <= i < |claims| :: claims[i].op == op
    ensures forall i: nat | LastClaim(claims, |claims|, i, op) :: op in Routes(claims) && Routes(claims)[op] == claims[i].impl
  {
    if claims != [] {
      var n := |claims| - 1;
      RoutedToLast(claims[..n], op);
      assert claims == claims[..n] + [claims[n]];
      RoutesSnoc(claims[..n], claims[n]);
      hide Routes;
      assert forall i | 0 <= i < n :: claims[..n][i] == claims[i];
      forall i: nat | LastClaim(claims, n + 1, i, op) ensures op in Routes(claims) && Routes(claims)[op] == claims[i].impl {
        if i < n {
          assert LastClaim(claims[..n], n, i, op);
        }
      }
    }
  }

  lemma RoutedHasLast(claims: seq<Offered>, op: Text) returns (i: nat)
    requires op in Routes(claims)
    ensures LastClaim(claims, |claims|, i, op)
  {
    RoutedToLast(claims, op);
    hide Routes;
    i := |claims| - 1;
    while claims[i].op != op
      invariant i < |claims| && (exists k | 0 <= k <= i :: claims[k].op == op) && forall j | i < j < |claims| :: claims[j].op != op
      decreases i
    {
      i := i - 1;
    }
  }

  /** A conflict is reported for two claims of one op without a third between them. */
  ghost predicate InConflict(claims: seq<Offered>, x: CompositionError) {
    x.RoutedOpConflict? && exists i: nat, j: nat ::
      LastClaim(claims, j, i, x.op) && j < |claims| && claims[j].op == x.op && x.first == claims[i].impl && x.second == claims[j].impl
  }

  lemma {:induction false} ConflictsAre(claims: seq<Offered>, x: CompositionError)
    ensures x in Conflicts(claims) <==> InConflict(claims, x)
  {
    if claims != [] {
      var n := |claims| - 1;
      var init, o := claims[..n], claims[n];
      ConflictsAre(init, x);
      RoutedToLast(init, o.op);
      hide Routes;
      EarlierConflict(claims, x);
      hide InConflict, LastClaim;
      if o.op in Routes(init) {
        NewConflict(claims, x);
      } else if exists i: nat :: LastClaim(claims, n, i, o.op) {
        ClaimedBefore(claims, n, o.op);
      }
    }
  }

  lemma ClaimedBefore(claims: seq<Offered>, n: nat, op: Text)
    requires n <= |claims|
    ensures forall i: nat | LastClaim(claims, n, i, op) :: op in Routes(claims[..n])
  {
    RoutedToLast(claims[..n], op);
  }

  /** The conflict of a last claim whose op was claimed before. */
  lemma NewConflict(claims: seq<Offered>, x: CompositionError)
    requires claims != [] && claims[|claims| - 1].op in Routes(claims[..|claims| - 1])
    ensures var n := |claims| - 1;
            x == RoutedOpConflict(claims[n].op, Routes(claims[..n])[claims[n].op], claims[n].impl) <==>
              x.RoutedOpConflict? && claims[n].op == x.op && x.second == claims[n].impl
              && exists i: nat :: LastClaim(claims, n, i, x.op) && x.first == claims[i].impl
  {
    var n := |claims| - 1;
    var op := claims[n].op;
    RoutedToLast(claims[..n], op);
    var i := RoutedHasLast(claims[..n], op);
    hide Routes;
    assert LastClaim(claims, n, i, op);
    assert forall k: nat | LastClaim(claims, n, k, op) :: k == i;
  }

  /** What the last claim adds to the conflicts. */
  lemma EarlierConflict(claims: seq<Offered>, x: CompositionError)
    requires claims != []
    ensures var n := |claims| - 1;
            InConflict(claims, x) <==>
              || InConflict(claims[..n], x)
              || (x.RoutedOpConflict? && claims[n].op == x.op && x.second == claims[n].impl
                  && exists i: nat :: LastClaim(claims, n, i, x.op) && x.first == claims[i].impl)
  {
    var n := |claims| - 1;
    assert forall i | 0 <= i < n :: claims[..n][i] == claims[i];
    if InConflict(claims[..n], x) {
      var i: nat, j: nat :| LastClaim(claims[..n], j, i, x.op) && j < n && claims[..n][j].op == x.op
                            && x.first == claims[..n][i].impl && x.second == claims[..n][j].impl;
      assert LastClaim(claims, j, i, x.op);
    }
    if InConflict(claims, x) {
      var i: nat, j: nat :| LastClaim(claims, j, i, x.op) && j < |claims| && claims[j].op == x.op
                            && x.first == claims[i].impl && x.second == claims[j].impl;
      if j < n {
        assert LastClaim(claims[..n], j, i, x.op);
      }
    }
  }

  lemma {:induction false} NoConflictIff(claims: seq<Offered>)
    ensures Conflicts(claims) == [] <==> DistinctOps(claims)
  {
    if claims != [] {
      var n := |claims| - 1;
      NoConflictIff(claims[..n]);
      RoutedToLast(claims[..n], claims[n].op);
      hide Routes;
      assert forall i | 0 <= i < n :: claims[..n][i] == claims[i];
    }
  }

  // ---- the routing table ----

  datatype RoutingError = NoManifest(id: Id) | Undeclared(id: Id, op: Text) | Unsatisfied(id: Id, ref: Text)

  predicate Satisfied(comp: seq<Entry>, d: Dependency) {
    CONTRACT_PREFIX <= d.ref ==> exists i | 0 <= i < |comp| :: d.ref[|CONTRACT_PREFIX|..] in comp[i].grant.contracts
  }

  /** A dependency is unsatisfied exactly when it names a contract that no entry is granted. */
  lemma UnsatisfiedIff(comp: seq<Entry>, d: Dependency)
    ensures !Satisfied(comp, d) <==>
              exists op: Text :: d.ref == [99, 111, 110, 116, 114, 97, 99, 116, 58] + op
                                 && forall i | 0 <= i < |comp| :: op !in comp[i].grant.contracts
  {
    if CONTRACT_PREFIX <= d.ref {
      assert d.ref == CONTRACT_PREFIX + d.ref[|CONTRACT_PREFIX|..];
      forall op: Text | d.ref == CONTRACT_PREFIX + op ensures op == d.ref[|CONTRACT_PREFIX|..] {
        assert (CONTRACT_PREFIX + op)[|CONTRACT_PREFIX|..] == op;
      }
    }
  }

  predicate EntryRoutable(comp: seq<Entry>, manifests: map<Id, Manifest>, e: Entry) {
    && e.id in manifests
    && (forall op | op in e.grant.contracts :: op in RoutableOps(manifests[e.id]))
    && (forall d | d in manifests[e.id].dependencies :: Satisfied(comp, d))
  }

  predicate Routable(comp: seq<Entry>, manifests: map<Id, Manifest>) {
    forall i | 0 <= i < |comp| :: EntryRoutable(comp, manifests, comp[i])
  }

  lemma RoutesEmpty()
    ensures Routes([]) == map[]
  {
  }

  lemma RoutesSnoc(claims: seq<Offered>, o: Offered)
    ensures Routes(claims + [o]) == Routes(claims)[o.op := o.impl]
  {
  }

  /** The claims of one entry that its manifest declares. */
  function Declared(ops: seq<Text>, id: Id, declared: seq<Text>): seq<Offered> {
    if ops == [] then []
    else Declared(ops[..|ops| - 1], id, declared) + if ops[|ops| - 1] in declared then [Offered(ops[|ops| - 1], id)] else []
  }

  function DeclaredClaims(comp: seq<Entry>, manifests: map<Id, Manifest>): seq<Offered> {
    if comp == [] then []
    else
      var e := comp[|comp| - 1];
      DeclaredClaims(comp[..|comp| - 1], manifests)
      + if e.id in manifests then Declared(e.grant.contracts, e.id, RoutableOps(manifests[e.id])) else []
  }

  /** What is reported of one entry. */
  ghost predicate Reports(comp: seq<Entry>, manifests: map<Id, Manifest>, e: Entry, x: RoutingError) {
    x.id == e.id &&
    match x
    case NoManifest(id) => id !in manifests
    case Undeclared(id, op) => id in manifests && op in e.grant.contracts && op !in RoutableOps(manifests[id])
    case Unsatisfied(id, ref) => id in manifests && exists d :: d in manifests[id].dependencies && d.ref == ref && !Satisfied(comp, d)
  }

  /** No error exactly when every entry has a manifest that declares its granted ops and every contract
      dependency is granted somewhere; the table routes each declared grant to its last claimant. */
  method BuildRoutingTable(comp: seq<Entry>, manifests: map<Id, Manifest>)
      returns (opRoute: map<Text, Id>, errors: seq<RoutingError>)
    ensures errors == [] <==> Routable(comp, manifests)
    ensures forall x :: x in errors <==> exists i | 0 <= i < |comp| :: Reports(comp, manifests, comp[i], x)
    ensures opRoute == Routes(DeclaredClaims(comp, manifests))
  {
    hide RoutableOps, Satisfied, Declared, Routes;
    assert Routes([]) == map[] by { RoutesEmpty(); }
    opRoute, errors := map[], [];
    assert comp[..|comp|] == comp;
    for i := 0 to |comp|
      invariant opRoute == Routes(DeclaredClaims(comp[..i], manifests))
      invariant errors == [] <==> forall k | 0 <= k < i :: EntryRoutable(comp, manifests, comp[k])
      invariant forall x :: x in errors <==> exists k | 0 <= k < i :: Reports(comp, manifests, comp[k], x)
    {
      assert comp[..i + 1][..i] == comp[..i];
      var e := comp[i];
      if e.id !in manifests {
        errors := errors + [NoManifest(e.id)];
        assert DeclaredClaims(comp[..i], manifests) + [] == DeclaredClaims(comp[..i], manifests);
      } else {
        var m := manifests[e.id];
        assert DeclaredClaims(comp[..i + 1], manifests)
               == DeclaredClaims(comp[..i], manifests) + Declared(e.grant.contracts, e.id, RoutableOps(m));
        opRoute, errors := RouteEntry(opRoute, errors, e, RoutableOps(m), DeclaredClaims(comp[..i], manifests));
        errors := CheckDependencies(comp, errors, e.id, m.dependencies);
      }
    }
  }

  method CheckDependencies(comp: seq<Entry>, errors: seq<RoutingError>, id: Id, deps: seq<Dependency>)
      returns (errors': seq<RoutingError>)
    ensures errors' == [] <==> errors == [] && forall d | d in deps :: Satisfied(comp, d)
    ensures forall x :: x in errors' <==>
              x in errors || (x.Unsatisfied? && x.id == id && exists d :: d in deps && d.ref == x.ref && !Satisfied(comp, d))
  {
    hide Satisfied;
    errors' := errors;
    for j := 0 to |deps|
      invariant errors' == [] <==> errors == [] && forall d | d in deps[..j] :: Satisfied(comp, d)
      invariant forall x :: x in errors' <==>
                  x in errors || (x.Unsatisfied? && x.id == id && exists d :: d in deps[..j] && d.ref == x.ref && !Satisfied(comp, d))
    {
      assert deps[..j + 1] == deps[..j] + [deps[j]];
      if !Satisfied(comp, deps[j]) {
        errors' := errors' + [Unsatisfied(id, deps[j].ref)];
      }
    }
    assert deps[..|deps|] == deps;
  }

  method RouteEntry(opRoute: map<Text, Id>, errors: seq<RoutingError>, e: Entry, ops: seq<Text>, ghost claims: seq<Offered>)
      returns (opRoute': map<Text, Id>, errors': seq<RoutingError>)
    requires opRoute == Routes(claims)
    ensures opRoute' == Routes(claims + Declared(e.grant.contracts, e.id, ops))
    ensures errors' == [] <==> errors == [] && forall op | op in e.grant.contracts :: op in ops
    ensures forall x :: x in errors' <==>
              x in errors || (x.Undeclared? && x.id == e.id && x.op in e.grant.contracts && x.op !in ops)
  {
    hide Declared, Routes;
    opRoute', errors' := opRoute, errors;
    var contracts := e.grant.contracts;
    assert contracts[..|contracts|] == contracts;
    DeclaredNothing(claims, contracts, e.id, ops);
    for j := 0 to |contracts|
      invariant opRoute' == Routes(claims + Declared(contracts[..j], e.id, ops))
      invariant errors' == [] <==> errors == [] && forall op | op in contracts[..j] :: op in ops
      invariant forall x :: x in errors' <==>
                  x in errors || (x.Undeclared? && x.id == e.id && x.op in contracts[..j] && x.op !in ops)
    {
      DeclaredStep(claims, contracts, j, e.id, ops);
      assert contracts[..j + 1] == contracts[..j] + [contracts[j]];
      if contracts[j] !in ops {
        errors' := errors' + [Undeclared(e.id, contracts[j])];
      } else {
        opRoute' := opRoute'[contracts[j] := e.id];
      }
    }
  }

  lemma DeclaredNothing(claims: seq<Offered>, contracts: seq<Text>, id: Id, ops: seq<Text>)
    ensures claims + Declared(contracts[..0], id, ops) == claims
  {
  }

  /** One more contract of an entry: routed when declared, else the routes stay. */
  lemma DeclaredStep(claims: seq<Offered>, contracts: seq<Text>, j: nat, id: Id, ops: seq<Text>)
    requires j < |contracts|
    ensures Routes(claims + Declared(contracts[..j + 1], id, ops))
            == if contracts[j] in ops then Routes(claims + Declared(contracts[..j], id, ops))[contracts[j] := id]
               else Routes(claims + Declared(contracts[..j], id, ops))
  {
    hide Routes;
    var before, o := Declared(contracts[..j], id, ops), Offered(contracts[j], id);
    assert contracts[..j + 1][..j] == contracts[..j];
    if contracts[j] in ops {
      assert Declared(contracts[..j + 1], id, ops) == before + [o];
      hide Declared;
      assert claims + (before + [o]) == claims + before + [o];
      RoutesSnoc(claims + before, o);
    } else {
      assert Declared(contracts[..j + 1], id, ops) == before + [] == before;
    }
  }
}

/** What a composition that boot accepts resolves calls to: only granted ops, but for grants that are not
    written name@version. */
module BootedResolution {
  import opened Wrappers
  import opened JsonText
  import opened Signing
  import opened Graphs = CapabilityGraph
  import opened Tools = ToolRegistry
  import opened Kernel
  import opened Routing
  import opened Resolution

  /** A granted op without an `@` after its first character resolves, as a fallback, to version 1 of its name;
      it does no harm when that is granted along with it. */
  predicate BareGrantsCovered(comp: seq<Entry>) {
    forall e, op | e in comp && op in e.grant.contracts :: Covered(e, op)
  }

  predicate Covered(e: Entry, op: Text) {
    LastIndexOf(op, AT) > 0 || Versioned(op, ONE) in e.grant.contracts
  }

  /** Whatever is resolved, for any caller, the target was granted. */
  ghost predicate ResolvesGranted(s: Scheme, key: RootKey, run: seq<Registering>) {
    forall principal, op :: ResolveTarget(RegisterEach(s, key, run), principal, op).Some? ==>
      GrantedTarget(run, ResolveTarget(RegisterEach(s, key, run), principal, op).value)
  }

  ghost predicate GrantedTarget(run: seq<Registering>, t: Target) {
    Grants(run, t.impl, t.op)
  }

  // ---- covered grants resolve to granted ops ----

  /** What an offer recomposes to is granted to its owner. */
  lemma OfferRecomposes(comp: seq<Entry>, run: seq<Registering>, o: Offered)
    requires BareGrantsCovered(comp) && Follows(comp, run) && Grants(run, o.impl, o.op)
    ensures Grants(run, o.impl, Versioned(OpName(o.op), OpVersion(o.op)))
  {
    hide LastIndexOf, OpName, OpVersion, Versioned;
    var j :| 0 <= j < |run| && run[j].entry.id == o.impl && o.op in run[j].entry.grant.contracts;
    assert Covered(run[j].entry, o.op);
    VersionedOffer(o);
  }

  lemma CoveredResolves(s: Scheme, key: RootKey, comp: seq<Entry>, run: seq<Registering>, principal: Id, op: Text)
    requires KeyPair(s, key) && BareGrantsCovered(comp) && Follows(comp, run)
    ensures var t := ResolveTarget(RegisterEach(s, key, run), principal, op); t.Some? ==> GrantedTarget(run, t.value)
  {
    hide KeyPair, RegisterEach, InStep, Offers, IsOffered, CallerRange, OpName, OpVersion, Versioned, Targets, Ids, Grants, SeenIs,
         OffersAreGrants, RoutedIffGranted, BareGrantsCovered, Follows, Newest, PinsAt, PinsOf;
    var r := RegisterEach(s, key, run);
    RunFacts(s, key, run);
    OfferorsAre(s, r.kernel, op);
    ToolsAre(s, r.kernel, OpName(op));
    var declared, offers := CallerRange(r, principal, op), Offers(r.kernel.graph.edges);
    var range := if declared.Some? then declared.value else STAR;
    if PinFor(r, op, range).Some? {
      var i := FindNewest(offers, OpName(op), range);
      OfferIsGranted(offers, run, i);
      OfferRecomposes(comp, run, offers[i]);
      NewestHasName(offers, OpName(op), range, i);
    }
    forall x | IsOffered(offers, x, op) ensures Grants(run, x, op) {
      OfferedIsGranted(offers, run, x, op);
    }
  }

  lemma OfferIsGranted(offers: seq<Offered>, run: seq<Registering>, i: nat)
    requires OffersAreGrants(offers, run) && i < |offers|
    ensures Grants(run, offers[i].impl, offers[i].op)
  {
    hide Grants;
  }

  lemma NewestHasName(offers: seq<Offered>, name: Text, range: Text, i: nat)
    requires NewestOffer(offers, name, range, i)
    ensures i < |offers| && OpName(offers[i].op) == name
  {
    hide OpName, OpVersion, MatchesRange;
  }

  // ---- an uncovered grant does not ----

  /** The op at another version has the same name, and only the bare op is version 1 of that name. */
  lemma AtVersion(op: Text, version: Text)
    requires op != [] && AT !in version
    ensures OpName(Versioned(op, version)) == op
  {
    var q := Versioned(op, version);
    assert q[|op|] == AT;
    assert q[..|op|] == op;
  }

  lemma BareIsOne(op: Text)
    requires LastIndexOf(op, AT) <= 0
    ensures OpName(op) == op && OpVersion(op) == ONE
  {
  }

  lemma OnlyOneMatchesOne(version: Text)
    ensures MatchesRange(version, ONE) <==> version == ONE
  {
    assert |DOT_X| == 2;
  }

  /** An entry granted a bare op, but not version 1 of its name, is given that version when a caller that
      declares it asks for one nobody is granted. */
  lemma BareGrantMisresolves(s: Scheme, key: RootKey, x: Registering, op: Text, version: Text)
    requires KeyPair(s, key) && op in x.entry.grant.contracts && op != [] && !Covered(x.entry, op)
    requires AT !in version && Versioned(op, version) !in x.entry.grant.contracts
    requires x.manifest.dependencies == [Dependency(CONTRACT_PREFIX + op, ONE)]
    ensures ResolveTarget(RegisterEach(s, key, [x]), x.entry.id, Versioned(op, version)) == Some(Target(x.entry.id, Versioned(op, ONE)))
    ensures !Grants([x], x.entry.id, Versioned(op, ONE))
  {
    hide KeyPair, InStep, Genesis, Registered, Offers, Versioned, Ids, LastIndexOf, Grants, SeenIs, RouteAll, OpName, OpVersion, Newest,
         PinsOf, PinsAt, InRange;
    var q, id, ops := Versioned(op, version), x.entry.id, x.entry.grant.contracts;
    var r := RegisterEach(s, key, [x]);
    OneRegistration(s, key, x);
    OnlyFirst(s, r.kernel, id, ops, q);
    AtVersion(op, version);
    assert RefersTo(x.manifest.dependencies[0], q);
    assert CallerRange(r, id, q) == Some(ONE);
    ToolsAre(s, r.kernel, op);
    PinOfBare(id, ops, op);
    GrantsOfOne(x, id, Versioned(op, ONE));
  }

  lemma GrantsOfOne(x: Registering, id: Id, op: Text)
    ensures Grants([x], id, op) <==> x.entry.id == id && op in x.entry.grant.contracts
  {
    assert [x][0] == x;
  }

  lemma OneRegistration(s: Scheme, key: RootKey, x: Registering)
    requires KeyPair(s, key)
    ensures var r := RegisterEach(s, key, [x]);
            && InStep(s, r.kernel) && Offers(r.kernel.graph.edges) == OffersFor(x.entry.id, x.entry.grant.contracts)
            && r.manifests == map[x.entry.id := x.manifest]
  {
    hide KeyPair, InStep, Genesis, Registered, Offers, RouteAll;
    assert [x][..0] == [];
    GenesisOk(s, key);
    RegisterOk(s, key, Genesis(s, key), x.entry.id, x.entry.grant, x.manifest.profile);
    assert RegisterEach(s, key, []) == Router(Genesis(s, key), map[], map[]);
    assert [] + OffersFor(x.entry.id, x.entry.grant.contracts) == OffersFor(x.entry.id, x.entry.grant.contracts);
  }

  lemma PinOfBare(id: Id, ops: seq<Text>, op: Text)
    requires op in ops && LastIndexOf(op, AT) <= 0 && Versioned(op, ONE) !in ops
    ensures Newest(PinsOf(OffersFor(id, ops), op), ONE) == Some(GenerationPin(ONE, id))
  {
    hide LastIndexOf, Versioned, Newest, PinsOf, OpName, OpVersion, MatchesRange;
    var offers := OffersFor(id, ops);
    PinIsNewestOffer(offers, op, ONE);
    OnlyOneMatchesOne(ONE);
    BareIsOne(op);
    var j :| 0 <= j < |ops| && ops[j] == op;
    assert InRange(offers[j], op, ONE);
    var i := FindNewest(offers, op, ONE);
    assert InRange(offers[i], op, ONE);
    OnlyOneMatchesOne(OpVersion(offers[i].op));
  }

  /** For instance an entry granted "@1" alone: for a caller that declares that contract at version 1, "@1@2"
      resolves to "@1@1", which nobody was granted. */
  lemma UngrantedTarget(s: Scheme, key: RootKey, id: Id, profile: Profile)
    requires KeyPair(s, key)
    ensures var op: Text := [AT] + ONE;
            var x := Registering(Entry(id, 1, Grant([], [op])), Manifest([Contribution(ContractKind, [], ONE)], [Dependency(CONTRACT_PREFIX + op, ONE)], profile));
            && Routable([x.entry], map[id := x.manifest])
            && ResolveTarget(RegisterEach(s, key, [x]), id, Versioned(op, [50])) == Some(Target(id, Versioned(op, ONE)))
            && !Grants([x], id, Versioned(op, ONE))
  {
    hide KeyPair, RegisterEach, ResolveTarget, Grants;
    var op: Text := [AT] + ONE;
    var dep := Dependency(CONTRACT_PREFIX + op, ONE);
    var x := Registering(Entry(id, 1, Grant([], [op])), Manifest([Contribution(ContractKind, [], ONE)], [dep], profile));
    assert op[0] == AT && op[1] == ONE[0];
    assert |Versioned(op, [50])| == |Versioned(op, ONE)| == 4;
    BareGrantMisresolves(s, key, x, op, [50]);
    assert OpsOfKind(x.manifest.contributions, ContractKind) == [Versioned([], ONE)] + [];
    assert Versioned([], ONE) == op;
    ContractsAreRoutable(x.manifest, op);
    assert dep.ref[|CONTRACT_PREFIX|..] == op;
    assert op in [x.entry][0].grant.contracts;
  }

  lemma ContractsAreRoutable(m: Manifest, op: Text)
    requires op in OpsOfKind(m.contributions, ContractKind)
    ensures op in RoutableOps(m)
  {
  }

  // ---- compositions boot accepts ----

  lemma {:induction false} ContributionOf(cs: seq<Contribution>, kind: ContributionKind, op: Text)
    requires op in OpsOfKind(cs, kind)
    ensures exists c :: c in cs && op == Versioned(c.id, c.version)
  {
    if op == Versioned(cs[0].id, cs[0].version) {
      assert cs[0] in cs;
    } else {
      ContributionOf(cs[1..], kind, op);
      var c :| c in cs[1..] && op == Versioned(c.id, c.version);
      assert c in cs;
    }
  }

  lemma RoutableOpIs(m: Manifest, op: Text)
    requires op in RoutableOps(m)
    ensures exists c :: c in m.contributions && op == Versioned(c.id, c.version)
  {
    if op in OpsOfKind(m.contributions, ContractKind) {
      ContributionOf(m.contributions, ContractKind, op);
    } else if op in OpsOfKind(m.contributions, EngineKind) {
      ContributionOf(m.contributions, EngineKind, op);
    } else {
      ContributionOf(m.contributions, ProviderKind, op);
    }
  }

  /** An op is bare exactly when its contribution has no id and its version holds no `@`. */
  lemma BareIffUnnamed(id: Text, version: Text)
    ensures LastIndexOf(Versioned(id, version), AT) <= 0 <==> id == [] && AT !in version
  {
    var op := Versioned(id, version);
    assert op[|id|] == AT;
    if j: nat :| j < |version| && version[j] == AT {
      assert op[|id| + 1 + j] == AT;
    }
    if id == [] && AT !in version {
      forall j | 0 < j < |op| ensures op[j] != AT {
        assert op[j] == version[j - 1];
      }
    }
  }

  /** The only bare ops boot admits are those of contributions without an id. */
  lemma BootAdmitsBareIffUnnamed(comp: seq<Entry>, manifests: map<Id, Manifest>, e: Entry, op: Text)
    requires Routable(comp, manifests) && e in comp && op in e.grant.contracts
    ensures e.id in manifests && exists c :: c in manifests[e.id].contributions && op == Versioned(c.id, c.version)
    ensures LastIndexOf(op, AT) <= 0
            <==> exists c :: c in manifests[e.id].contributions && op == Versioned(c.id, c.version) && c.id == [] && AT !in c.version
  {
    hide RoutableOps, Satisfied, Versioned, LastIndexOf;
    var i :| 0 <= i < |comp| && comp[i] == e;
    assert EntryRoutable(comp, manifests, comp[i]);
    RoutableOpIs(manifests[e.id], op);
    forall c | c in manifests[e.id].contributions && op == Versioned(c.id, c.version)
      ensures LastIndexOf(op, AT) <= 0 <==> c.id == [] && AT !in c.version
    {
      BareIffUnnamed(c.id, c.version);
    }
  }

  function TotalLength(ops: seq<Text>): nat {
    if ops == [] then 0 else |ops[0]| + TotalLength(ops[1..])
  }

  lemma {:induction false} FitsTotal(ops: seq<Text>, op: Text)
    requires op in ops
    ensures |op| <= TotalLength(ops)
  {
    if op != ops[0] {
      FitsTotal(ops[1..], op);
    }
  }

  /** A version no granted op carries. */
  lemma FreeVersion(ops: seq<Text>, op: Text) returns (version: Text)
    ensures AT !in version && Versioned(op, version) !in ops
  {
    version := seq(TotalLength(ops), _ => ONE[0]);
    if Versioned(op, version) in ops {
      FitsTotal(ops, Versioned(op, version));
    }
  }

  /** One entry's dependencies replaced by a single one on an op it is granted. */
  lemma StillRoutable(comp: seq<Entry>, manifests: map<Id, Manifest>, e: Entry, op: Text)
    requires Routable(comp, manifests) && e in comp && op in e.grant.contracts && e.id in manifests
    ensures Routable(comp, manifests[e.id := manifests[e.id].(dependencies := [Dependency(CONTRACT_PREFIX + op, ONE)])])
  {
    var dep := Dependency(CONTRACT_PREFIX + op, ONE);
    var m := manifests[e.id].(dependencies := [dep]);
    var manifests' := manifests[e.id := m];
    assert dep.ref[|CONTRACT_PREFIX|..] == op;
    var k :| 0 <= k < |comp| && comp[k] == e;
    assert Satisfied(comp, dep);
    hide Satisfied, OpsOfKind;
    forall i | 0 <= i < |comp| ensures EntryRoutable(comp, manifests', comp[i]) {
      assert EntryRoutable(comp, manifests, comp[i]);
    }
  }

  /** For a composition boot can accept: with whatever manifests it is accepted, and whatever is registered
      in which order, everything resolved was granted to its target, exactly when each bare grant comes with
      version 1 of its name. */
  lemma BootedResolvesGrantedIff(s: Scheme, key: RootKey, comp: seq<Entry>)
    requires KeyPair(s, key) && exists manifests :: Routable(comp, manifests)
    ensures (forall manifests, run | Routable(comp, manifests) && Uses(comp, manifests, run) :: ResolvesGranted(s, key, run))
            <==> BareGrantsCovered(comp)
  {
    hide KeyPair, RegisterEach, ResolveTarget, Routable, Grants, Covered, LastIndexOf;
    if BareGrantsCovered(comp) {
      forall manifests, run | Routable(comp, manifests) && Uses(comp, manifests, run) ensures ResolvesGranted(s, key, run) {
        forall principal, op
          ensures ResolveTarget(RegisterEach(s, key, run), principal, op).Some? ==>
                    GrantedTarget(run, ResolveTarget(RegisterEach(s, key, run), principal, op).value)
        {
          CoveredResolves(s, key, comp, run, principal, op);
        }
      }
    } else {
      var manifests: map<Id, Manifest> :| Routable(comp, manifests);
      var e, op :| e in comp && op in e.grant.contracts && !Covered(e, op);
      BootAdmitsBareIffUnnamed(comp, manifests, e, op);
      StillRoutable(comp, manifests, e, op);
      var manifests' := manifests[e.id := manifests[e.id].(dependencies := [Dependency(CONTRACT_PREFIX + op, ONE)])];
      var x := Registering(e, manifests'[e.id]);
      var version := FreeVersion(e.grant.contracts, op);
      BareGrantMisresolves(s, key, x, op, version);
      assert Uses(comp, manifests', [x]);
      assert !GrantedTarget([x], Target(e.id, Versioned(op, ONE)));
    }
  }

  /** In particular when contributions have ids. */
  lemma NamedContributionsCover(comp: seq<Entry>, manifests: map<Id, Manifest>)
    requires Routable(comp, manifests) && forall id, c | id in manifests && c in manifests[id].contributions :: c.id != []
    ensures BareGrantsCovered(comp)
  {
    hide Routable, LastIndexOf, Versioned;
    forall e, op | e in comp && op in e.grant.contracts ensures Covered(e, op) {
      BootAdmitsBareIffUnnamed(comp, manifests, e, op);
    }
  }
}

/** Capability tokens: minting, the token table, the structural check and revocation. */
module Tokens {

  type PluginId = string
  type Token = string

  datatype Record = Record(pluginId: PluginId, cap: string, gen: int, revoked: bool)

  datatype Table = Table(tokens: map<Token, Record>, generation: int)

  /** One key of a compartment's token object. */
  datatype Pair = Pair(key: string, token: Token)

  const EMPTY_TABLE := Table(map[], 1)

  const COMPARTMENT_ADMIN := "host.compartment.admin"
  const JOURNAL := "host.journal.append"
  const TOKENS_REVOKE := "host.tokens.revoke"
  const STATE_ARBITRATION := "host.state.arbitration"
  const KERNEL_LENS := "host.kernel.lens"

  const HOST_OP_TO_CAP: map<string, string> := map[
    "host.compartment.spawn@1" := COMPARTMENT_ADMIN,
    "host.compartment.terminate@1" := COMPARTMENT_ADMIN,
    "host.compartment.stats@1" := COMPARTMENT_ADMIN,
    "host.journal.append@1" := JOURNAL,
    "host.tokens.revoke@1" := TOKENS_REVOKE,
    "host.state.acquire@1" := STATE_ARBITRATION,
    "host.state.release@1" := STATE_ARBITRATION,
    "host.graph.snapshot@1" := KERNEL_LENS,
    "host.audit.chain@1" := KERNEL_LENS]

  function HostOps(): seq<string> {
    ["host.compartment.spawn@1", "host.compartment.terminate@1", "host.compartment.stats@1", "host.journal.append@1",
     "host.tokens.revoke@1", "host.state.acquire@1", "host.state.release@1", "host.graph.snapshot@1", "host.audit.chain@1"]
  }

  const PORT := "port:"

  /** The capability a token key stands for: an alias of a host op stands for the one guarding it. */
  function EffectiveCap(key: string): string {
    if PORT <= key && key[|PORT|..] in HOST_OP_TO_CAP then HOST_OP_TO_CAP[key[|PORT|..]] else key
  }

  predicate IsHostOp(op: string) { op in HostOps() }

  function HostCapFor(op: string): string {
    if op in HOST_OP_TO_CAP then HOST_OP_TO_CAP[op] else ""
  }

  predicate Covers(cap: string, op: string) {
    cap == if IsHostOp(op) then HostCapFor(op) else PORT + op
  }

  // ---- the table ----

  function Put(t: Table, pluginId: PluginId, p: Pair): Table {
    if p.token in t.tokens then t
    else t.(tokens := t.tokens[p.token := Record(pluginId, EffectiveCap(p.key), t.generation, false)])
  }

  function PutAll(t: Table, pluginId: PluginId, pairs: seq<Pair>): Table {
    if pairs == [] then t else Put(PutAll(t, pluginId, pairs[..|pairs| - 1]), pluginId, pairs[|pairs| - 1])
  }

  function RevokedOf(t: Table, pluginId: PluginId): Table {
    t.(tokens := map x | x in t.tokens :: t.tokens[x].(revoked := t.tokens[x].revoked || t.tokens[x].pluginId == pluginId))
  }

  function RevokedAll(t: Table): Table {
    Table(map x | x in t.tokens :: t.tokens[x].(revoked := true), t.generation + 1)
  }

  datatype Verdict = Accepted | UnknownToken | ForeignToken | RevokedToken | OldGeneration | OutOfScope

  /** In the order of the checks: an unknown or foreign token is never reported as revoked. */
  function Check(t: Table, pluginId: PluginId, token: Token, op: string): Verdict {
    if token !in t.tokens then UnknownToken
    else
      var rec := t.tokens[token];
      if rec.pluginId != pluginId then ForeignToken
      else if rec.revoked then RevokedToken
      else if rec.gen < t.generation then OldGeneration
      else if Covers(rec.cap, op) then Accepted
      else OutOfScope
  }

  // ---- histories ----

  datatype Event =
    | Install(pluginId: PluginId, pair: Pair)
    | RevokeAll
    | RevokeOf(plugin: PluginId)

  function Step(t: Table, e: Event): Table {
    match e
    case Install(pluginId, pair) => Put(t, pluginId, pair)
    case RevokeAll => RevokedAll(t)
    case RevokeOf(plugin) => RevokedOf(t, plugin)
  }

  function After(h: seq<Event>): Table {
    if h == [] then EMPTY_TABLE else Step(After(h[..|h| - 1]), h[|h| - 1])
  }

  predicate Installs(e: Event, token: Token) {
    e.Install? && e.pair.token == token
  }

  predicate FirstInstall(h: seq<Event>, i: nat, token: Token) {
    i < |h| && Installs(h[i], token) && forall j | 0 <= j < i :: !Installs(h[j], token)
  }

  predicate Revokes(e: Event, pluginId: PluginId) {
    e == RevokeAll || e == RevokeOf(pluginId)
  }

  predicate RevokedAfter(h: seq<Event>, i: nat, pluginId: PluginId) {
    exists j | i < j < |h| :: Revokes(h[j], pluginId)
  }

  ghost predicate RecordMatches(t: Table, h: seq<Event>, i: nat, token: Token)
    requires FirstInstall(h, i, token) && token in t.tokens
  {
    var rec := t.tokens[token];
    && rec.pluginId == h[i].pluginId && rec.cap == EffectiveCap(h[i].pair.key)
    && (rec.revoked <==> RevokedAfter(h, i, rec.pluginId))
    && (rec.gen < t.generation ==> rec.revoked)
  }

  lemma {:induction false} TableIsHistory(h: seq<Event>, token: Token)
    ensures token in After(h).tokens <==> exists i: nat :: FirstInstall(h, i, token)
    ensures forall i: nat | FirstInstall(h, i, token) && token in After(h).tokens :: RecordMatches(After(h), h, i, token)
  {
    hide EffectiveCap;
    if h != [] {
      var init, e := h[..|h| - 1], h[|h| - 1];
      assert h == init + [e];
      TableIsHistory(init, token);
      if token in After(init).tokens {
        var i: nat :| FirstInstall(init, i, token);
        KnownStays(init, e, token, i);
      } else {
        NewToken(init, e, token);
      }
    }
  }

  lemma KnownStays(h: seq<Event>, e: Event, token: Token, i: nat)
    requires FirstInstall(h, i, token) && token in After(h).tokens && RecordMatches(After(h), h, i, token)
    ensures FirstInstall(h + [e], i, token) && token in After(h + [e]).tokens && RecordMatches(After(h + [e]), h + [e], i, token)
    ensures forall k: nat | FirstInstall(h + [e], k, token) :: k == i
  {
  }

  lemma NewToken(h: seq<Event>, e: Event, token: Token)
    requires token !in After(h).tokens && forall i: nat :: !FirstInstall(h, i, token)
    ensures token in After(h + [e]).tokens <==> Installs(e, token)
    ensures Installs(e, token) ==> FirstInstall(h + [e], |h|, token)
    ensures forall i: nat | FirstInstall(h + [e], i, token) :: i == |h| && Installs(e, token)
    ensures forall i: nat | FirstInstall(h + [e], i, token) && token in After(h + [e]).tokens :: RecordMatches(After(h + [e]), h + [e], i, token)
  {
    hide EffectiveCap;
    var h' := h + [e];
    assert h'[..|h|] == h && h'[|h|] == e;
    assert forall j | 0 <= j < |h| :: h'[j] == h[j];
    NeverInstalled(h, token);
    assert !RevokedAfter(h', |h|, if e.Install? then e.pluginId else "");
  }

  lemma NeverInstalled(h: seq<Event>, token: Token)
    requires forall i: nat :: !FirstInstall(h, i, token)
    ensures forall j | 0 <= j < |h| :: !Installs(h[j], token)
  {
    for n := 0 to |h|
      invariant forall j | 0 <= j < n :: !Installs(h[j], token)
    {
      assert !FirstInstall(h, n, token);
    }
  }

  /** The verdict on a token, read off the history alone. */
  lemma VerdictIsHistory(h: seq<Event>, pluginId: PluginId, token: Token, op: string)
    ensures Check(After(h), pluginId, token, op) == Accepted <==>
              exists i: nat :: FirstInstall(h, i, token) && h[i].pluginId == pluginId
                               && Covers(EffectiveCap(h[i].pair.key), op) && !RevokedAfter(h, i, pluginId)
    ensures Check(After(h), pluginId, token, op) == UnknownToken <==> forall i: nat :: !FirstInstall(h, i, token)
    ensures Check(After(h), pluginId, token, op) == ForeignToken <==>
              exists i: nat :: FirstInstall(h, i, token) && h[i].pluginId != pluginId
    ensures Check(After(h), pluginId, token, op) == RevokedToken <==>
              exists i: nat :: FirstInstall(h, i, token) && h[i].pluginId == pluginId && RevokedAfter(h, i, pluginId)
    ensures Check(After(h), pluginId, token, op) != OldGeneration
  {
    hide EffectiveCap, Covers;
    TableIsHistory(h, token);
    hide After;
    if token in After(h).tokens {
      var i: nat :| FirstInstall(h, i, token);
      assert forall k: nat | FirstInstall(h, k, token) :: k == i;
      assert RecordMatches(After(h), h, i, token);
    }
  }

  /** A scoped revoke changes no other plugin's verdict, down to the error it gets. */
  lemma ScopedRevokeIsScoped(t: Table, revoked: PluginId, pluginId: PluginId, token: Token, op: string)
    requires pluginId != revoked
    ensures Check(RevokedOf(t, revoked), pluginId, token, op) == Check(t, pluginId, token, op)
  {
    hide Covers;
  }

  // ---- installing token objects ----

  function Installing(pluginId: PluginId, pairs: seq<Pair>): seq<Event> {
    seq(|pairs|, i requires 0 <= i < |pairs| => Install(pluginId, pairs[i]))
  }

  lemma {:induction false} PutAllIsHistory(h: seq<Event>, pluginId: PluginId, pairs: seq<Pair>)
    ensures After(h + Installing(pluginId, pairs)) == PutAll(After(h), pluginId, pairs)
  {
    if pairs == [] {
      assert h + Installing(pluginId, pairs) == h;
    } else {
      var n := |pairs| - 1;
      PutAllIsHistory(h, pluginId, pairs[..n]);
      var before := h + Installing(pluginId, pairs[..n]);
      assert h + Installing(pluginId, pairs) == before + [Install(pluginId, pairs[n])];
      assert (before + [Install(pluginId, pairs[n])])[..|before|] == before;
    }
  }

  /** Installing again what was ever installed, as a lazy spawn does with the tokens of its dormant entry,
      changes nothing, whatever was revoked in between: no token is revived. */
  lemma {:induction false} ReinstallChangesNothing(before: seq<Event>, pluginId: PluginId, pairs: seq<Pair>, between: seq<Event>)
    ensures var h := before + Installing(pluginId, pairs) + between;
            PutAll(After(h), pluginId, pairs) == After(h)
  {
    var h := before + Installing(pluginId, pairs) + between;
    forall i | 0 <= i < |pairs| ensures pairs[i].token in After(h).tokens {
      assert Installs(h[|before| + i], pairs[i].token);
      TableIsHistory(h, pairs[i].token);
      if forall k: nat :: !FirstInstall(h, k, pairs[i].token) {
        NeverInstalled(h, pairs[i].token);
        assert false;
      }
    }
    KnownChangesNothing(After(h), pluginId, pairs);
  }

  lemma {:induction false} KnownChangesNothing(t: Table, pluginId: PluginId, pairs: seq<Pair>)
    requires forall i | 0 <= i < |pairs| :: pairs[i].token in t.tokens
    ensures PutAll(t, pluginId, pairs) == t
  {
    if pairs != [] {
      KnownChangesNothing(t, pluginId, pairs[..|pairs| - 1]);
    }
  }

  /** Keys that share a token stand for one capability. */
  predicate Coherent(pairs: seq<Pair>) {
    forall i, j | 0 <= i < |pairs| && 0 <= j < |pairs| && pairs[i].token == pairs[j].token ::
      EffectiveCap(pairs[i].key) == EffectiveCap(pairs[j].key)
  }

  predicate HasToken(pairs: seq<Pair>, token: Token) {
    exists i | 0 <= i < |pairs| :: pairs[i].token == token
  }

  lemma {:induction false} PutAllAt(t: Table, pluginId: PluginId, pairs: seq<Pair>, x: Token)
    requires Coherent(pairs)
    ensures var t' := PutAll(t, pluginId, pairs);
            && t'.generation == t.generation
            && (x in t'.tokens <==> x in t.tokens || HasToken(pairs, x))
            && (x in t.tokens ==> x in t'.tokens && t'.tokens[x] == t.tokens[x])
            && (forall i | 0 <= i < |pairs| && pairs[i].token == x && x !in t.tokens ::
                  x in t'.tokens && t'.tokens[x] == Record(pluginId, EffectiveCap(pairs[i].key), t.generation, false))
  {
    hide EffectiveCap;
    if pairs != [] {
      var n := |pairs| - 1;
      PutAllAt(t, pluginId, pairs[..n], x);
      if HasToken(pairs[..n], x) {
        var i :| 0 <= i < n && pairs[..n][i].token == x;
        assert pairs[i].token == x;
      }
    }
  }

  /** The order of the keys, and which of a token's aliases comes first, never matters. */
  lemma KeyOrderIsIrrelevant(t: Table, pluginId: PluginId, a: seq<Pair>, b: seq<Pair>)
    requires Coherent(a) && forall p :: p in a <==> p in b
    ensures PutAll(t, pluginId, a) == PutAll(t, pluginId, b)
  {
    hide EffectiveCap, PutAll;
    forall i, j | 0 <= i < |b| && 0 <= j < |b| && b[i].token == b[j].token
      ensures EffectiveCap(b[i].key) == EffectiveCap(b[j].key)
    {
      assert b[i] in a && b[j] in a;
      var k :| 0 <= k < |a| && a[k] == b[i];
      var l :| 0 <= l < |a| && a[l] == b[j];
    }
    SameTokens(a, b);
    SameTokens(b, a);
    var ta, tb := PutAll(t, pluginId, a).tokens, PutAll(t, pluginId, b).tokens;
    forall x ensures (x in ta <==> x in tb) && (x in ta ==> ta[x] == tb[x]) {
      PutAllAt(t, pluginId, a, x);
      PutAllAt(t, pluginId, b, x);
      if x in ta && x !in t.tokens {
        var i :| 0 <= i < |a| && a[i].token == x;
        assert a[i] in b;
        var j :| 0 <= j < |b| && b[j] == a[i];
      }
    }
    PutAllAt(t, pluginId, a, "");
    PutAllAt(t, pluginId, b, "");
    assert ta == tb;
  }

  lemma SameTokens(a: seq<Pair>, b: seq<Pair>)
    requires forall p | p in a :: p in b
    ensures forall x | HasToken(a, x) :: HasToken(b, x)
  {
    forall x | HasToken(a, x) ensures HasToken(b, x) {
      var i :| 0 <= i < |a| && a[i].token == x;
      assert a[i] in b;
      var j :| 0 <= j < |b| && b[j] == a[i];
    }
  }

  // ---- minting ----

  /** Setting a property: a known key keeps its place. */
  function SetKey(pairs: seq<Pair>, key: string, token: Token): seq<Pair> {
    if pairs == [] then [Pair(key, token)]
    else if pairs[0].key == key then [Pair(key, token)] + pairs[1..]
    else [pairs[0]] + SetKey(pairs[1..], key, token)
  }

  /** Aliases for the host ops a capability guards. */
  function SetAliases(pairs: seq<Pair>, ops: seq<string>, cap: string, token: Token): seq<Pair>
    decreases |ops|
  {
    if ops == [] then pairs
    else SetAliases(if HostCapFor(ops[0]) == cap then SetKey(pairs, PORT + ops[0], token) else pairs, ops[1..], cap, token)
  }

  /** One new token per granted capability, and its aliases. */
  function MintTokensFor(caps: seq<string>, newTokens: seq<Token>): seq<Pair>
    requires |newTokens| == |caps|
  {
    if caps == [] then []
    else
      var n := |caps| - 1;
      var minted := SetKey(MintTokensFor(caps[..n], newTokens[..n]), caps[n], newTokens[n]);
      SetAliases(minted, HostOps(), caps[n], newTokens[n])
  }

  /** Every pair comes from one of the grants: its token, and its effective capability. */
  ghost predicate FromGrants(pairs: seq<Pair>, caps: seq<string>, newTokens: seq<Token>)
    requires |newTokens| == |caps|
  {
    forall i | 0 <= i < |pairs| :: FromGrant(pairs[i], caps, newTokens)
  }

  predicate FromGrant(p: Pair, caps: seq<string>, newTokens: seq<Token>)
    requires |newTokens| == |caps|
  {
    exists k | 0 <= k < |caps| :: p.token == newTokens[k] && EffectiveCap(p.key) == EffectiveCap(caps[k])
  }

  lemma {:induction false} SetKeyFromGrants(pairs: seq<Pair>, key: string, token: Token, caps: seq<string>, newTokens: seq<Token>)
    requires |newTokens| == |caps| && FromGrants(pairs, caps, newTokens) && FromGrant(Pair(key, token), caps, newTokens)
    ensures FromGrants(SetKey(pairs, key, token), caps, newTokens)
  {
    hide FromGrant;
    if pairs != [] && pairs[0].key != key {
      SetKeyFromGrants(pairs[1..], key, token, caps, newTokens);
    }
  }

  /** A host capability is its own effective capability, and that of the aliases of the ops it guards. */
  lemma AliasCap(op: string, cap: string)
    requires op in HostOps() && HostCapFor(op) == cap
    ensures EffectiveCap(PORT + op) == EffectiveCap(cap) == cap
  {
    assert (PORT + op)[|PORT|..] == op;
    assert cap[0] == 'h';
  }

  lemma {:induction false} SetAliasesFromGrants(pairs: seq<Pair>, ops: seq<string>, k: nat, caps: seq<string>, newTokens: seq<Token>)
    requires |newTokens| == |caps| && k < |caps| && FromGrants(pairs, caps, newTokens) && forall op | op in ops :: op in HostOps()
    ensures FromGrants(SetAliases(pairs, ops, caps[k], newTokens[k]), caps, newTokens)
    decreases |ops|
  {
    hide HostCapFor, EffectiveCap;
    if ops != [] {
      if HostCapFor(ops[0]) == caps[k] {
        AliasCap(ops[0], caps[k]);
        assert FromGrant(Pair(PORT + ops[0], newTokens[k]), caps, newTokens);
        SetKeyFromGrants(pairs, PORT + ops[0], newTokens[k], caps, newTokens);
        SetAliasesFromGrants(SetKey(pairs, PORT + ops[0], newTokens[k]), ops[1..], k, caps, newTokens);
      } else {
        SetAliasesFromGrants(pairs, ops[1..], k, caps, newTokens);
      }
    }
  }

  lemma {:induction false} MintedFromGrants(caps: seq<string>, newTokens: seq<Token>)
    requires |newTokens| == |caps|
    ensures FromGrants(MintTokensFor(caps, newTokens), caps, newTokens)
  {
    hide EffectiveCap, HostOps, HostCapFor, SetKey, SetAliases;
    if caps != [] {
      var n := |caps| - 1;
      MintedFromGrants(caps[..n], newTokens[..n]);
      var minted := MintTokensFor(caps[..n], newTokens[..n]);
      forall i | 0 <= i < |minted| ensures FromGrant(minted[i], caps, newTokens) {
        var k :| 0 <= k < n && minted[i].token == newTokens[..n][k] && EffectiveCap(minted[i].key) == EffectiveCap(caps[..n][k]);
        assert minted[i].token == newTokens[k] && EffectiveCap(minted[i].key) == EffectiveCap(caps[k]);
      }
      assert FromGrant(Pair(caps[n], newTokens[n]), caps, newTokens);
      SetKeyFromGrants(minted, caps[n], newTokens[n], caps, newTokens);
      SetAliasesFromGrants(SetKey(minted, caps[n], newTokens[n]), HostOps(), n, caps, newTokens);
    }
  }

  predicate DistinctTokens(newTokens: seq<Token>) {
    forall i, j | 0 <= i < j < |newTokens| :: newTokens[i] != newTokens[j]
  }

  /** What is minted for one entry: each token accepts exactly the ops that the capability behind its key
      covers, whichever of its keys the compartment uses, and only for that entry. */
  lemma MintedTokenCovers(t: Table, pluginId: PluginId, caps: seq<string>, newTokens: seq<Token>, i: nat, caller: PluginId, op: string)
    requires |newTokens| == |caps| && DistinctTokens(newTokens) && (forall x | x in newTokens :: x !in t.tokens)
    requires i < |MintTokensFor(caps, newTokens)|
    ensures Coherent(MintTokensFor(caps, newTokens))
    ensures var pair := MintTokensFor(caps, newTokens)[i];
            Check(PutAll(t, pluginId, MintTokensFor(caps, newTokens)), caller, pair.token, op) == Accepted
            <==> caller == pluginId && Covers(EffectiveCap(pair.key), op)
  {
    hide EffectiveCap, Covers, MintTokensFor;
    var pairs := MintTokensFor(caps, newTokens);
    MintedFromGrants(caps, newTokens);
    assert FromGrant(pairs[i], caps, newTokens);
    forall k, l | 0 <= k < |pairs| && 0 <= l < |pairs| && pairs[k].token == pairs[l].token
      ensures EffectiveCap(pairs[k].key) == EffectiveCap(pairs[l].key)
    {
      assert FromGrant(pairs[k], caps, newTokens) && FromGrant(pairs[l], caps, newTokens);
    }
    PutAllAt(t, pluginId, pairs, pairs[i].token);
  }

  // ---- the table as the router's fields ----

  class TokenTable {
    var tokens: map<Token, Record>
    var generation: int

    ghost function View(): Table
      reads this
    {
      Table(tokens, generation)
    }

    constructor ()
      ensures View() == EMPTY_TABLE
    {
      tokens, generation := map[], 1;
    }

    method InstallTokens(pluginId: PluginId, pairs: seq<Pair>)
      modifies this
      ensures View() == PutAll(old(View()), pluginId, pairs)
    {
      assert pairs[..|pairs|] == pairs;
      for i := 0 to |pairs|
        invariant View() == PutAll(old(View()), pluginId, pairs[..i])
      {
        assert pairs[..i + 1][..i] == pairs[..i];
        if pairs[i].token !in tokens {
          var effectiveCap := EffectiveCap(pairs[i].key);
          tokens := tokens[pairs[i].token := Record(pluginId, effectiveCap, generation, false)];
        }
      }
    }

    method CheckToken(pluginId: PluginId, token: Token, op: string) returns (v: Verdict)
      ensures v == Check(View(), pluginId, token, op)
    {
      if token !in tokens {
        return UnknownToken;
      }
      var rec := tokens[token];
      if rec.pluginId != pluginId {
        return ForeignToken;
      }
      if rec.revoked {
        return RevokedToken;
      }
      if rec.gen < generation {
        return OldGeneration;
      }
      var needed := if IsHostOp(op) then HostCapFor(op) else PORT + op;
      v := if rec.cap != needed then OutOfScope else Accepted;
    }

    /** An empty plugin id revokes everything. `affected` counts the records that were still good. */
    method Revoke(pluginId: PluginId) returns (affected: nat)
      modifies this
      ensures View() == if pluginId == "" then RevokedAll(old(View())) else RevokedOf(old(View()), pluginId)
      ensures affected == |StillGood(old(tokens), old(tokens).Keys, pluginId)|
    {
      hide Marked, StillGood;
      if pluginId == "" {
        generation := generation + 1;
      }
      ghost var before, bumped := tokens, generation;
      var todo := tokens.Keys;
      affected := 0;
      MarkingStarts(before, pluginId);
      while todo != {}
        invariant generation == bumped && todo <= before.Keys
        invariant Marked(before, tokens, before.Keys - todo, pluginId)
        invariant affected == |StillGood(before, before.Keys - todo, pluginId)|
      {
        var x :| x in todo;
        MarkStep(before, tokens, before.Keys - todo, x, pluginId);
        assert before.Keys - (todo - {x}) == before.Keys - todo + {x};
        if Hit(tokens[x], pluginId) && !tokens[x].revoked {
          tokens := tokens[x := tokens[x].(revoked := true)];
          affected := affected + 1;
        }
        todo := todo - {x};
      }
      assert before.Keys - todo == before.Keys;
      MarkingEnds(before, tokens, pluginId);
    }
  }

  predicate Hit(rec: Record, pluginId: PluginId) {
    pluginId == "" || rec.pluginId == pluginId
  }

  function StillGood(tokens: map<Token, Record>, among: set<Token>, pluginId: PluginId): set<Token> {
    set x | x in among && x in tokens && !tokens[x].revoked && Hit(tokens[x], pluginId)
  }

  /** The records in `done` are revoked where they are hit; the others are as before. */
  ghost predicate Marked(before: map<Token, Record>, now: map<Token, Record>, done: set<Token>, pluginId: PluginId) {
    && now.Keys == before.Keys
    && forall x | x in before :: x in now && now[x] ==
         if x in done then before[x].(revoked := before[x].revoked || Hit(before[x], pluginId)) else before[x]
  }

  lemma MarkingStarts(before: map<Token, Record>, pluginId: PluginId)
    ensures before.Keys - before.Keys == {}
    ensures Marked(before, before, {}, pluginId) && StillGood(before, {}, pluginId) == {}
  {
  }

  lemma MarkStep(before: map<Token, Record>, now: map<Token, Record>, done: set<Token>, x: Token, pluginId: PluginId)
    requires Marked(before, now, done, pluginId) && x in before && x !in done
    ensures x in now
    ensures var mark := Hit(now[x], pluginId) && !now[x].revoked;
            && Marked(before, if mark then now[x := now[x].(revoked := true)] else now, done + {x}, pluginId)
            && |StillGood(before, done + {x}, pluginId)| == |StillGood(before, done, pluginId)| + if mark then 1 else 0
  {
    var good := StillGood(before, done, pluginId);
    if Hit(now[x], pluginId) && !now[x].revoked {
      assert StillGood(before, done + {x}, pluginId) == good + {x};
    } else {
      assert StillGood(before, done + {x}, pluginId) == good;
    }
  }

  lemma MarkingEnds(before: map<Token, Record>, now: map<Token, Record>, pluginId: PluginId)
    requires Marked(before, now, before.Keys, pluginId)
    ensures now == if pluginId == "" then RevokedAll(Table(before, 0)).tokens else RevokedOf(Table(before, 0), pluginId).tokens
  {
  }
}

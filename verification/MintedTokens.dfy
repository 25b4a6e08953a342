/** What a token object grants: which keys it has, which token each key names, and which ops a key covers. */
module MintedTokens {
  import opened Wrappers
  import opened Tokens

  /** A key is minted for a capability: the capability itself, or the alias of a host op it guards. */
  ghost predicate KeyFor(key: string, cap: string) {
    key == cap || exists op :: op in HOST_OP_TO_CAP && HOST_OP_TO_CAP[op] == cap && key == "port:" + op
  }

  /** The token a key names. */
  function TokenAt(pairs: seq<Pair>, key: string): Option<Token> {
    if pairs == [] then None
    else if pairs[0].key == key then Some(pairs[0].token)
    else TokenAt(pairs[1..], key)
  }

  predicate DistinctKeys(pairs: seq<Pair>) {
    forall i, j | 0 <= i < j < |pairs| :: pairs[i].key != pairs[j].key
  }

  lemma HostOpsAreGuarded(op: string)
    ensures op in HostOps() <==> op in HOST_OP_TO_CAP
    ensures op in HostOps() ==> HostCapFor(op) == HOST_OP_TO_CAP[op]
  {
  }

  lemma {:induction false} SetKeyAt(pairs: seq<Pair>, key: string, token: Token, x: string)
    ensures TokenAt(SetKey(pairs, key, token), x) == if x == key then Some(token) else TokenAt(pairs, x)
  {
    if pairs != [] && pairs[0].key != key {
      SetKeyAt(pairs[1..], key, token, x);
    }
  }

  lemma {:induction false} SetKeyKeys(pairs: seq<Pair>, key: string, token: Token)
    requires DistinctKeys(pairs)
    ensures DistinctKeys(SetKey(pairs, key, token))
    ensures forall p | p in SetKey(pairs, key, token) :: p.key == key || exists q :: q in pairs && q.key == p.key
  {
    if pairs != [] && pairs[0].key != key {
      SetKeyKeys(pairs[1..], key, token);
      var more := SetKey(pairs[1..], key, token);
      forall j | 0 <= j < |more| ensures more[j].key != pairs[0].key {
        assert more[j] in more;
      }
    }
  }

  ghost predicate Aliased(ops: seq<string>, cap: string, x: string) {
    exists op :: op in ops && HostCapFor(op) == cap && x == "port:" + op
  }

  lemma {:induction false} SetAliasesAt(pairs: seq<Pair>, ops: seq<string>, cap: string, token: Token, x: string)
    requires DistinctKeys(pairs)
    ensures TokenAt(SetAliases(pairs, ops, cap, token), x) == if Aliased(ops, cap, x) then Some(token) else TokenAt(pairs, x)
    ensures DistinctKeys(SetAliases(pairs, ops, cap, token))
    decreases |ops|
  {
    hide HostCapFor, SetKey, TokenAt, DistinctKeys;
    if ops != [] {
      var keyed := if HostCapFor(ops[0]) == cap then SetKey(pairs, PORT + ops[0], token) else pairs;
      SetKeyAt(pairs, PORT + ops[0], token, x);
      SetKeyKeys(pairs, PORT + ops[0], token);
      SetAliasesAt(keyed, ops[1..], cap, token, x);
      assert forall op :: op in ops <==> op == ops[0] || op in ops[1..];
    }
  }

  /** The last capability a key is minted for, as an index; -1 when there is none. */
  ghost predicate LastFor(caps: seq<string>, key: string, k: int) {
    && -1 <= k < |caps|
    && (k >= 0 ==> KeyFor(key, caps[k]))
    && forall j | k < j < |caps| :: !KeyFor(key, caps[j])
  }

  lemma AliasedIff(cap: string, x: string)
    ensures x == cap || Aliased(HostOps(), cap, x) <==> KeyFor(x, cap)
  {
    hide HostOps, HostCapFor;
    forall op ensures op in HostOps() && HostCapFor(op) == cap <==> op in HOST_OP_TO_CAP && HOST_OP_TO_CAP[op] == cap {
      HostOpsAreGuarded(op);
    }
    if Aliased(HostOps(), cap, x) {
      var op :| op in HostOps() && HostCapFor(op) == cap && x == "port:" + op;
      assert op in HOST_OP_TO_CAP && HOST_OP_TO_CAP[op] == cap;
    }
  }

  /** The keys minted for an entry are its capabilities and the aliases of the host ops they guard, each once;
      a key names the token of the last capability it stands for. */
  lemma {:induction false} MintedKeys(caps: seq<string>, newTokens: seq<Token>, key: string, k: int)
    requires |newTokens| == |caps| && LastFor(caps, key, k)
    ensures DistinctKeys(MintTokensFor(caps, newTokens))
    ensures TokenAt(MintTokensFor(caps, newTokens), key) == if k < 0 then None else Some(newTokens[k])
  {
    hide KeyFor, SetKey, SetAliases, HostOps, HOST_OP_TO_CAP, TokenAt, Aliased;
    if caps == [] {
      NoKeys(key);
    } else {
      var n := |caps| - 1;
      var before := MintTokensFor(caps[..n], newTokens[..n]);
      var l := LastIndex(caps[..n], key);
      MintedKeys(caps[..n], newTokens[..n], key, l);
      SetKeyAt(before, caps[n], newTokens[n], key);
      SetKeyKeys(before, caps[n], newTokens[n]);
      SetAliasesAt(SetKey(before, caps[n], newTokens[n]), HostOps(), caps[n], newTokens[n], key);
      AliasedIff(caps[n], key);
      if k < n {
        assert !KeyFor(key, caps[n]);
        SameLast(caps, key, k, l);
      }
    }
  }

  lemma NoKeys(key: string)
    ensures TokenAt([], key) == None && DistinctKeys([])
  {
  }

  lemma SameLast(caps: seq<string>, key: string, k: int, l: int)
    requires caps != [] && LastFor(caps, key, k) && k < |caps| - 1 && LastFor(caps[..|caps| - 1], key, l)
    ensures k == l
  {
    hide KeyFor;
    var init := caps[..|caps| - 1];
    assert forall j | 0 <= j < |init| :: init[j] == caps[j];
  }

  lemma {:induction false} LastIndex(caps: seq<string>, key: string) returns (k: int)
    ensures LastFor(caps, key, k)
  {
    hide KeyFor;
    var n := |caps| - 1;
    if n < 0 || KeyFor(key, caps[n]) {
      k := n;
    } else {
      k := LastIndex(caps[..n], key);
      assert forall j | 0 <= j < n :: caps[..n][j] == caps[j];
    }
  }

  /** A key covers a host op when it is the capability guarding it or the alias of an op guarded alike, and
      any other op exactly when it is that op's own port key. */
  lemma CoverageIs(key: string, op: string)
    ensures Covers(EffectiveCap(key), op) <==>
              if op in HOST_OP_TO_CAP then KeyFor(key, HOST_OP_TO_CAP[op]) else key == "port:" + op
  {
    hide HostOps, HOST_OP_TO_CAP;
    HostOpsAreGuarded(op);
    EffectiveIs(key);
    if op in HOST_OP_TO_CAP {
      NoPortGuards(op);
    }
  }

  /** The alias of a host op stands for its guard, every other key for itself. */
  lemma EffectiveIs(key: string)
    ensures forall a | a in HOST_OP_TO_CAP && key == "port:" + a :: EffectiveCap(key) == HOST_OP_TO_CAP[a]
    ensures (forall a | a in HOST_OP_TO_CAP :: key != "port:" + a) ==> EffectiveCap(key) == key
    ensures forall a | a in HOST_OP_TO_CAP :: !("port:" <= HOST_OP_TO_CAP[a])
    ensures forall a, b :: "port:" + a == "port:" + b ==> a == b
  {
    forall a ensures ("port:" + a)[|PORT|..] == a {
    }
    if PORT <= key {
      assert key == PORT + key[|PORT|..];
    }
    forall a | a in HOST_OP_TO_CAP ensures !("port:" <= HOST_OP_TO_CAP[a]) {
      NoPortGuards(a);
    }
    hide HOST_OP_TO_CAP;
  }

  lemma NoPortGuards(op: string)
    requires op in HOST_OP_TO_CAP
    ensures !("port:" <= HOST_OP_TO_CAP[op])
  {
    assert HOST_OP_TO_CAP[op][0] == 'h';
  }

  function TotalRevokes(h: seq<Event>): nat {
    if h == [] then 0 else TotalRevokes(h[..|h| - 1]) + if h[|h| - 1] == RevokeAll then 1 else 0
  }

  /** The generation counts the total revocations, from one. */
  lemma {:induction false} GenerationCounts(h: seq<Event>)
    ensures After(h).generation == 1 + TotalRevokes(h)
  {
    hide EffectiveCap;
    if h != [] {
      GenerationCounts(h[..|h| - 1]);
    }
  }
}

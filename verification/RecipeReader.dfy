/** The structural checks of the recipe reader: they see the value only, not its key order, and they decide which
    compiled recipes can be read. */
module RecipeReader {
  import opened Wrappers
  import opened JsonText
  import opened JsonParser
  import opened JsonFormat
  import opened JsonObject
  import opened Canon = CanonicalJson
  import opened Signing
  import opened Manifest
  import opened Recipe

  predicate HasDigest(v: Json) {
    v.Str? && SHA256_PREFIX <= v.s
  }

  predicate EntryReads(e: Json) {
    && NonEmptyString(Field(e, ID_KEY)) && HasDigest(Field(e, MANIFEST_HASH_KEY)) && HasDigest(Field(e, CONTENT_HASH_KEY))
    && Field(Field(e, GRANT_KEY), CAPABILITIES_KEY).Arr? && Field(Field(e, GRANT_KEY), CONTRACTS_KEY).Arr?
    && Field(e, BOOT_PHASE_KEY).Num? && Field(e, BOOT_PHASE_KEY).n >= 0
    && Field(e, SOURCE_KEY).Str? && Field(e, MANIFEST_PATH_KEY).Str?
  }

  predicate CompositionReads(v: Json) {
    v.Arr? && v.items != [] && forall i | 0 <= i < |v.items| :: EntryReads(v.items[i])
  }

  predicate RootReads(v: Json) {
    Field(v, PUBLIC_KEY_KEY).Str? && Field(v, KEY_ID_KEY).Str?
  }

  /** What is demanded of a recipe besides its signature. */
  predicate RecipeReads(r: Fields) {
    && Get(r, RECIPE_VERSION_KEY) == Num(1) && Get(r, HASH_ALGO_KEY) == Str(SHA256) && NonEmptyString(Get(r, NAME_KEY))
    && CompositionReads(Get(r, COMPOSITION_KEY)) && RootReads(Get(r, ROOT_OF_TRUST_KEY))
  }

  /** `None` is any of the reader's errors. */
  function ParseRecipe(t: Text): Option<Fields> {
    var v := Parse(t);
    if v.None? || !v.value.Obj? || !RecipeReads(v.value.members) || !Get(v.value.members, SIGNATURE_KEY).Str? then None
    else Some(v.value.members)
  }

  // ---- the checks see the value only ----

  /** A property of two values that are the same is the same, or undefined in both. */
  lemma FieldSame(x: Json, y: Json, k: Text)
    requires Same(x, y)
    ensures Same(Field(x, k), Field(y, k))
  {
    if x.Obj? {
      GetIsLookup(x.members, k);
      GetIsLookup(y.members, k);
      assert Defined(x.members, k) <==> Defined(y.members, k);
    }
  }

  lemma LeafSame(x: Json, y: Json)
    requires Same(x, y)
    ensures x.Str? || y.Str? || x.Num? || y.Num? ==> x == y
    ensures x.Arr? <==> y.Arr?
    ensures x.Arr? ==> |x.items| == |y.items| && forall i | 0 <= i < |x.items| :: Same(x.items[i], y.items[i])
  {
  }

  lemma EntrySame(x: Json, y: Json)
    requires Same(x, y)
    ensures EntryReads(x) <==> EntryReads(y)
  {
    hide Same, Field;
    FieldSame(x, y, ID_KEY);
    FieldSame(x, y, MANIFEST_HASH_KEY);
    FieldSame(x, y, CONTENT_HASH_KEY);
    FieldSame(x, y, BOOT_PHASE_KEY);
    FieldSame(x, y, SOURCE_KEY);
    FieldSame(x, y, MANIFEST_PATH_KEY);
    LeafSame(Field(x, ID_KEY), Field(y, ID_KEY));
    LeafSame(Field(x, MANIFEST_HASH_KEY), Field(y, MANIFEST_HASH_KEY));
    LeafSame(Field(x, CONTENT_HASH_KEY), Field(y, CONTENT_HASH_KEY));
    LeafSame(Field(x, BOOT_PHASE_KEY), Field(y, BOOT_PHASE_KEY));
    LeafSame(Field(x, SOURCE_KEY), Field(y, SOURCE_KEY));
    LeafSame(Field(x, MANIFEST_PATH_KEY), Field(y, MANIFEST_PATH_KEY));
    FieldSame(x, y, GRANT_KEY);
    FieldSame(Field(x, GRANT_KEY), Field(y, GRANT_KEY), CAPABILITIES_KEY);
    FieldSame(Field(x, GRANT_KEY), Field(y, GRANT_KEY), CONTRACTS_KEY);
    LeafSame(Field(Field(x, GRANT_KEY), CAPABILITIES_KEY), Field(Field(y, GRANT_KEY), CAPABILITIES_KEY));
    LeafSame(Field(Field(x, GRANT_KEY), CONTRACTS_KEY), Field(Field(y, GRANT_KEY), CONTRACTS_KEY));
  }

  lemma CompositionSame(x: Json, y: Json)
    requires Same(x, y)
    ensures CompositionReads(x) <==> CompositionReads(y)
  {
    hide Same, EntryReads;
    LeafSame(x, y);
    if x.Arr? {
      forall i | 0 <= i < |x.items| ensures EntryReads(x.items[i]) <==> EntryReads(y.items[i]) {
        EntrySame(x.items[i], y.items[i]);
      }
    }
  }

  lemma RootSame(x: Json, y: Json)
    requires Same(x, y)
    ensures RootReads(x) <==> RootReads(y)
    ensures forall t :: Field(x, PUBLIC_KEY_KEY) == Str(t) <==> Field(y, PUBLIC_KEY_KEY) == Str(t)
  {
    hide Same, Field;
    FieldSame(x, y, PUBLIC_KEY_KEY);
    FieldSame(x, y, KEY_ID_KEY);
    LeafSame(Field(x, PUBLIC_KEY_KEY), Field(y, PUBLIC_KEY_KEY));
    LeafSame(Field(x, KEY_ID_KEY), Field(y, KEY_ID_KEY));
  }

  /** Two recipes that are the same up to key order and undefined members are both read or both refused. */
  lemma SameReads(a: Fields, b: Fields)
    requires Same(Obj(a), Obj(b))
    ensures RecipeReads(a) <==> RecipeReads(b)
  {
    hide Same, CompositionReads, RootReads, Get;
    forall k ensures Same(Get(a, k), Get(b, k)) {
      FieldSame(Obj(a), Obj(b), k);
    }
    LeafSame(Get(a, RECIPE_VERSION_KEY), Get(b, RECIPE_VERSION_KEY));
    LeafSame(Get(a, HASH_ALGO_KEY), Get(b, HASH_ALGO_KEY));
    LeafSame(Get(a, NAME_KEY), Get(b, NAME_KEY));
    CompositionSame(Get(a, COMPOSITION_KEY), Get(b, COMPOSITION_KEY));
    RootSame(Get(a, ROOT_OF_TRUST_KEY), Get(b, ROOT_OF_TRUST_KEY));
  }

  lemma {:induction false} GetDropped(ms: Fields, k: Text, l: Text)
    ensures Get(DropKey(ms, k), l) == if l == k then Undef else Get(ms, l)
  {
    if ms != [] {
      GetDropped(ms[1..], k, l);
    }
  }

  /** The signature plays no part in these checks. */
  lemma ReadsUnsigned(r: Fields)
    ensures RecipeReads(r) <==> RecipeReads(DropKey(r, SIGNATURE_KEY))
  {
    hide CompositionReads, RootReads, Get, DropKey;
    RecipeKeysDiffer();
    var keys := [RECIPE_VERSION_KEY, HASH_ALGO_KEY, NAME_KEY, COMPOSITION_KEY, ROOT_OF_TRUST_KEY, SIGNATURE_KEY];
    forall i | 0 <= i < 5 ensures Get(DropKey(r, SIGNATURE_KEY), keys[i]) == Get(r, keys[i]) {
      assert keys[i] != keys[5];
      GetDropped(r, SIGNATURE_KEY, keys[i]);
    }
    assert keys[0] == RECIPE_VERSION_KEY && keys[1] == HASH_ALGO_KEY && keys[2] == NAME_KEY && keys[3] == COMPOSITION_KEY && keys[4] == ROOT_OF_TRUST_KEY;
  }

  // ---- which compiled recipes are read ----

  predicate EntryReadable(e: RecipeEntry) {
    e.id != [] && SHA256_PREFIX <= e.manifestHash && SHA256_PREFIX <= e.contentHash && e.bootPhase >= 0
  }

  lemma EntryFields(e: RecipeEntry)
    ensures var v := RecipeEntryValue(e);
            && Field(v, ID_KEY) == Str(e.id) && Field(v, SOURCE_KEY) == Str(e.source) && Field(v, MANIFEST_PATH_KEY) == Str(e.manifestPath)
            && Field(v, MANIFEST_HASH_KEY) == Str(e.manifestHash) && Field(v, CONTENT_HASH_KEY) == Str(e.contentHash)
            && Field(v, GRANT_KEY) == GrantValue(e.capabilities, e.contracts) && Field(v, BOOT_PHASE_KEY) == Num(e.bootPhase)
  {
    hide GrantValue, Get, DistinctTexts;
    EntryKeysDiffer();
    var ms := RecipeEntryValue(e).members;
    var keys := [ID_KEY, VERSION_KEY, SOURCE_KEY, MANIFEST_PATH_KEY, MANIFEST_HASH_KEY, CONTENT_HASH_KEY, GRANT_KEY, BOOT_PHASE_KEY, CONFIG_KEY];
    KeyedAt(ms, keys, 0);
    KeyedAt(ms, keys, 2);
    KeyedAt(ms, keys, 3);
    KeyedAt(ms, keys, 4);
    KeyedAt(ms, keys, 5);
    KeyedAt(ms, keys, 6);
    KeyedAt(ms, keys, 7);
  }

  /** The value under the i-th key of an object whose keys are the first of a list without repetition. */
  lemma KeyedAt(ms: Fields, keys: seq<Text>, i: nat)
    requires DistinctTexts(keys) && i < |ms| <= |keys| && forall j | 0 <= j < |ms| :: ms[j].key == keys[j]
    ensures Get(ms, keys[i]) == ms[i].value
  {
    hide Get;
    assert forall j | 0 <= j < i :: keys[j] != keys[i];
    FirstWith(ms, i);
  }

  lemma {:induction false} FirstWith(ms: Fields, i: nat)
    requires i < |ms| && forall j | 0 <= j < i :: ms[j].key != ms[i].key
    ensures Get(ms, ms[i].key) == ms[i].value
  {
    if i > 0 {
      assert ms[0].key != ms[i].key;
      assert forall j | 0 <= j < i - 1 :: ms[1..][j] == ms[j + 1];
      FirstWith(ms[1..], i - 1);
    }
  }

  lemma GrantFields(capabilities: seq<Text>, contracts: seq<Text>)
    ensures Field(GrantValue(capabilities, contracts), CAPABILITIES_KEY).Arr? && Field(GrantValue(capabilities, contracts), CONTRACTS_KEY).Arr?
  {
    var ms := GrantValue(capabilities, contracts).members;
    assert |CAPABILITIES_KEY| != |CONTRACTS_KEY|;
    FirstWith(ms, 0);
    FirstWith(ms, 1);
  }

  lemma EntryReadsIff(e: RecipeEntry)
    ensures EntryReads(RecipeEntryValue(e)) <==> EntryReadable(e)
  {
    hide RecipeEntryValue, GrantValue, Field;
    EntryFields(e);
    GrantFields(e.capabilities, e.contracts);
  }

  lemma RecipeFields(name: Text, entries: seq<RecipeEntry>, key: RootKey)
    ensures var u := UnsignedRecipe(name, entries, key);
            && Get(u, RECIPE_VERSION_KEY) == Num(1) && Get(u, HASH_ALGO_KEY) == Str(SHA256) && Get(u, NAME_KEY) == Str(name)
            && Get(u, COMPOSITION_KEY) == Arr(seq(|entries|, i requires 0 <= i < |entries| => RecipeEntryValue(entries[i])))
            && Get(u, ROOT_OF_TRUST_KEY) == Obj([Member(KEY_ID_KEY, Str(key.keyId)), Member(PUBLIC_KEY_KEY, Str(key.publicKey))])
            && RootReads(Get(u, ROOT_OF_TRUST_KEY))
  {
    hide RecipeEntryValue, Get;
    RecipeKeysDiffer();
    var u := UnsignedRecipe(name, entries, key);
    FirstWith(u, 0);
    FirstWith(u, 1);
    FirstWith(u, 2);
    FirstWith(u, 3);
    FirstWith(u, 4);
    FirstWith(u[4].value.members, 0);
    FirstWith(u[4].value.members, 1);
  }

  /** A recipe of those entries is read exactly when it has a name and an entry, and every entry an id, digests
      and no negative phase. */
  lemma RecipeReadsIff(name: Text, entries: seq<RecipeEntry>, key: RootKey)
    ensures RecipeReads(UnsignedRecipe(name, entries, key))
            <==> name != [] && entries != [] && forall i | 0 <= i < |entries| :: EntryReadable(entries[i])
  {
    hide UnsignedRecipe, EntryReads, EntryReadable, RecipeEntryValue, RootReads;
    RecipeFields(name, entries, key);
    var vs := seq(|entries|, i requires 0 <= i < |entries| => RecipeEntryValue(entries[i]));
    forall i | 0 <= i < |entries| ensures EntryReads(vs[i]) <==> EntryReadable(entries[i]) {
      EntryReadsIff(entries[i]);
    }
  }

  /** The sources' digests are written with their algorithm. */
  predicate DigestsPrefixed(c: Ceremony) {
    forall source | source in c.digests :: SHA256_PREFIX <= c.digests[source]
  }

  lemma CompiledEntryReadable(c: Ceremony, se: SpecEntry)
    requires KeyPair(c.scheme, c.key) && CompileEntry(c, se).Some? && DigestsPrefixed(c)
    ensures EntryReadable(CompileEntry(c, se).value.entry) <==> se.bootPhase >= 0
  {
    CompiledFacts(c, se);
    ReadManifests(c.plugins[se.source]);
  }

  /** Writing a recipe out and leaving its undefined members behind changes nothing for the reader. */
  lemma WrittenReads(s: Scheme, key: RootKey, name: Text, entries: seq<RecipeEntry>)
    requires KeyPair(s, key) && forall i | 0 <= i < |entries| :: GoodEntry(entries[i])
    ensures SignRecipe(s, key, UnsignedRecipe(name, entries, key)).Some?
    ensures var written := WrittenRecipe(SignRecipe(s, key, UnsignedRecipe(name, entries, key)).value);
            written.Obj? && (RecipeReads(written.members) <==> RecipeReads(UnsignedRecipe(name, entries, key)))
  {
    hide KeyPair, UnsignedRecipe, SignJson, Supported, WellFormed, Same, GoodEntry, RecipeReads, KeepDefined, DropKey, Plain;
    var u := UnsignedRecipe(name, entries, key);
    SignedRecipeVerifies(s, key, name, entries);
    RecipeIsSignable(name, entries, key);
    StringifiedIsSame(Obj(u));
    NotThere(u, name, entries, key);
    RecipeKept(name, entries, key);
    var signature := SignJson(s, Obj(u), key.privateKey).value;
    var kept := KeepDefined(u);
    KeepAppend(u, Member(SIGNATURE_KEY, Str(signature)));
    AppendedField(kept, SIGNATURE_KEY, Str(signature), SIGNATURE_KEY);
    SameReads(u, kept);
    ReadsUnsigned(kept + [Member(SIGNATURE_KEY, Str(signature))]);
  }

  lemma GoodEntries(c: Ceremony, files: map<Text, Text>, spec: seq<SpecEntry>)
    requires ConfigsPlain(spec) && !CompileAll(c, files, spec).failed
    ensures forall i | 0 <= i < |CompileAll(c, files, spec).entries| :: GoodEntry(CompileAll(c, files, spec).entries[i])
  {
    hide CompileAll, CompileEntry, GoodEntry;
    EntriesAre(c, files, spec);
    forall i | 0 <= i < |spec| ensures GoodEntry(CompileAll(c, files, spec).entries[i]) {
      CompiledEntryIsGood(c, spec[i]);
    }
  }

  lemma VerifiedHasSignature(s: Scheme, recipe: Fields)
    requires VerifyRecipeSignature(s, recipe)
    ensures Get(recipe, SIGNATURE_KEY).Str?
  {
  }

  /** What the ceremony leaves unchecked. */
  predicate SpecReadable(name: Text, spec: seq<SpecEntry>) {
    name != [] && spec != [] && forall i | 0 <= i < |spec| :: spec[i].bootPhase >= 0
  }

  lemma CompiledReadsIff(c: Ceremony, files: map<Text, Text>, name: Text, spec: seq<SpecEntry>)
    requires KeyPair(c.scheme, c.key) && DigestsPrefixed(c) && !CompileAll(c, files, spec).failed
    ensures RecipeReads(UnsignedRecipe(name, CompileAll(c, files, spec).entries, c.key)) <==> SpecReadable(name, spec)
  {
    hide CompileEntry, KeyPair, UnsignedRecipe, EntryReadable, CompileAll, RecipeReads, DigestsPrefixed;
    var entries := CompileAll(c, files, spec).entries;
    EntriesAre(c, files, spec);
    forall i | 0 <= i < |spec| ensures EntryReadable(entries[i]) <==> spec[i].bootPhase >= 0 {
      CompiledEntryReadable(c, spec[i]);
    }
    RecipeReadsIff(name, entries, c.key);
  }

  /** The recipe file a ceremony writes is read back, without its undefined members, exactly when the spec has a
      name, an entry and no negative phase; the ceremony checks none of these. */
  lemma CompiledRecipeReadsIff(c: Ceremony, files: map<Text, Text>, name: Text, spec: seq<SpecEntry>)
    requires KeyPair(c.scheme, c.key) && ConfigsPlain(spec) && DigestsPrefixed(c) && !CompileAll(c, files, spec).failed
    ensures SignRecipe(c.scheme, c.key, UnsignedRecipe(name, CompileAll(c, files, spec).entries, c.key)).Some?
    ensures var written := WrittenRecipe(SignRecipe(c.scheme, c.key, UnsignedRecipe(name, CompileAll(c, files, spec).entries, c.key)).value);
            && Plain(written) && written.Obj?
            && ParseRecipe(Pretty(written, 0)) == if SpecReadable(name, spec) then Some(written.members) else None
  {
    hide KeyPair, UnsignedRecipe, Pretty, CompileAll, RecipeReads, Parse, WrittenRecipe, SignRecipe, SpecReadable, ConfigsPlain, GoodEntry,
         DigestsPrefixed, VerifyRecipeSignature, Get, Plain;
    var u := UnsignedRecipe(name, CompileAll(c, files, spec).entries, c.key);
    CompiledReadsIff(c, files, name, spec);
    CompiledRecipeFileVerifies(c, files, name, spec);
    GoodEntries(c, files, spec);
    WrittenReads(c.scheme, c.key, name, CompileAll(c, files, spec).entries);
    VerifiedHasSignature(c.scheme, WrittenRecipe(SignRecipe(c.scheme, c.key, u).value).members);
  }
}

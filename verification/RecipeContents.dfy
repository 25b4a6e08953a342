/** What a compiled recipe and its manifests hold: the spec's grants, entry by entry, down to the written file. */
module RecipeContents {
  import opened Wrappers
  import opened JsonText
  import opened JsonParser
  import opened JsonFormat
  import opened JsonObject
  import opened Canon = CanonicalJson
  import opened Signing
  import opened Manifest
  import opened Recipe
  import opened RecipeReader

  // ---- when an entry compiles ----

  /** A source directory with a readable manifest of that id, honest, and with a content digest. */
  predicate Compilable(c: Ceremony, se: SpecEntry) {
    && se.source in c.plugins && se.source in c.digests && ParseManifest(c.plugins[se.source]).Some?
    && Get(ParseManifest(c.plugins[se.source]).value, ID_KEY) == Str(se.id) && c.honest(ParseManifest(c.plugins[se.source]).value)
  }

  lemma EntryCompilesIff(c: Ceremony, se: SpecEntry)
    requires KeyPair(c.scheme, c.key)
    ensures CompileEntry(c, se).Some? <==> Compilable(c, se)
  {
    hide ParseManifest, Signed, Readable, KeyPair, Pretty, Get;
    if Compilable(c, se) {
      ReadManifests(c.plugins[se.source]);
      SignedManifestVerifies(c.scheme, c.key, ParseManifest(c.plugins[se.source]).value, c.digests[se.source]);
    }
  }

  /** A ceremony succeeds exactly when every entry of its spec can be compiled. */
  lemma {:induction false} CeremonySucceedsIff(c: Ceremony, files: map<Text, Text>, spec: seq<SpecEntry>)
    requires KeyPair(c.scheme, c.key)
    ensures !CompileAll(c, files, spec).failed <==> forall i | 0 <= i < |spec| :: Compilable(c, spec[i])
  {
    hide CompileEntry, KeyPair, Compilable;
    if spec != [] {
      var n := |spec| - 1;
      CeremonySucceedsIff(c, files, spec[..n]);
      EntryCompilesIff(c, spec[n]);
      assert forall i | 0 <= i < n :: spec[..n][i] == spec[i];
    }
  }

  // ---- what the entry check reports ----

  /** The check of an entry throws exactly on a file that is no manifest, and otherwise reports each of its five
      errors exactly for its cause; a missing file is reported alone. */
  lemma EntryErrorsIff(s: Scheme, digests: map<Text, Text>, files: map<Text, Text>, e: RecipeEntry, publicKey: Text)
    ensures var r := VerifyEntry(s, digests, files, e, publicKey);
            && (r.Thrown? <==> e.manifestPath in files && ParseManifest(files[e.manifestPath]).None?)
            && (r.Checked? ==> r.manifest == if e.manifestPath in files then ParseManifest(files[e.manifestPath]) else None)
            && (r.Checked? && e.manifestPath !in files ==> r.errors == [ManifestUnreadable])
            && (r.Checked? && e.manifestPath in files ==>
                  && ManifestUnreadable !in r.errors
                  && (ManifestHashMismatch in r.errors <==> [115, 104, 97, 50, 53, 54, 58] + s.hash(files[e.manifestPath]) != e.manifestHash)
                  && (SignatureInvalid in r.errors <==> !PublisherVerifies(s, r.manifest.value, publicKey))
                  && (SourceMissing in r.errors <==> e.source !in digests)
                  && (ContentHashMismatch in r.errors <==> e.source in digests && digests[e.source] != e.contentHash)
                  && forall i, j | 0 <= i < j < |r.errors| :: r.errors[i] != r.errors[j])
  {
    hide ParseManifest, PublisherVerifies;
  }

  // ---- the entries ----

  /** The compiled entry stands for the spec's: same id, source, phase, capabilities, contracts and configuration,
      and the version its manifest holds. */
  predicate StandsFor(c: Ceremony, se: SpecEntry, e: RecipeEntry) {
    && e.id == se.id && e.source == se.source && e.bootPhase == se.bootPhase
    && e.capabilities == se.capabilities && e.contracts == se.contracts && e.config == se.config
    && se.source in c.plugins && ParseManifest(c.plugins[se.source]).Some?
    && e.version == Get(ParseManifest(c.plugins[se.source]).value, VERSION_KEY)
    && se.source in c.digests && e.contentHash == c.digests[se.source]
  }

  lemma EntryStandsFor(c: Ceremony, se: SpecEntry)
    requires CompileEntry(c, se).Some?
    ensures StandsFor(c, se, CompileEntry(c, se).value.entry)
  {
    hide ParseManifest, Get, Pretty, Signed, Readable;
  }

  /** After a ceremony the i-th entry of the recipe stands for the i-th of the spec. */
  lemma EntriesStandForSpec(c: Ceremony, files: map<Text, Text>, spec: seq<SpecEntry>)
    requires !CompileAll(c, files, spec).failed
    ensures |CompileAll(c, files, spec).entries| == |spec|
    ensures forall i | 0 <= i < |spec| :: StandsFor(c, spec[i], CompileAll(c, files, spec).entries[i])
  {
    hide CompileEntry, CompileAll, StandsFor;
    EntriesAre(c, files, spec);
    forall i | 0 <= i < |spec| ensures StandsFor(c, spec[i], CompileAll(c, files, spec).entries[i]) {
      EntryStandsFor(c, spec[i]);
    }
  }

  // ---- the manifest files ----

  /** Manifest files are named after the id, every unit but letters, digits, dots and dashes replaced by `_`. */
  lemma ManifestPathIs(id: Text, name: Text)
    requires |name| == |id|
    requires forall i | 0 <= i < |id| ::
               name[i] == if 48 <= id[i] <= 57 || 65 <= id[i] <= 90 || 97 <= id[i] <= 122 || id[i] == 45 || id[i] == 46 then id[i] else 95
    ensures ManifestPath(id) == [109, 97, 110, 105, 102, 101, 115, 116, 115, 47] + name + [46, 106, 115, 111, 110]
  {
    assert Sanitised(id) == name;
  }

  /** Of the first `n` entries the last whose manifest file has that path. */
  predicate LastNamed(spec: seq<SpecEntry>, n: nat, i: nat, path: Text) {
    i < n <= |spec| && ManifestPath(spec[i].id) == path && forall j | i < j < n :: ManifestPath(spec[j].id) != path
  }

  /** The file at a path that some of the first `n` entries name is what the last of them wrote; any other is as it
      was. */
  ghost predicate FilesAre(c: Ceremony, before: map<Text, Text>, after: map<Text, Text>, spec: seq<SpecEntry>, n: nat, path: Text) {
    && n <= |spec|
    && ((forall i | 0 <= i < n :: ManifestPath(spec[i].id) != path) ==>
          (path in after <==> path in before) && (path in before ==> path in after && after[path] == before[path]))
    && (forall i: nat | LastNamed(spec, n, i, path) ::
          path in after && CompileEntry(c, spec[i]).Some? && after[path] == CompileEntry(c, spec[i]).value.text)
  }

  lemma FileAdded(c: Ceremony, before: map<Text, Text>, after: map<Text, Text>, spec: seq<SpecEntry>, n: nat, m: nat, path: Text)
    requires n < |spec| && m == n + 1 && CompileEntry(c, spec[n]).Some? && FilesAre(c, before, after, spec, n, path)
    ensures FilesAre(c, before, after[ManifestPath(spec[n].id) := CompileEntry(c, spec[n]).value.text], spec, m, path)
  {
    hide CompileEntry, ManifestPath;
    LastNamedStep(spec, n, m, path);
    hide LastNamed;
    if ManifestPath(spec[n].id) != path {
      OtherFile(c, before, after, after[ManifestPath(spec[n].id) := CompileEntry(c, spec[n]).value.text], spec, n, m, path);
    }
  }

  lemma OtherFile(c: Ceremony, before: map<Text, Text>, after: map<Text, Text>, after': map<Text, Text>, spec: seq<SpecEntry>,
                  n: nat, m: nat, path: Text)
    requires n < |spec| && m == n + 1 && FilesAre(c, before, after, spec, n, path) && ManifestPath(spec[n].id) != path
    requires forall i: nat :: LastNamed(spec, m, i, path) <==> LastNamed(spec, n, i, path)
    requires (path in after' <==> path in after) && (path in after ==> after'[path] == after[path])
    ensures FilesAre(c, before, after', spec, m, path)
  {
    hide CompileEntry, ManifestPath, LastNamed;
  }

  lemma LastNamedStep(spec: seq<SpecEntry>, n: nat, m: nat, path: Text)
    requires n < |spec| && m == n + 1
    ensures ManifestPath(spec[n].id) == path ==> forall i: nat :: LastNamed(spec, m, i, path) <==> i == n
    ensures ManifestPath(spec[n].id) != path ==> forall i: nat :: LastNamed(spec, m, i, path) <==> LastNamed(spec, n, i, path)
  {
    hide ManifestPath;
  }

  lemma {:induction false} FilesUpTo(c: Ceremony, files: map<Text, Text>, spec: seq<SpecEntry>, n: nat, path: Text)
    requires n <= |spec| && forall i | 0 <= i < n :: CompileEntry(c, spec[i]).Some?
    ensures !CompileAll(c, files, spec[..n]).failed && FilesAre(c, files, CompileAll(c, files, spec[..n]).files, spec, n, path)
  {
    hide CompileEntry, ManifestPath, FilesAre;
    if n == 0 {
      NoFiles(c, files, spec, path);
    } else {
      FilesUpTo(c, files, spec, n - 1, path);
      assert spec[..n][..n - 1] == spec[..n - 1];
      FileAdded(c, files, CompileAll(c, files, spec[..n - 1]).files, spec, n - 1, n, path);
    }
  }

  lemma NoFiles(c: Ceremony, files: map<Text, Text>, spec: seq<SpecEntry>, path: Text)
    ensures FilesAre(c, files, files, spec, 0, path)
  {
  }

  /** A ceremony writes the files of the entries up to the first that does not compile, and no others. */
  lemma FilesWritten(c: Ceremony, files: map<Text, Text>, spec: seq<SpecEntry>, n: nat, path: Text)
    requires n <= |spec| && (forall i | 0 <= i < n :: CompileEntry(c, spec[i]).Some?) && (n < |spec| ==> CompileEntry(c, spec[n]).None?)
    ensures CompileAll(c, files, spec).failed <==> n < |spec|
    ensures FilesAre(c, files, CompileAll(c, files, spec).files, spec, n, path)
  {
    hide CompileEntry, FilesAre, CompileAll;
    FilesUpTo(c, files, spec, n, path);
    if n == |spec| {
      assert spec[..n] == spec;
    } else {
      StopsAt(c, files, spec, n);
    }
  }

  lemma StopsAt(c: Ceremony, files: map<Text, Text>, spec: seq<SpecEntry>, n: nat)
    requires n < |spec| && CompileEntry(c, spec[n]).None? && !CompileAll(c, files, spec[..n]).failed
    ensures CompileAll(c, files, spec).failed && CompileAll(c, files, spec).files == CompileAll(c, files, spec[..n]).files
  {
    hide CompileEntry;
    assert spec[..n + 1][..n] == spec[..n];
    FailureStays(c, files, spec, n + 1);
  }

  /** A manifest is written with two-space indentation. */
  lemma ManifestText(c: Ceremony, se: SpecEntry)
    requires CompileEntry(c, se).Some?
    ensures Plain(Obj(CompileEntry(c, se).value.manifest))
    ensures CompileEntry(c, se).value.text == Pretty(Obj(CompileEntry(c, se).value.manifest), 0)
  {
    hide ParseManifest, Get, Pretty, Signed, Plain;
    ReadManifests(c.plugins[se.source]);
    SignedIsReadable(c.scheme, c.key, ParseManifest(c.plugins[se.source]).value, c.digests[se.source]);
  }

  // ---- the manifests ----

  lemma ManifestKeysDiffer()
    ensures CONTENT_HASH_KEY != PUBLISHER_KEY && KEY_ID_KEY != SIGNATURE_KEY
  {
    KeysDiffer();
  }

  /** The compiled manifest says what the source's manifest says, but for the digest of the sources and the
      publisher: the root key and its signature. */
  lemma ManifestHolds(c: Ceremony, se: SpecEntry, k: Text)
    requires CompileEntry(c, se).Some?
    ensures se.source in c.plugins && se.source in c.digests && ParseManifest(c.plugins[se.source]).Some?
    ensures var m := CompileEntry(c, se).value.manifest;
            && (k == CONTENT_HASH_KEY ==> Get(m, k) == Str(c.digests[se.source]))
            && (k == PUBLISHER_KEY ==> Field(Get(m, k), KEY_ID_KEY) == Str(c.key.keyId))
            && (k != CONTENT_HASH_KEY && k != PUBLISHER_KEY ==> Get(m, k) == Get(ParseManifest(c.plugins[se.source]).value, k))
  {
    hide ParseManifest, Readable, Get, SignJson;
    ManifestKeysDiffer();
    ReadManifests(c.plugins[se.source]);
    var m, h := ParseManifest(c.plugins[se.source]).value, c.digests[se.source];
    SignedIsReadable(c.scheme, c.key, m, h);
    var hashed := Set(m, CONTENT_HASH_KEY, Str(h));
    var u := Unsigned(m, h, c.key.keyId);
    var signature := SignJson(c.scheme, Obj(u), c.key.privateKey).value;
    GetSet(m, CONTENT_HASH_KEY, Str(h), k);
    GetSet(hashed, PUBLISHER_KEY, PublisherValue(Str(c.key.keyId), []), k);
    GetSet(u, PUBLISHER_KEY, PublisherValue(Str(c.key.keyId), signature), k);
    PublisherSays(Str(c.key.keyId), signature);
  }

  lemma PublisherSays(keyId: Json, signature: Text)
    ensures Field(PublisherValue(keyId, signature), KEY_ID_KEY) == keyId
  {
  }

  // ---- the file ----

  /** A plain value is written as it is. */
  lemma {:induction false} PlainIsWritten(v: Json)
    requires Plain(v)
    ensures Stringified(v) == v
    decreases v
  {
    match v
    case Arr(items) =>
      forall i | 0 <= i < |items| ensures Stringified(items[i]) == items[i] && items[i] != Undef {
        PlainIsWritten(items[i]);
      }
    case Obj(ms) => PlainFieldsWritten(ms);
    case _ =>
  }

  lemma {:induction false} PlainFieldsWritten(ms: Fields)
    requires forall i | 0 <= i < |ms| :: Plain(ms[i].value)
    ensures KeepDefined(ms) == ms
    decreases ms
  {
    if ms != [] {
      assert ms[0].value != Undef by { PlainIsDefined(ms[0].value); }
      PlainIsWritten(ms[0].value);
      hide Plain, Stringified;
      assert forall i | 0 <= i < |ms| - 1 :: ms[1..][i] == ms[i + 1];
      PlainFieldsWritten(ms[1..]);
      assert ms == [ms[0]] + ms[1..];
    }
  }

  /** The entry in the written file, under `composition[i]`. */
  function WrittenEntry(written: Json, i: nat): Json {
    var composition := Field(written, COMPOSITION_KEY);
    if composition.Arr? && i < |composition.items| then composition.items[i] else Undef
  }

  /** An entry of the file says what the spec's entry says. */
  ghost predicate SaysOf(v: Json, se: SpecEntry) {
    && Field(v, ID_KEY) == Str(se.id) && Field(v, SOURCE_KEY) == Str(se.source) && Field(v, BOOT_PHASE_KEY) == Num(se.bootPhase)
    && Field(Field(v, GRANT_KEY), CAPABILITIES_KEY) == Strings(se.capabilities)
    && Field(Field(v, GRANT_KEY), CONTRACTS_KEY) == Strings(se.contracts)
    && Field(v, CONFIG_KEY) == if se.config.Some? then se.config.value else Undef
  }

  lemma GrantSays(capabilities: seq<Text>, contracts: seq<Text>)
    ensures Field(GrantValue(capabilities, contracts), CAPABILITIES_KEY) == Strings(capabilities)
    ensures Field(GrantValue(capabilities, contracts), CONTRACTS_KEY) == Strings(contracts)
    ensures Plain(GrantValue(capabilities, contracts))
  {
    GrantPlain(capabilities, contracts);
    var ms := GrantValue(capabilities, contracts).members;
    assert |CAPABILITIES_KEY| != |CONTRACTS_KEY|;
    FirstWith(ms, 0);
    FirstWith(ms, 1);
  }

  lemma ConfigSays(e: RecipeEntry)
    ensures Field(RecipeEntryValue(e), CONFIG_KEY) == if e.config.Some? then e.config.value else Undef
  {
    hide GrantValue, Get, DistinctTexts;
    EntryKeysDiffer();
    var ms := RecipeEntryValue(e).members;
    var keys := [ID_KEY, VERSION_KEY, SOURCE_KEY, MANIFEST_PATH_KEY, MANIFEST_HASH_KEY, CONTENT_HASH_KEY, GRANT_KEY, BOOT_PHASE_KEY, CONFIG_KEY];
    if e.config.Some? {
      KeyedAt(ms, keys, 8);
    } else {
      assert keys[8] == CONFIG_KEY;
      forall i | 0 <= i < |ms| ensures ms[i].key != CONFIG_KEY {
        assert ms[i].key == keys[i];
        LastDiffers(keys, i);
      }
      GetMissing(ms, CONFIG_KEY);
    }
  }

  lemma LastDiffers(keys: seq<Text>, i: nat)
    requires DistinctTexts(keys) && |keys| == 9 && i < 8
    ensures keys[i] != keys[8]
  {
  }

  lemma EntryObject(e: RecipeEntry)
    ensures RecipeEntryValue(e).Obj?
  {
  }

  /** What the written form of an entry says. */
  lemma WrittenSays(e: RecipeEntry, k: Text)
    requires GoodEntry(e)
    ensures Field(Stringified(RecipeEntryValue(e)), k) == Stringified(Field(RecipeEntryValue(e), k))
  {
    hide RecipeEntryValue, Get, KeepDefined;
    EntryIsSignable(e);
    EntryObject(e);
    KeptValue(RecipeEntryValue(e).members, k);
  }

  lemma EntrySays(c: Ceremony, se: SpecEntry, e: RecipeEntry)
    requires GoodEntry(e) && StandsFor(c, se, e)
    ensures SaysOf(Stringified(RecipeEntryValue(e)), se)
  {
    hide RecipeEntryValue, Stringified, Get, GrantValue, ParseManifest, Strings, Plain, Field;
    EntryFields(e);
    GrantSays(e.capabilities, e.contracts);
    ConfigSays(e);
    WrittenSays(e, ID_KEY);
    WrittenSays(e, SOURCE_KEY);
    WrittenSays(e, BOOT_PHASE_KEY);
    WrittenSays(e, GRANT_KEY);
    WrittenSays(e, CONFIG_KEY);
    LeavesWritten(e);
    PlainIsWritten(GrantValue(e.capabilities, e.contracts));
    if e.config.Some? {
      PlainIsWritten(e.config.value);
    }
  }

  lemma LeavesWritten(e: RecipeEntry)
    ensures Stringified(Str(e.id)) == Str(e.id) && Stringified(Str(e.source)) == Str(e.source)
    ensures Stringified(Num(e.bootPhase)) == Num(e.bootPhase) && Stringified(Undef) == Undef
  {
  }

  /** What the file says besides its entries. */
  ghost predicate SaysHead(written: Json, name: Text, n: nat, key: RootKey) {
    && Field(written, NAME_KEY) == Str(name) && Field(written, RECIPE_VERSION_KEY) == Num(1) && Field(written, HASH_ALGO_KEY) == Str(SHA256)
    && Field(written, COMPOSITION_KEY).Arr? && |Field(written, COMPOSITION_KEY).items| == n
    && Field(Field(written, ROOT_OF_TRUST_KEY), KEY_ID_KEY) == Str(key.keyId)
    && Field(Field(written, ROOT_OF_TRUST_KEY), PUBLIC_KEY_KEY) == Str(key.publicKey)
  }

  /** Parsing the recipe file a ceremony writes gives, under `composition[i]`, exactly what the i-th entry of the
      spec grants, in order, with its id, source, phase and configuration. */
  lemma RecipeFileGrantsSpec(c: Ceremony, files: map<Text, Text>, name: Text, spec: seq<SpecEntry>)
    requires KeyPair(c.scheme, c.key) && ConfigsPlain(spec) && !CompileAll(c, files, spec).failed
    ensures SignRecipe(c.scheme, c.key, UnsignedRecipe(name, CompileAll(c, files, spec).entries, c.key)).Some?
    ensures var written := WrittenRecipe(SignRecipe(c.scheme, c.key, UnsignedRecipe(name, CompileAll(c, files, spec).entries, c.key)).value);
            && Plain(written) && Parse(Pretty(written, 0)) == Some(written)
            && SaysHead(written, name, |spec|, c.key)
            && forall i | 0 <= i < |spec| :: SaysOf(WrittenEntry(written, i), spec[i])
  {
    hide CompileEntry, CompileAll, KeyPair, UnsignedRecipe, SignJson, StandsFor, GoodEntry, Pretty, Parse, ConfigsPlain, SaysHead, SaysOf, WrittenRecipe, SignRecipe,
         Plain, VerifyRecipeSignature, WrittenEntry;
    var entries := CompileAll(c, files, spec).entries;
    CompiledRecipeFileVerifies(c, files, name, spec);
    EntriesStandForSpec(c, files, spec);
    GoodEntries(c, files, spec);
    WrittenHead(c.scheme, c.key, name, entries);
    forall i | 0 <= i < |spec|
      ensures SaysOf(WrittenEntry(WrittenRecipe(SignRecipe(c.scheme, c.key, UnsignedRecipe(name, entries, c.key)).value), i), spec[i])
    {
      EntrySays(c, spec[i], entries[i]);
    }
  }

  /** The written recipe field by field. */
  lemma WrittenHead(s: Scheme, key: RootKey, name: Text, entries: seq<RecipeEntry>)
    requires KeyPair(s, key) && forall i | 0 <= i < |entries| :: GoodEntry(entries[i])
    ensures SignRecipe(s, key, UnsignedRecipe(name, entries, key)).Some?
    ensures var written := WrittenRecipe(SignRecipe(s, key, UnsignedRecipe(name, entries, key)).value);
            && SaysHead(written, name, |entries|, key)
            && forall i | 0 <= i < |entries| :: WrittenEntry(written, i) == Stringified(RecipeEntryValue(entries[i]))
  {
    hide KeyPair, UnsignedRecipe, SignJson, Supported, WellFormed, GoodEntry, KeepDefined, Get, Plain, VerifyRecipeSignature, DistinctTexts;
    var u := UnsignedRecipe(name, entries, key);
    SignedRecipeVerifies(s, key, name, entries);
    RecipeIsSignable(name, entries, key);
    NotThere(u, name, entries, key);
    RecipeKept(name, entries, key);
    var signature := SignJson(s, Obj(u), key.privateKey).value;
    var kept := KeepDefined(u);
    KeepAppend(u, Member(SIGNATURE_KEY, Str(signature)));
    assert DistinctKeys(u) by { DistinctIn(u); }
    forall k | k != SIGNATURE_KEY ensures Get(kept + [Member(SIGNATURE_KEY, Str(signature))], k) == Stringified(Get(u, k)) {
      AppendedField(kept, SIGNATURE_KEY, Str(signature), k);
      KeptValue(u, k);
    }
    HeadFrom(Stringified(Obj(u + [Member(SIGNATURE_KEY, Str(signature))])).members, name, entries, key);
  }

  lemma DistinctIn(u: Fields)
    requires WellFormed(Obj(u))
    ensures DistinctKeys(u)
  {
  }

  lemma HeadFrom(ms: Fields, name: Text, entries: seq<RecipeEntry>, key: RootKey)
    requires forall k | k != SIGNATURE_KEY :: Get(ms, k) == Stringified(Get(UnsignedRecipe(name, entries, key), k))
    ensures SaysHead(Obj(ms), name, |entries|, key)
    ensures forall i | 0 <= i < |entries| :: WrittenEntry(Obj(ms), i) == Stringified(RecipeEntryValue(entries[i]))
  {
    hide UnsignedRecipe, Get, RecipeEntryValue;
    RecipeFields(name, entries, key);
    HeadKeysDiffer();
    RootSays(key);
    RootKept(key);
    var vs := seq(|entries|, i requires 0 <= i < |entries| => RecipeEntryValue(entries[i]));
    forall i | 0 <= i < |entries| ensures vs[i] != Undef {
      EntryObject(entries[i]);
    }
    ElementsWritten(vs);
  }

  lemma ElementsWritten(vs: seq<Json>)
    requires forall i | 0 <= i < |vs| :: vs[i] != Undef
    ensures Stringified(Arr(vs)).Arr? && |Stringified(Arr(vs)).items| == |vs|
    ensures forall i | 0 <= i < |vs| :: Stringified(Arr(vs)).items[i] == Stringified(vs[i])
  {
  }

  lemma HeadKeysDiffer()
    ensures NAME_KEY != SIGNATURE_KEY && RECIPE_VERSION_KEY != SIGNATURE_KEY && HASH_ALGO_KEY != SIGNATURE_KEY
    ensures COMPOSITION_KEY != SIGNATURE_KEY && ROOT_OF_TRUST_KEY != SIGNATURE_KEY
  {
    assert |NAME_KEY| == 4 && |SIGNATURE_KEY| == 9 && |RECIPE_VERSION_KEY| == 13 && |HASH_ALGO_KEY| == 8
           && |COMPOSITION_KEY| == 11 && |ROOT_OF_TRUST_KEY| == 11;
  }

  lemma RootSays(key: RootKey)
    ensures var root := Obj([Member(KEY_ID_KEY, Str(key.keyId)), Member(PUBLIC_KEY_KEY, Str(key.publicKey))]);
            Field(root, KEY_ID_KEY) == Str(key.keyId) && Field(root, PUBLIC_KEY_KEY) == Str(key.publicKey)
  {
    var ms := [Member(KEY_ID_KEY, Str(key.keyId)), Member(PUBLIC_KEY_KEY, Str(key.publicKey))];
    RecipeKeysDiffer();
    FirstWith(ms, 0);
    FirstWith(ms, 1);
  }

  // ---- emitted specs ----

  function KeysOf(ms: Fields): seq<Text> {
    seq(|ms|, i requires 0 <= i < |ms| => ms[i].key)
  }

  /** A spec entry in the file, its keys in house order. */
  ghost predicate IsSpecEntry(v: Json, e: SpecEntry) {
    && SaysOf(v, e) && v.Obj? && Field(v, GRANT_KEY).Obj?
    && KeysOf(v.members) == [ID_KEY, SOURCE_KEY, BOOT_PHASE_KEY, GRANT_KEY] + (if e.config.Some? then [CONFIG_KEY] else [])
    && KeysOf(Field(v, GRANT_KEY).members) == [CAPABILITIES_KEY, CONTRACTS_KEY]
  }

  lemma EmittedEntrySays(e: SpecEntry)
    ensures IsSpecEntry(EntryValue(e), e)
  {
    hide Get, Strings, DistinctTexts;
    var ms := EntryValue(e).members;
    var keys := [ID_KEY, SOURCE_KEY, BOOT_PHASE_KEY, GRANT_KEY, CONFIG_KEY];
    SpecKeysDiffer();
    KeyedAt(ms, keys, 0);
    KeyedAt(ms, keys, 1);
    KeyedAt(ms, keys, 2);
    KeyedAt(ms, keys, 3);
    FirstWith(ms[3].value.members, 0);
    FirstWith(ms[3].value.members, 1);
    if e.config.Some? {
      KeyedAt(ms, keys, 4);
    } else {
      NoConfig(ms, keys);
    }
  }

  lemma NoConfig(ms: Fields, keys: seq<Text>)
    requires DistinctTexts(keys) && |ms| == 4 && |keys| == 5 && forall j | 0 <= j < 4 :: ms[j].key == keys[j]
    ensures Get(ms, keys[4]) == Undef
  {
    GetMissing(ms, keys[4]);
  }

  lemma SpecKeysDiffer()
    ensures DistinctTexts([ID_KEY, SOURCE_KEY, BOOT_PHASE_KEY, GRANT_KEY, CONFIG_KEY])
    ensures CAPABILITIES_KEY != CONTRACTS_KEY
    ensures DistinctTexts([NAME_KEY, NOTE_KEY, ENTRIES_KEY])
  {
    assert |ID_KEY| == 2 && |SOURCE_KEY| == 6 && |BOOT_PHASE_KEY| == 9 && |GRANT_KEY| == 5 && |CONFIG_KEY| == 6 && SOURCE_KEY[0] != CONFIG_KEY[0];
    assert |CAPABILITIES_KEY| == 12 && |CONTRACTS_KEY| == 9 && |NAME_KEY| == 4 && |NOTE_KEY| == 5 && |ENTRIES_KEY| == 7;
  }

  /** An emitted spec file holds the name, the note if there is one and the entries, in this order, and each entry
      says what was asked for, its keys in house order. */
  lemma EmitSpecSays(name: Text, note: Option<Text>, entries: seq<SpecEntry>)
    requires ConfigsPlain(entries)
    ensures Parse(EmitSpec(name, note, entries)).Some?
    ensures var v := Parse(EmitSpec(name, note, entries)).value;
            && v.Obj? && KeysOf(v.members) == [NAME_KEY] + (if note.Some? then [NOTE_KEY] else []) + [ENTRIES_KEY]
            && Field(v, NAME_KEY) == Str(name) && Field(v, NOTE_KEY) == (if note.Some? then Str(note.value) else Undef)
            && Field(v, ENTRIES_KEY).Arr? && |Field(v, ENTRIES_KEY).items| == |entries|
            && forall i | 0 <= i < |entries| :: IsSpecEntry(Field(v, ENTRIES_KEY).items[i], entries[i])
  {
    hide EntryValue, EmitSpec, IsSpecEntry, SpecValue;
    EmitSpecReadsBack(name, note, entries);
    SpecSays(name, note, entries);
    forall i | 0 <= i < |entries| ensures IsSpecEntry(EntryValue(entries[i]), entries[i]) {
      EmittedEntrySays(entries[i]);
    }
  }

  lemma SpecSays(name: Text, note: Option<Text>, entries: seq<SpecEntry>)
    ensures var v := SpecValue(name, note, entries);
            && KeysOf(v.members) == [NAME_KEY] + (if note.Some? then [NOTE_KEY] else []) + [ENTRIES_KEY]
            && Field(v, NAME_KEY) == Str(name) && Field(v, NOTE_KEY) == (if note.Some? then Str(note.value) else Undef)
            && Field(v, ENTRIES_KEY) == Arr(seq(|entries|, i requires 0 <= i < |entries| => EntryValue(entries[i])))
  {
    hide EntryValue, Get;
    SpecKeysDiffer();
    var ms := SpecValue(name, note, entries).members;
    FirstWith(ms, 0);
    FirstWith(ms, |ms| - 1);
    if note.Some? {
      FirstWith(ms, 1);
    } else {
      GetMissing(ms, NOTE_KEY);
    }
  }
}

/** The compile ceremony, which signs manifests and the recipe, and the checks boot makes on them. */
module Recipe {
  import opened Wrappers
  import opened JsonText
  import opened JsonParser
  import opened JsonFormat
  import opened JsonObject
  import opened Canon = CanonicalJson
  import opened Signing
  import opened Manifest

  const RECIPE_VERSION_KEY: Text := [114, 101, 99, 105, 112, 101, 86, 101, 114, 115, 105, 111, 110]
  const HASH_ALGO_KEY: Text := [104, 97, 115, 104, 65, 108, 103, 111]
  const COMPOSITION_KEY: Text := [99, 111, 109, 112, 111, 115, 105, 116, 105, 111, 110]
  const ROOT_OF_TRUST_KEY: Text := [114, 111, 111, 116, 79, 102, 84, 114, 117, 115, 116]
  const PUBLIC_KEY_KEY: Text := [112, 117, 98, 108, 105, 99, 75, 101, 121]
  const MANIFEST_PATH_KEY: Text := [109, 97, 110, 105, 102, 101, 115, 116, 80, 97, 116, 104]
  const MANIFEST_HASH_KEY: Text := [109, 97, 110, 105, 102, 101, 115, 116, 72, 97, 115, 104]
  const SHA256: Text := [115, 104, 97, 50, 53, 54]
  const SHA256_PREFIX: Text := [115, 104, 97, 50, 53, 54, 58]
  const MANIFESTS_DIR: Text := [109, 97, 110, 105, 102, 101, 115, 116, 115, 47]
  const JSON_SUFFIX: Text := [46, 106, 115, 111, 110]

  /** What the ceremony reads: each source directory's manifest file and content digest (none when it is
      missing or refused), and the honesty check. */
  datatype Ceremony = Ceremony(scheme: Scheme, key: RootKey, plugins: map<Text, Text>, digests: map<Text, Text>, honest: Fields -> bool)

  datatype RecipeEntry = RecipeEntry(id: Text, version: Json, source: Text, manifestPath: Text, manifestHash: Text,
                                     contentHash: Text, capabilities: seq<Text>, contracts: seq<Text>, bootPhase: int,
                                     config: Option<Json>)

  // ---- manifest file names ----

  predicate IsNameUnit(c: CodeUnit) {
    97 <= c <= 122 || 65 <= c <= 90 || 48 <= c <= 57 || c == 46 || c == 45
  }

  function Sanitised(id: Text): Text {
    seq(|id|, i requires 0 <= i < |id| => if IsNameUnit(id[i]) then id[i] else 95)
  }

  function ManifestPath(id: Text): Text {
    MANIFESTS_DIR + Sanitised(id) + JSON_SUFFIX
  }

  lemma PathsCollideIffNamesDo(a: Text, b: Text)
    ensures ManifestPath(a) == ManifestPath(b) <==> Sanitised(a) == Sanitised(b)
  {
    if ManifestPath(a) == ManifestPath(b) {
      var d := |MANIFESTS_DIR|;
      assert |a| == |b|;
      assert ManifestPath(a)[d..d + |a|] == Sanitised(a);
      assert ManifestPath(b)[d..d + |b|] == Sanitised(b);
    }
  }

  // ---- compile ----

  datatype Compiled = Compiled(manifest: Fields, text: Text, entry: RecipeEntry)

  /** `None` is any of the errors the ceremony stops on. */
  function CompileEntry(c: Ceremony, se: SpecEntry): Option<Compiled> {
    if se.source !in c.plugins then None
    else
      var m := ParseManifest(c.plugins[se.source]);
      if m.None? || Get(m.value, ID_KEY) != Str(se.id) || !c.honest(m.value) || se.source !in c.digests then None
      else
        ReadManifests(c.plugins[se.source]);
        SignedIsReadable(c.scheme, c.key, m.value, c.digests[se.source]);
        var signed := Signed(c.scheme, c.key, m.value, c.digests[se.source]);
        if signed.None? then None
        else
          var text := Pretty(Obj(signed.value), 0);
          Some(Compiled(signed.value, text,
                        RecipeEntry(se.id, Get(m.value, VERSION_KEY), se.source, ManifestPath(se.id), SHA256_PREFIX + c.scheme.hash(text),
                                    c.digests[se.source], se.capabilities, se.contracts, se.bootPhase, se.config)))
  }

  /** The files written and entries made so far; a failed entry stops the ceremony. */
  datatype Build = Build(files: map<Text, Text>, entries: seq<RecipeEntry>, failed: bool)

  function Add(c: Ceremony, b: Build, se: SpecEntry): Build {
    var r := CompileEntry(c, se);
    if b.failed then b
    else if r.None? then b.(failed := true)
    else Build(b.files[ManifestPath(se.id) := r.value.text], b.entries + [r.value.entry], false)
  }

  function CompileAll(c: Ceremony, files: map<Text, Text>, spec: seq<SpecEntry>): Build {
    if spec == [] then Build(files, [], false) else Add(c, CompileAll(c, files, spec[..|spec| - 1]), spec[|spec| - 1])
  }

  // ---- the entry check ----

  datatype EntryError = ManifestUnreadable | ManifestHashMismatch | SignatureInvalid | SourceMissing | ContentHashMismatch

  datatype EntryCheck = Thrown | Checked(manifest: Option<Fields>, errors: seq<EntryError>)

  function VerifyEntry(s: Scheme, digests: map<Text, Text>, files: map<Text, Text>, e: RecipeEntry, publicKey: Text): EntryCheck {
    if e.manifestPath !in files then Checked(None, [ManifestUnreadable])
    else
      var text := files[e.manifestPath];
      var m := ParseManifest(text);
      if m.None? then Thrown
      else
        Checked(m, (if SHA256_PREFIX + s.hash(text) != e.manifestHash then [ManifestHashMismatch] else [])
                   + (if !PublisherVerifies(s, m.value, publicKey) then [SignatureInvalid] else [])
                   + (if e.source !in digests then [SourceMissing]
                      else if digests[e.source] != e.contentHash then [ContentHashMismatch] else []))
  }

  predicate Passes(s: Scheme, digests: map<Text, Text>, files: map<Text, Text>, e: RecipeEntry, publicKey: Text) {
    var r := VerifyEntry(s, digests, files, e, publicKey);
    r.Checked? && r.errors == []
  }

  // ---- compiled entries verify ----

  lemma CompiledFacts(c: Ceremony, se: SpecEntry)
    requires KeyPair(c.scheme, c.key) && CompileEntry(c, se).Some?
    ensures var r := CompileEntry(c, se).value;
            && ParseManifest(r.text) == Some(r.manifest) && PublisherVerifies(c.scheme, r.manifest, c.key.publicKey)
            && Get(r.manifest, ID_KEY) == Str(se.id)
            && r.entry.manifestPath == ManifestPath(se.id) && r.entry.manifestHash == SHA256_PREFIX + c.scheme.hash(r.text)
            && r.entry.source == se.source && se.source in c.digests && r.entry.contentHash == c.digests[se.source]
  {
    hide KeyPair, Signed, Readable, PublisherVerifies, ParseManifest, Pretty, ManifestPath;
    ReadManifests(c.plugins[se.source]);
    SignedManifestVerifies(c.scheme, c.key, ParseManifest(c.plugins[se.source]).value, c.digests[se.source]);
  }

  lemma {:induction false} EntriesAre(c: Ceremony, files: map<Text, Text>, spec: seq<SpecEntry>)
    requires !CompileAll(c, files, spec).failed
    ensures |CompileAll(c, files, spec).entries| == |spec|
    ensures forall i | 0 <= i < |spec| ::
              CompileEntry(c, spec[i]).Some? && CompileAll(c, files, spec).entries[i] == CompileEntry(c, spec[i]).value.entry
  {
    hide CompileEntry;
    if spec != [] {
      EntriesAre(c, files, spec[..|spec| - 1]);
    }
  }

  /** The file at an entry's path is the one the last entry of that path wrote. */
  lemma {:induction false} LastWriter(c: Ceremony, files: map<Text, Text>, spec: seq<SpecEntry>, i: nat) returns (k: nat)
    requires !CompileAll(c, files, spec).failed && i < |spec|
    ensures i <= k < |spec| && ManifestPath(spec[k].id) == ManifestPath(spec[i].id)
    ensures forall l | k < l < |spec| :: ManifestPath(spec[l].id) != ManifestPath(spec[i].id)
    ensures var b := CompileAll(c, files, spec);
            && ManifestPath(spec[i].id) in b.files && CompileEntry(c, spec[k]).Some?
            && b.files[ManifestPath(spec[i].id)] == CompileEntry(c, spec[k]).value.text
  {
    hide CompileEntry, ManifestPath;
    var n := |spec| - 1;
    if ManifestPath(spec[n].id) == ManifestPath(spec[i].id) {
      k := n;
    } else {
      k := LastWriter(c, files, spec[..n], i);
      assert forall l | k < l < n :: spec[..n][l] == spec[l];
    }
  }

  predicate DistinctNames(spec: seq<SpecEntry>) {
    forall i, j | 0 <= i < j < |spec| :: Sanitised(spec[i].id) != Sanitised(spec[j].id)
  }

  predicate DistinctSpecIds(spec: seq<SpecEntry>) {
    forall i, j | 0 <= i < j < |spec| :: spec[i].id != spec[j].id
  }

  predicate NotOverwritten(spec: seq<SpecEntry>, i: nat)
    requires i < |spec|
  {
    forall j | i < j < |spec| :: Sanitised(spec[j].id) != Sanitised(spec[i].id)
  }

  /** An entry whose manifest file no later entry overwrote passes, whatever the hash. */
  lemma EntryPasses(c: Ceremony, files: map<Text, Text>, spec: seq<SpecEntry>, i: nat)
    requires KeyPair(c.scheme, c.key) && !CompileAll(c, files, spec).failed && i < |spec| && NotOverwritten(spec, i)
    ensures |CompileAll(c, files, spec).entries| == |spec|
    ensures Passes(c.scheme, c.digests, CompileAll(c, files, spec).files, CompileAll(c, files, spec).entries[i], c.key.publicKey)
  {
    hide CompileEntry, ManifestPath, CompileAll, PublisherVerifies, ParseManifest, KeyPair, Sanitised;
    EntriesAre(c, files, spec);
    var k := LastWriter(c, files, spec, i);
    CompiledFacts(c, spec[i]);
    PathsCollideIffNamesDo(spec[k].id, spec[i].id);
    assert k == i;
  }

  /** The last entry that writes the manifest file of entry `i`. */
  function LastOf(spec: seq<SpecEntry>, i: nat): (k: nat)
    requires i < |spec|
    ensures i <= k < |spec| && Sanitised(spec[k].id) == Sanitised(spec[i].id)
    ensures forall l | k < l < |spec| :: Sanitised(spec[l].id) != Sanitised(spec[i].id)
    decreases |spec|
  {
    var n := |spec| - 1;
    if Sanitised(spec[n].id) == Sanitised(spec[i].id) then n
    else
      var k := LastOf(spec[..n], i);
      assert forall l | k < l < n :: spec[..n][l] == spec[l];
      k
  }

  /** What an entry's manifest file holds in the end. */
  predicate HoldsOwnText(c: Ceremony, spec: seq<SpecEntry>, i: nat)
    requires i < |spec| && forall j | 0 <= j < |spec| :: CompileEntry(c, spec[j]).Some?
  {
    CompileEntry(c, spec[LastOf(spec, i)]).value.text == CompileEntry(c, spec[i]).value.text
  }

  lemma FileHoldsLast(c: Ceremony, files: map<Text, Text>, spec: seq<SpecEntry>, i: nat)
    requires !CompileAll(c, files, spec).failed && i < |spec|
    ensures var b, k := CompileAll(c, files, spec), LastOf(spec, i);
            && ManifestPath(spec[i].id) in b.files && CompileEntry(c, spec[k]).Some?
            && b.files[ManifestPath(spec[i].id)] == CompileEntry(c, spec[k]).value.text
  {
    hide CompileEntry, ManifestPath, CompileAll, Sanitised;
    var k := LastWriter(c, files, spec, i);
    PathsCollideIffNamesDo(spec[k].id, spec[i].id);
    PathsCollideIffNamesDo(spec[LastOf(spec, i)].id, spec[i].id);
    assert k == LastOf(spec, i);
  }

  /** An entry whose manifest file still holds its text passes, whatever the hash. */
  lemma OwnTextPasses(c: Ceremony, files: map<Text, Text>, spec: seq<SpecEntry>, i: nat)
    requires KeyPair(c.scheme, c.key) && !CompileAll(c, files, spec).failed && i < |spec|
    requires forall j | 0 <= j < |spec| :: CompileEntry(c, spec[j]).Some?
    requires HoldsOwnText(c, spec, i)
    ensures |CompileAll(c, files, spec).entries| == |spec|
    ensures Passes(c.scheme, c.digests, CompileAll(c, files, spec).files, CompileAll(c, files, spec).entries[i], c.key.publicKey)
  {
    hide CompileEntry, ManifestPath, CompileAll, PublisherVerifies, ParseManifest, KeyPair, Sanitised, LastOf;
    EntriesAre(c, files, spec);
    FileHoldsLast(c, files, spec, i);
    CompiledFacts(c, spec[i]);
  }

  /** Under an injective hash a compiled entry passes exactly when the last entry that wrote its manifest file
      wrote the same text. */
  lemma EntryPassesIff(c: Ceremony, files: map<Text, Text>, spec: seq<SpecEntry>, i: nat)
    requires KeyPair(c.scheme, c.key) && InjectiveHash(c.scheme) && !CompileAll(c, files, spec).failed && i < |spec|
    ensures |CompileAll(c, files, spec).entries| == |spec| && forall j | 0 <= j < |spec| :: CompileEntry(c, spec[j]).Some?
    ensures Passes(c.scheme, c.digests, CompileAll(c, files, spec).files, CompileAll(c, files, spec).entries[i], c.key.publicKey)
            <==> HoldsOwnText(c, spec, i)
  {
    hide CompileEntry, ManifestPath, CompileAll, PublisherVerifies, ParseManifest, KeyPair, Sanitised, LastOf;
    EntriesAre(c, files, spec);
    if HoldsOwnText(c, spec, i) {
      OwnTextPasses(c, files, spec, i);
    } else {
      FileHoldsLast(c, files, spec, i);
      CompiledFacts(c, spec[i]);
      PrefixedHashesDiffer(c.scheme, CompileEntry(c, spec[i]).value.text, CompileEntry(c, spec[LastOf(spec, i)]).value.text);
    }
  }

  /** With distinct ids an entry keeps its text exactly when no later entry has its file name: manifests hold
      their ids. */
  lemma OwnTextIffNotOverwritten(c: Ceremony, spec: seq<SpecEntry>, i: nat)
    requires KeyPair(c.scheme, c.key) && DistinctSpecIds(spec) && i < |spec|
    requires forall j | 0 <= j < |spec| :: CompileEntry(c, spec[j]).Some?
    ensures HoldsOwnText(c, spec, i) <==> NotOverwritten(spec, i)
  {
    hide CompileEntry, ManifestPath, PublisherVerifies, ParseManifest, KeyPair, Sanitised;
    var k := LastOf(spec, i);
    if k != i {
      CompiledFacts(c, spec[i]);
      CompiledFacts(c, spec[k]);
      assert spec[i].id != spec[k].id;
    }
  }

  lemma PrefixedHashesDiffer(s: Scheme, a: Text, b: Text)
    requires InjectiveHash(s) && a != b
    ensures SHA256_PREFIX + s.hash(a) != SHA256_PREFIX + s.hash(b)
  {
    var n := |SHA256_PREFIX|;
    assert (SHA256_PREFIX + s.hash(a))[n..] == s.hash(a) && (SHA256_PREFIX + s.hash(b))[n..] == s.hash(b);
  }

  ghost predicate AllPass(c: Ceremony, b: Build) {
    forall i | 0 <= i < |b.entries| :: Passes(c.scheme, c.digests, b.files, b.entries[i], c.key.publicKey)
  }

  /** With pairwise distinct manifest file names everything compiled passes the entry check, whatever the
      hash. */
  lemma CompiledPasses(c: Ceremony, files: map<Text, Text>, spec: seq<SpecEntry>)
    requires KeyPair(c.scheme, c.key) && DistinctNames(spec) && !CompileAll(c, files, spec).failed
    ensures AllPass(c, CompileAll(c, files, spec))
  {
    hide Passes, CompileAll, Sanitised, KeyPair;
    EntriesAre(c, files, spec);
    forall i | 0 <= i < |spec|
      ensures Passes(c.scheme, c.digests, CompileAll(c, files, spec).files, CompileAll(c, files, spec).entries[i], c.key.publicKey)
    {
      EntryPasses(c, files, spec, i);
    }
  }

  /** Under an injective hash everything compiled passes the entry check exactly when every manifest file still
      holds the text of each entry that wrote it. */
  lemma CompiledVerifiesIff(c: Ceremony, files: map<Text, Text>, spec: seq<SpecEntry>)
    requires KeyPair(c.scheme, c.key) && InjectiveHash(c.scheme) && !CompileAll(c, files, spec).failed
    ensures forall j | 0 <= j < |spec| :: CompileEntry(c, spec[j]).Some?
    ensures AllPass(c, CompileAll(c, files, spec)) <==> forall i | 0 <= i < |spec| :: HoldsOwnText(c, spec, i)
  {
    hide Passes, CompileAll, CompileEntry, KeyPair, InjectiveHash, HoldsOwnText;
    EntriesAre(c, files, spec);
    forall i | 0 <= i < |spec|
      ensures Passes(c.scheme, c.digests, CompileAll(c, files, spec).files, CompileAll(c, files, spec).entries[i], c.key.publicKey)
              <==> HoldsOwnText(c, spec, i)
    {
      EntryPassesIff(c, files, spec, i);
    }
  }

  /** For distinct ids that is exactly when the manifest file names are pairwise distinct. */
  lemma CompiledVerifiesIffNamesDistinct(c: Ceremony, files: map<Text, Text>, spec: seq<SpecEntry>)
    requires KeyPair(c.scheme, c.key) && InjectiveHash(c.scheme) && DistinctSpecIds(spec) && !CompileAll(c, files, spec).failed
    ensures AllPass(c, CompileAll(c, files, spec)) <==> DistinctNames(spec)
  {
    hide AllPass, CompileAll, CompileEntry, KeyPair, InjectiveHash, HoldsOwnText, Sanitised, DistinctSpecIds;
    CompiledVerifiesIff(c, files, spec);
    forall i | 0 <= i < |spec| ensures HoldsOwnText(c, spec, i) <==> NotOverwritten(spec, i) {
      OwnTextIffNotOverwritten(c, spec, i);
    }
    DistinctIffNoneOverwritten(spec);
  }

  lemma DistinctIffNoneOverwritten(spec: seq<SpecEntry>)
    ensures DistinctNames(spec) <==> forall i | 0 <= i < |spec| :: NotOverwritten(spec, i)
  {
    hide Sanitised;
    if forall i | 0 <= i < |spec| :: NotOverwritten(spec, i) {
      forall i, j | 0 <= i < j < |spec| ensures Sanitised(spec[i].id) != Sanitised(spec[j].id) {
        assert NotOverwritten(spec, i);
      }
    }
  }

  // ---- any ids can be compiled ----

  /** The manifest file with the mandatory fields alone. */
  function BareManifest(id: Text): Fields {
    [Member(MANIFEST_VERSION_KEY, Str(VERSION_1)), Member(ID_KEY, Str(id)), Member(ENTRY_KEY, Str(id))]
  }

  lemma BareIsPlain(id: Text)
    ensures Plain(Obj(BareManifest(id)))
  {
    assert |MANIFEST_VERSION_KEY| == 15 && |ID_KEY| == 2 && |ENTRY_KEY| == 5;
  }

  function BareText(id: Text): Text {
    BareIsPlain(id);
    Pretty(Obj(BareManifest(id)), 0)
  }

  /** Each entry has a directory named by its id, with a bare manifest. */
  function BareCeremony(s: Scheme, key: RootKey, ids: seq<Text>): Ceremony {
    Ceremony(s, key, map id | id in ids :: BareText(id), map id | id in ids :: [], _ => true)
  }

  function BareSpec(ids: seq<Text>): seq<SpecEntry> {
    seq(|ids|, i requires 0 <= i < |ids| => SpecEntry(ids[i], ids[i], 1, [], [], None))
  }

  lemma BareManifestReads(id: Text)
    requires id != []
    ensures ParseManifest(BareText(id)).Some? && Get(ParseManifest(BareText(id)).value, ID_KEY) == Str(id)
  {
    hide Pretty, Plain, Defaults;
    var m := BareManifest(id);
    BareIsPlain(id);
    PrettyReadsBack(Obj(m));
    BareFields(id);
    KeysDiffer();
    GetSet(m, CONTENT_HASH_KEY, Str([]), ID_KEY);
    FillAllKeeps(WithContentHash(m), Defaults(), ID_KEY);
  }

  lemma BareFields(id: Text)
    ensures var m := BareManifest(id);
            Get(m, MANIFEST_VERSION_KEY) == Str(VERSION_1) && Get(m, ID_KEY) == Str(id) && Get(m, ENTRY_KEY) == Str(id)
  {
    var m := BareManifest(id);
    BareIsPlain(id);
    GetAt(m, 0);
    GetAt(m, 1);
    GetAt(m, 2);
  }

  lemma BareEntryCompiles(s: Scheme, key: RootKey, ids: seq<Text>, i: nat)
    requires KeyPair(s, key) && i < |ids| && ids[i] != []
    ensures CompileEntry(BareCeremony(s, key, ids), BareSpec(ids)[i]).Some?
  {
    hide ParseManifest, BareText, Signed, Readable, KeyPair, Pretty;
    var c := BareCeremony(s, key, ids);
    assert ids[i] in c.plugins && c.plugins[ids[i]] == BareText(ids[i]);
    BareManifestReads(ids[i]);
    ReadManifests(BareText(ids[i]));
    SignedManifestVerifies(s, key, ParseManifest(BareText(ids[i])).value, []);
  }

  lemma {:induction false} CompilesEach(c: Ceremony, files: map<Text, Text>, spec: seq<SpecEntry>)
    requires forall i | 0 <= i < |spec| :: CompileEntry(c, spec[i]).Some?
    ensures !CompileAll(c, files, spec).failed
  {
    hide CompileEntry;
    if spec != [] {
      CompilesEach(c, files, spec[..|spec| - 1]);
    }
  }

  /** Any list of non-empty ids has a ceremony that compiles it. */
  lemma AnyIdsCompile(s: Scheme, key: RootKey, ids: seq<Text>)
    requires KeyPair(s, key) && forall i | 0 <= i < |ids| :: ids[i] != []
    ensures !CompileAll(BareCeremony(s, key, ids), map[], BareSpec(ids)).failed
  {
    hide CompileEntry, BareCeremony, KeyPair;
    forall i | 0 <= i < |ids| ensures CompileEntry(BareCeremony(s, key, ids), BareSpec(ids)[i]).Some? {
      BareEntryCompiles(s, key, ids, i);
    }
    CompilesEach(BareCeremony(s, key, ids), map[], BareSpec(ids));
  }

  /** So a ceremony can succeed on distinct ids, such as "a b" and "a_b", and emit an entry that fails. */
  lemma CompiledEntryCanFail(s: Scheme, key: RootKey)
    requires KeyPair(s, key) && InjectiveHash(s)
    ensures var ids: seq<Text> := [[97, 32, 98], [97, 95, 98]];
            var b := CompileAll(BareCeremony(s, key, ids), map[], BareSpec(ids));
            DistinctSpecIds(BareSpec(ids)) && !b.failed && !AllPass(BareCeremony(s, key, ids), b)
  {
    hide AllPass, CompileAll, KeyPair, InjectiveHash;
    var ids: seq<Text> := [[97, 32, 98], [97, 95, 98]];
    var spec := BareSpec(ids);
    assert ids[0][1] != ids[1][1];
    assert DistinctSpecIds(spec);
    assert Sanitised(spec[0].id) == Sanitised(spec[1].id);
    AnyIdsCompile(s, key, ids);
    CompiledVerifiesIffNamesDistinct(BareCeremony(s, key, ids), map[], spec);
  }

  // ---- the recipe ----

  function RecipeEntryValue(e: RecipeEntry): Json {
    var base := [Member(ID_KEY, Str(e.id)), Member(VERSION_KEY, e.version), Member(SOURCE_KEY, Str(e.source)),
                 Member(MANIFEST_PATH_KEY, Str(e.manifestPath)), Member(MANIFEST_HASH_KEY, Str(e.manifestHash)),
                 Member(CONTENT_HASH_KEY, Str(e.contentHash)), Member(GRANT_KEY, GrantValue(e.capabilities, e.contracts)),
                 Member(BOOT_PHASE_KEY, Num(e.bootPhase))];
    Obj(if e.config.Some? then base + [Member(CONFIG_KEY, e.config.value)] else base)
  }

  function GrantValue(capabilities: seq<Text>, contracts: seq<Text>): Json {
    Obj([Member(CAPABILITIES_KEY, Strings(capabilities)), Member(CONTRACTS_KEY, Strings(contracts))])
  }

  function UnsignedRecipe(name: Text, entries: seq<RecipeEntry>, key: RootKey): Fields {
    [Member(RECIPE_VERSION_KEY, Num(1)), Member(HASH_ALGO_KEY, Str(SHA256)), Member(NAME_KEY, Str(name)),
     Member(COMPOSITION_KEY, Arr(seq(|entries|, i requires 0 <= i < |entries| => RecipeEntryValue(entries[i])))),
     Member(ROOT_OF_TRUST_KEY, Obj([Member(KEY_ID_KEY, Str(key.keyId)), Member(PUBLIC_KEY_KEY, Str(key.publicKey))]))]
  }

  function SignRecipe(s: Scheme, key: RootKey, unsigned: Fields): Option<Fields> {
    var signature := SignJson(s, Obj(unsigned), key.privateKey);
    if signature.None? then None else Some(unsigned + [Member(SIGNATURE_KEY, Str(signature.value))])
  }

  /** Checks the recipe without its signature under the key the recipe names; the reader has made sure that
      key and signature are strings. */
  function VerifyRecipeSignature(s: Scheme, recipe: Fields): bool {
    var publicKey, signature := Field(Get(recipe, ROOT_OF_TRUST_KEY), PUBLIC_KEY_KEY), Get(recipe, SIGNATURE_KEY);
    publicKey.Str? && signature.Str? && VerifyJson(s, Obj(DropKey(recipe, SIGNATURE_KEY)), publicKey.s, signature.s)
  }

  predicate GoodVersion(v: Json) {
    v == Undef || (Supported(v) && WellFormed(v))
  }

  predicate GoodEntry(e: RecipeEntry) {
    GoodVersion(e.version) && (e.config.Some? ==> Plain(e.config.value))
  }

  lemma EntryKeysDiffer()
    ensures DistinctTexts([ID_KEY, VERSION_KEY, SOURCE_KEY, MANIFEST_PATH_KEY, MANIFEST_HASH_KEY, CONTENT_HASH_KEY, GRANT_KEY,
                           BOOT_PHASE_KEY, CONFIG_KEY])
  {
  }

  lemma GrantPlain(capabilities: seq<Text>, contracts: seq<Text>)
    ensures Plain(GrantValue(capabilities, contracts))
  {
  }

  lemma DistinctByKeys(ms: Fields, keys: seq<Text>)
    requires DistinctTexts(keys) && |ms| <= |keys| && forall i | 0 <= i < |ms| :: ms[i].key == keys[i]
    ensures DistinctKeys(ms)
  {
  }

  predicate SignableMember(m: Member) {
    WellFormed(m.value) && (m.value == Undef || Supported(m.value))
  }

  lemma SignableObject(ms: Fields)
    requires DistinctKeys(ms) && forall i | 0 <= i < |ms| :: SignableMember(ms[i])
    ensures Supported(Obj(ms)) && WellFormed(Obj(ms))
  {
  }

  lemma EntryIsSignable(e: RecipeEntry)
    requires GoodEntry(e)
    ensures Supported(RecipeEntryValue(e)) && WellFormed(RecipeEntryValue(e))
  {
    EntryKeysDiffer();
    EntryMembersAre(e);
    hide GrantValue, SignableMember, DistinctTexts, DistinctKeys;
    var ms := RecipeEntryValue(e).members;
    var keys := [ID_KEY, VERSION_KEY, SOURCE_KEY, MANIFEST_PATH_KEY, MANIFEST_HASH_KEY, CONTENT_HASH_KEY, GRANT_KEY, BOOT_PHASE_KEY, CONFIG_KEY];
    assert forall i | 0 <= i < |ms| :: ms[i].key == keys[i];
    DistinctByKeys(ms, keys);
    SignableObject(ms);
  }

  lemma EntryMembersAre(e: RecipeEntry)
    requires GoodEntry(e)
    ensures forall i | 0 <= i < |RecipeEntryValue(e).members| :: SignableMember(RecipeEntryValue(e).members[i])
  {
    GrantPlain(e.capabilities, e.contracts);
    PlainIsSupported(GrantValue(e.capabilities, e.contracts));
    if e.config.Some? {
      PlainIsSupported(e.config.value);
      assert SignableMember(Member(CONFIG_KEY, e.config.value));
    }
    assert SignableMember(Member(VERSION_KEY, e.version));
    assert SignableMember(Member(GRANT_KEY, GrantValue(e.capabilities, e.contracts)));
    forall k: Text, t: Text ensures SignableMember(Member(k, Str(t))) {
    }
    assert SignableMember(Member(BOOT_PHASE_KEY, Num(e.bootPhase)));
    hide SignableMember, GrantValue, Plain;
  }

  lemma RecipeIsSignable(name: Text, entries: seq<RecipeEntry>, key: RootKey)
    requires forall i | 0 <= i < |entries| :: GoodEntry(entries[i])
    ensures Supported(Obj(UnsignedRecipe(name, entries, key))) && WellFormed(Obj(UnsignedRecipe(name, entries, key)))
    ensures Get(UnsignedRecipe(name, entries, key), SIGNATURE_KEY) == Undef
    ensures Get(UnsignedRecipe(name, entries, key), ROOT_OF_TRUST_KEY)
            == Obj([Member(KEY_ID_KEY, Str(key.keyId)), Member(PUBLIC_KEY_KEY, Str(key.publicKey))])
  {
    forall i | 0 <= i < |entries| ensures Supported(RecipeEntryValue(entries[i])) && WellFormed(RecipeEntryValue(entries[i])) {
      EntryIsSignable(entries[i]);
    }
    RecipeKeysDiffer();
    hide RecipeEntryValue;
    var u := UnsignedRecipe(name, entries, key);
    assert Supported(u[3].value) && WellFormed(u[3].value);
    RootIsSignable(key);
    assert DistinctKeys(u);
    GetAt(u, 4);
    GetMissing(u, SIGNATURE_KEY);
  }

  lemma RootIsSignable(key: RootKey)
    ensures var root := Obj([Member(KEY_ID_KEY, Str(key.keyId)), Member(PUBLIC_KEY_KEY, Str(key.publicKey))]);
            Supported(root) && WellFormed(root)
  {
  }

  lemma RecipeKeysDiffer()
    ensures DistinctTexts([RECIPE_VERSION_KEY, HASH_ALGO_KEY, NAME_KEY, COMPOSITION_KEY, ROOT_OF_TRUST_KEY, SIGNATURE_KEY])
    ensures KEY_ID_KEY != PUBLIC_KEY_KEY
  {
  }

  lemma {:induction false} AppendedField(ms: Fields, k: Text, v: Json, l: Text)
    requires forall i | 0 <= i < |ms| :: ms[i].key != k
    ensures DropKey(ms + [Member(k, v)], k) == ms
    ensures Get(ms + [Member(k, v)], l) == if l == k then v else Get(ms, l)
  {
    if ms == [] {
      assert ms + [Member(k, v)] == [Member(k, v)];
    } else {
      assert (ms + [Member(k, v)])[1..] == ms[1..] + [Member(k, v)];
      AppendedField(ms[1..], k, v, l);
    }
  }

  /** A signed recipe verifies under the key it names. */
  lemma SignedRecipeVerifies(s: Scheme, key: RootKey, name: Text, entries: seq<RecipeEntry>)
    requires KeyPair(s, key) && forall i | 0 <= i < |entries| :: GoodEntry(entries[i])
    ensures SignRecipe(s, key, UnsignedRecipe(name, entries, key)).Some?
    ensures VerifyRecipeSignature(s, SignRecipe(s, key, UnsignedRecipe(name, entries, key)).value)
  {
    var u := UnsignedRecipe(name, entries, key);
    RecipeIsSignable(name, entries, key);
    SelfSame(Obj(u));
    SignedVerifies(s, key, Obj(u), Obj(u));
    var signature := Str(SignJson(s, Obj(u), key.privateKey).value);
    RecipeKeysDiffer();
    NotThere(u, name, entries, key);
    AppendedField(u, SIGNATURE_KEY, signature, SIGNATURE_KEY);
    AppendedField(u, SIGNATURE_KEY, signature, ROOT_OF_TRUST_KEY);
    RootFields(key);
    hide UnsignedRecipe, SignJson, VerifyJson, KeyPair, GoodEntry;
  }

  lemma NotThere(u: Fields, name: Text, entries: seq<RecipeEntry>, key: RootKey)
    requires u == UnsignedRecipe(name, entries, key)
    ensures forall i | 0 <= i < |u| :: u[i].key != SIGNATURE_KEY
    ensures ROOT_OF_TRUST_KEY != SIGNATURE_KEY
  {
  }

  lemma RootFields(key: RootKey)
    ensures Field(Obj([Member(KEY_ID_KEY, Str(key.keyId)), Member(PUBLIC_KEY_KEY, Str(key.publicKey))]), PUBLIC_KEY_KEY) == Str(key.publicKey)
  {
    RecipeKeysDiffer();
    var ms := [Member(KEY_ID_KEY, Str(key.keyId)), Member(PUBLIC_KEY_KEY, Str(key.publicKey))];
    assert ms[1..] == [Member(PUBLIC_KEY_KEY, Str(key.publicKey))];
    assert Get(ms[1..], PUBLIC_KEY_KEY) == Str(key.publicKey);
  }

  lemma CompiledEntryIsGood(c: Ceremony, se: SpecEntry)
    requires CompileEntry(c, se).Some? && (se.config.Some? ==> Plain(se.config.value))
    ensures GoodEntry(CompileEntry(c, se).value.entry)
  {
    ReadManifests(c.plugins[se.source]);
    PlainIsSupported(Obj(ParseManifest(c.plugins[se.source]).value));
    GetGood(ParseManifest(c.plugins[se.source]).value, VERSION_KEY);
  }

  lemma {:induction false} GetGood(ms: Fields, k: Text)
    requires forall i | 0 <= i < |ms| :: GoodVersion(ms[i].value)
    ensures GoodVersion(Get(ms, k))
  {
    if ms != [] && ms[0].key != k {
      GetGood(ms[1..], k);
    }
  }

  /** The recipe the ceremony emits verifies, whatever the sources held. */
  lemma CompiledRecipeVerifies(c: Ceremony, files: map<Text, Text>, name: Text, spec: seq<SpecEntry>)
    requires KeyPair(c.scheme, c.key) && ConfigsPlain(spec) && !CompileAll(c, files, spec).failed
    ensures var r := SignRecipe(c.scheme, c.key, UnsignedRecipe(name, CompileAll(c, files, spec).entries, c.key));
            r.Some? && VerifyRecipeSignature(c.scheme, r.value)
  {
    hide CompileAll, CompileEntry, GoodEntry, KeyPair, UnsignedRecipe, SignRecipe, VerifyRecipeSignature;
    EntriesAre(c, files, spec);
    forall i | 0 <= i < |spec| ensures GoodEntry(CompileAll(c, files, spec).entries[i]) {
      CompiledEntryIsGood(c, spec[i]);
    }
    SignedRecipeVerifies(c.scheme, c.key, name, CompileAll(c, files, spec).entries);
  }

  /** The recipe file as written: undefined versions are left out. */
  function WrittenRecipe(recipe: Fields): Json {
    Stringified(Obj(recipe))
  }

  /** The written recipe reads back to the recipe without its undefined members, and still verifies. */
  lemma WrittenRecipeVerifies(s: Scheme, key: RootKey, name: Text, entries: seq<RecipeEntry>)
    requires KeyPair(s, key) && forall i | 0 <= i < |entries| :: GoodEntry(entries[i])
    ensures SignRecipe(s, key, UnsignedRecipe(name, entries, key)).Some?
    ensures var written := WrittenRecipe(SignRecipe(s, key, UnsignedRecipe(name, entries, key)).value);
            && Plain(written) && written.Obj? && Parse(Pretty(written, 0)) == Some(written)
            && VerifyRecipeSignature(s, written.members)
  {
    hide KeyPair, UnsignedRecipe, SignJson, VerifyJson, Plain, WellFormed, Supported, Same, GoodEntry, VerifyRecipeSignature, WrittenRecipe;
    var u := UnsignedRecipe(name, entries, key);
    RecipeIsSignable(name, entries, key);
    StringifiedIsSame(Obj(u));
    PlainIsSupported(Stringified(Obj(u)));
    SignedVerifies(s, key, Obj(u), Stringified(Obj(u)));
    NotThere(u, name, entries, key);
    RecipeKept(name, entries, key);
    var signature := SignJson(s, Obj(u), key.privateKey).value;
    WrittenVerifies(s, key, u, signature);
    var written := WrittenRecipe(u + [Member(SIGNATURE_KEY, Str(signature))]);
    PrettyReadsBack(written);
  }

  lemma RecipeKept(name: Text, entries: seq<RecipeEntry>, key: RootKey)
    requires WellFormed(Obj(UnsignedRecipe(name, entries, key)))
    requires Get(UnsignedRecipe(name, entries, key), ROOT_OF_TRUST_KEY)
             == Obj([Member(KEY_ID_KEY, Str(key.keyId)), Member(PUBLIC_KEY_KEY, Str(key.publicKey))])
    ensures var u := UnsignedRecipe(name, entries, key);
            && (forall i | 0 <= i < |KeepDefined(u)| :: exists j :: 0 <= j < |u| && KeepDefined(u)[i].key == u[j].key)
            && Get(KeepDefined(u), ROOT_OF_TRUST_KEY) == Obj([Member(KEY_ID_KEY, Str(key.keyId)), Member(PUBLIC_KEY_KEY, Str(key.publicKey))])
            && Stringified(Obj(u)).Obj?
  {
    var u := UnsignedRecipe(name, entries, key);
    hide UnsignedRecipe, KeepDefined;
    KeptKeys(u);
    KeptValue(u, ROOT_OF_TRUST_KEY);
    RootKept(key);
  }

  lemma RootKept(key: RootKey)
    ensures var root := Obj([Member(KEY_ID_KEY, Str(key.keyId)), Member(PUBLIC_KEY_KEY, Str(key.publicKey))]);
            Stringified(root) == root
  {
    var ms := [Member(KEY_ID_KEY, Str(key.keyId)), Member(PUBLIC_KEY_KEY, Str(key.publicKey))];
    var last := [Member(PUBLIC_KEY_KEY, Str(key.publicKey))];
    assert ms[1..] == last && last[1..] == [];
    assert KeepDefined([]) == [] && KeepDefined(last) == last;
    assert KeepDefined(ms) == [Member(KEY_ID_KEY, Str(key.keyId))] + KeepDefined(last);
  }

  lemma WrittenVerifies(s: Scheme, key: RootKey, u: Fields, signature: Text)
    requires Stringified(Obj(u)).Obj? && Plain(Stringified(Obj(u))) && VerifyJson(s, Stringified(Obj(u)), key.publicKey, signature)
    requires forall i | 0 <= i < |KeepDefined(u)| :: exists j :: 0 <= j < |u| && KeepDefined(u)[i].key == u[j].key
    requires forall j | 0 <= j < |u| :: u[j].key != SIGNATURE_KEY
    requires ROOT_OF_TRUST_KEY != SIGNATURE_KEY
    requires Get(KeepDefined(u), ROOT_OF_TRUST_KEY) == Obj([Member(KEY_ID_KEY, Str(key.keyId)), Member(PUBLIC_KEY_KEY, Str(key.publicKey))])
    ensures var written := WrittenRecipe(u + [Member(SIGNATURE_KEY, Str(signature))]);
            written.Obj? && Plain(written) && VerifyRecipeSignature(s, written.members)
  {
    hide VerifyJson;
    var kept := KeepDefined(u);
    KeepAppend(u, Member(SIGNATURE_KEY, Str(signature)));
    AppendedField(kept, SIGNATURE_KEY, Str(signature), SIGNATURE_KEY);
    AppendedField(kept, SIGNATURE_KEY, Str(signature), ROOT_OF_TRUST_KEY);
    RootFields(key);
    hide KeepDefined;
    assert Plain(Str(signature)) by { PlainString(signature); }
    AppendPlain(kept, Member(SIGNATURE_KEY, Str(signature)));
  }

  lemma AppendPlain(ms: Fields, m: Member)
    requires Plain(Obj(ms)) && Plain(m.value) && forall i | 0 <= i < |ms| :: ms[i].key != m.key
    ensures Plain(Obj(ms + [m]))
  {
    assert forall i | 0 <= i < |ms| :: (ms + [m])[i] == ms[i];
  }

  /** So the recipe file a ceremony writes is one that boot accepts. */
  lemma CompiledRecipeFileVerifies(c: Ceremony, files: map<Text, Text>, name: Text, spec: seq<SpecEntry>)
    requires KeyPair(c.scheme, c.key) && ConfigsPlain(spec) && !CompileAll(c, files, spec).failed
    ensures SignRecipe(c.scheme, c.key, UnsignedRecipe(name, CompileAll(c, files, spec).entries, c.key)).Some?
    ensures var written := WrittenRecipe(SignRecipe(c.scheme, c.key, UnsignedRecipe(name, CompileAll(c, files, spec).entries, c.key)).value);
            && Plain(written) && written.Obj? && Parse(Pretty(written, 0)) == Some(written)
            && VerifyRecipeSignature(c.scheme, written.members)
  {
    hide CompileAll, CompileEntry, GoodEntry, KeyPair, UnsignedRecipe, SignRecipe, VerifyRecipeSignature, WrittenRecipe, Pretty;
    EntriesAre(c, files, spec);
    forall i | 0 <= i < |spec| ensures GoodEntry(CompileAll(c, files, spec).entries[i]) {
      CompiledEntryIsGood(c, spec[i]);
    }
    WrittenRecipeVerifies(c.scheme, c.key, name, CompileAll(c, files, spec).entries);
  }

  // ---- what is accepted was signed ----

  /** An accepted recipe file whose signature exists is, up to key order, one that was signed. */
  lemma AcceptedRecipeWasSigned(s: Scheme, known: set<Text>, signed: seq<Json>, recipe: Fields, publicKey: Text)
    requires Plain(Obj(recipe)) && Field(Get(recipe, ROOT_OF_TRUST_KEY), PUBLIC_KEY_KEY) == Str(publicKey)
    requires Unforgeable(s, publicKey, known, SignedTexts(signed)) && forall w | w in signed :: WellFormed(w)
    requires VerifyRecipeSignature(s, recipe) && Get(recipe, SIGNATURE_KEY).s in known
    ensures WasSigned(signed, Obj(DropKey(recipe, SIGNATURE_KEY)))
  {
    var rest := DropKey(recipe, SIGNATURE_KEY);
    DropKeyFacts(recipe, SIGNATURE_KEY);
    forall i | 0 <= i < |rest| ensures Plain(rest[i].value) {
      assert rest[i] in recipe;
    }
    PlainIsSupported(Obj(rest));
    VerifiedWasSigned(s, publicKey, known, signed, Obj(rest), Get(recipe, SIGNATURE_KEY).s);
  }

  /** An entry that passes has its manifest in a file and over sources with the recorded digests. */
  lemma AcceptedEntryWasSigned(s: Scheme, digests: map<Text, Text>, files: map<Text, Text>, e: RecipeEntry, publicKey: Text,
                               known: set<Text>, signed: seq<Json>)
    requires Unforgeable(s, publicKey, known, SignedTexts(signed)) && forall w | w in signed :: WellFormed(w)
    requires Passes(s, digests, files, e, publicKey)
    ensures e.manifestPath in files && SHA256_PREFIX + s.hash(files[e.manifestPath]) == e.manifestHash
    ensures e.source in digests && digests[e.source] == e.contentHash
    ensures ParseManifest(files[e.manifestPath]).Some?
    ensures PresentedSignature(ParseManifest(files[e.manifestPath]).value) in known ==>
              WasSigned(signed, Obj(Blanked(ParseManifest(files[e.manifestPath]).value)))
  {
    hide Unforgeable, WasSigned, Blanked, PublisherVerifies, ParseManifest, PresentedSignature;
    var m := ParseManifest(files[e.manifestPath]);
    if m.Some? && PresentedSignature(m.value) in known {
      AcceptedManifestWasSigned(s, publicKey, known, signed, files[e.manifestPath]);
    }
  }

  // ---- what the ceremony signs ----

  /** The manifest of an entry as it is signed. */
  function UnsignedManifest(c: Ceremony, se: SpecEntry): Fields
    requires CompileEntry(c, se).Some?
  {
    Unsigned(ParseManifest(c.plugins[se.source]).value, c.digests[se.source], c.key.keyId)
  }

  /** Every value the root key signs in one ceremony: the manifests, then the recipe. */
  function CeremonySigns(c: Ceremony, files: map<Text, Text>, name: Text, spec: seq<SpecEntry>): seq<Json>
    requires forall i | 0 <= i < |spec| :: CompileEntry(c, spec[i]).Some?
  {
    seq(|spec|, i requires 0 <= i < |spec| => Obj(UnsignedManifest(c, spec[i])))
    + [Obj(UnsignedRecipe(name, CompileAll(c, files, spec).entries, c.key))]
  }

  lemma SignedOne(s: Scheme, key: RootKey, signed: seq<Json>, w: Json)
    requires w in signed && SignJson(s, w, key.privateKey).Some?
    ensures SignJson(s, w, key.privateKey).value in SignaturesOf(s, key, signed)
  {
  }

  /** Every manifest of a ceremony carries a signature the root key made over that manifest. */
  lemma ManifestIsSigned(c: Ceremony, files: map<Text, Text>, name: Text, spec: seq<SpecEntry>, i: nat)
    requires i < |spec| && forall i | 0 <= i < |spec| :: CompileEntry(c, spec[i]).Some?
    ensures var signed := CeremonySigns(c, files, name, spec);
            && Obj(UnsignedManifest(c, spec[i])) in signed && WellFormed(Obj(UnsignedManifest(c, spec[i])))
            && PresentedSignature(CompileEntry(c, spec[i]).value.manifest) in SignaturesOf(c.scheme, c.key, signed)
  {
    hide CompileAll, CompileEntry, UnsignedRecipe, UnsignedManifest, SignJson, PresentedSignature, SignaturesOf, WellFormed;
    var signed := CeremonySigns(c, files, name, spec);
    assert signed[i] == Obj(UnsignedManifest(c, spec[i])) && signed[i] in signed;
    hide CeremonySigns;
    ManifestSignature(c, spec[i]);
    SignedOne(c.scheme, c.key, signed, Obj(UnsignedManifest(c, spec[i])));
  }

  /** So does its recipe. */
  lemma RecipeIsSigned(c: Ceremony, files: map<Text, Text>, name: Text, spec: seq<SpecEntry>)
    requires KeyPair(c.scheme, c.key) && ConfigsPlain(spec) && !CompileAll(c, files, spec).failed
    ensures forall i | 0 <= i < |spec| :: CompileEntry(c, spec[i]).Some?
    ensures var signed, u := CeremonySigns(c, files, name, spec), UnsignedRecipe(name, CompileAll(c, files, spec).entries, c.key);
            && Obj(u) in signed && WellFormed(Obj(u)) && SignRecipe(c.scheme, c.key, u).Some?
            && Get(SignRecipe(c.scheme, c.key, u).value, SIGNATURE_KEY).Str?
            && Get(SignRecipe(c.scheme, c.key, u).value, SIGNATURE_KEY).s in SignaturesOf(c.scheme, c.key, signed)
  {
    hide CompileAll, CompileEntry, GoodEntry, KeyPair, UnsignedRecipe, UnsignedManifest, SignJson, SignRecipe, SignaturesOf, VerifyRecipeSignature;
    hide WellFormed, Supported;
    EntriesAre(c, files, spec);
    var signed, entries := CeremonySigns(c, files, name, spec), CompileAll(c, files, spec).entries;
    assert signed[|spec|] == Obj(UnsignedRecipe(name, entries, c.key)) && signed[|spec|] in signed;
    hide CeremonySigns;
    forall i | 0 <= i < |spec| ensures GoodEntry(entries[i]) {
      CompiledEntryIsGood(c, spec[i]);
    }
    RecipeIsSignable(name, entries, c.key);
    SignedRecipeVerifies(c.scheme, c.key, name, entries);
    RecipeSignature(c.scheme, c.key, name, entries);
    SignedOne(c.scheme, c.key, signed, Obj(UnsignedRecipe(name, entries, c.key)));
  }

  lemma ManifestSignature(c: Ceremony, se: SpecEntry)
    requires CompileEntry(c, se).Some?
    ensures WellFormed(Obj(UnsignedManifest(c, se)))
    ensures SignJson(c.scheme, Obj(UnsignedManifest(c, se)), c.key.privateKey)
            == Some(PresentedSignature(CompileEntry(c, se).value.manifest))
  {
    hide Readable, SignJson, Blanked, ParseManifest;
    var m := ParseManifest(c.plugins[se.source]).value;
    ReadManifests(c.plugins[se.source]);
    UnsignedIsReadable(m, c.digests[se.source], c.key.keyId, []);
    ReadableIsPlain(UnsignedManifest(c, se));
    PlainIsSupported(Obj(UnsignedManifest(c, se)));
    BlankedSigned(m, c.digests[se.source], c.key.keyId, SignJson(c.scheme, Obj(UnsignedManifest(c, se)), c.key.privateKey).value);
  }

  lemma RecipeSignature(s: Scheme, key: RootKey, name: Text, entries: seq<RecipeEntry>)
    requires SignRecipe(s, key, UnsignedRecipe(name, entries, key)).Some?
    ensures Get(SignRecipe(s, key, UnsignedRecipe(name, entries, key)).value, SIGNATURE_KEY).Str?
    ensures SignJson(s, Obj(UnsignedRecipe(name, entries, key)), key.privateKey)
            == Some(Get(SignRecipe(s, key, UnsignedRecipe(name, entries, key)).value, SIGNATURE_KEY).s)
  {
    hide SignJson, UnsignedRecipe;
    var u := UnsignedRecipe(name, entries, key);
    NotThere(u, name, entries, key);
    AppendedField(u, SIGNATURE_KEY, Str(SignJson(s, Obj(u), key.privateKey).value), SIGNATURE_KEY);
  }

  // ---- after a ceremony only what it compiled is accepted ----

  /** Values that are the same have the same defined properties. */
  lemma SameFields(a: Fields, b: Fields, k: Text)
    requires Same(Obj(a), Obj(b))
    ensures Get(a, k) != Undef <==> Get(b, k) != Undef
  {
    GetIsLookup(a, k);
    GetIsLookup(b, k);
  }

  lemma RecipeHasNoManifestVersion(name: Text, entries: seq<RecipeEntry>, key: RootKey)
    ensures Get(UnsignedRecipe(name, entries, key), MANIFEST_VERSION_KEY) == Undef
  {
    var u := UnsignedRecipe(name, entries, key);
    assert |MANIFEST_VERSION_KEY| == 15 && |RECIPE_VERSION_KEY| == 13 && |HASH_ALGO_KEY| == 8 && |NAME_KEY| == 4
           && |COMPOSITION_KEY| == 11 && |ROOT_OF_TRUST_KEY| == 11;
    GetMissing(u, MANIFEST_VERSION_KEY);
  }

  lemma ManifestHasVersion(m: Fields)
    requires Readable(m)
    ensures Get(Blanked(m), MANIFEST_VERSION_KEY) != Undef
  {
    KeysDiffer();
    GetSet(m, PUBLISHER_KEY, PublisherValue(Field(Get(m, PUBLISHER_KEY), KEY_ID_KEY), []), MANIFEST_VERSION_KEY);
  }

  lemma UnsignedHasVersion(c: Ceremony, se: SpecEntry)
    requires CompileEntry(c, se).Some?
    ensures Get(UnsignedManifest(c, se), MANIFEST_VERSION_KEY) != Undef
  {
    hide Readable;
    ReadManifests(c.plugins[se.source]);
    UnsignedIsReadable(ParseManifest(c.plugins[se.source]).value, c.digests[se.source], c.key.keyId, []);
    ReadableHasVersion(UnsignedManifest(c, se));
  }

  lemma ReadableHasVersion(m: Fields)
    requires Readable(m)
    ensures Get(m, MANIFEST_VERSION_KEY) != Undef
  {
  }

  lemma CeremonyMember(c: Ceremony, files: map<Text, Text>, name: Text, spec: seq<SpecEntry>, w: Json)
    requires forall i | 0 <= i < |spec| :: CompileEntry(c, spec[i]).Some?
    requires w in CeremonySigns(c, files, name, spec)
    ensures w == Obj(UnsignedRecipe(name, CompileAll(c, files, spec).entries, c.key))
            || exists i :: 0 <= i < |spec| && w == Obj(UnsignedManifest(c, spec[i]))
  {
    hide CompileAll, CompileEntry, UnsignedRecipe, UnsignedManifest;
    var signed := CeremonySigns(c, files, name, spec);
    var i :| 0 <= i < |signed| && signed[i] == w;
  }

  lemma CeremonyWellFormed(c: Ceremony, files: map<Text, Text>, name: Text, spec: seq<SpecEntry>)
    requires KeyPair(c.scheme, c.key) && ConfigsPlain(spec) && !CompileAll(c, files, spec).failed
    ensures forall i | 0 <= i < |spec| :: CompileEntry(c, spec[i]).Some?
    ensures forall w | w in CeremonySigns(c, files, name, spec) :: WellFormed(w)
  {
    hide CompileAll, CompileEntry, UnsignedRecipe, UnsignedManifest, CeremonySigns, WellFormed, KeyPair, SignaturesOf, SignRecipe;
    RecipeIsSigned(c, files, name, spec);
    forall w | w in CeremonySigns(c, files, name, spec) ensures WellFormed(w) {
      CeremonyMember(c, files, name, spec, w);
      if i :| 0 <= i < |spec| && w == Obj(UnsignedManifest(c, spec[i])) {
        ManifestIsSigned(c, files, name, spec, i);
      }
    }
  }

  /** After a ceremony, an entry that passes under a signature that exists holds, up to key order, the
      manifest of one of the compiled entries: the recipe's signature cannot stand in for it. */
  lemma OnlyCompiledManifestsPass(c: Ceremony, files: map<Text, Text>, name: Text, spec: seq<SpecEntry>, known: set<Text>,
                                  digests: map<Text, Text>, files': map<Text, Text>, e: RecipeEntry)
    requires KeyPair(c.scheme, c.key) && ConfigsPlain(spec) && !CompileAll(c, files, spec).failed
    requires forall i | 0 <= i < |spec| :: CompileEntry(c, spec[i]).Some?
    requires Unforgeable(c.scheme, c.key.publicKey, known, SignedTexts(CeremonySigns(c, files, name, spec)))
    requires Passes(c.scheme, digests, files', e, c.key.publicKey)
    ensures e.manifestPath in files' && ParseManifest(files'[e.manifestPath]).Some?
    ensures var m := ParseManifest(files'[e.manifestPath]).value;
            PresentedSignature(m) in known ==> exists i :: 0 <= i < |spec| && Same(Obj(Blanked(m)), Obj(UnsignedManifest(c, spec[i])))
  {
    hide CompileAll, CompileEntry, UnsignedRecipe, UnsignedManifest, CeremonySigns, WellFormed, KeyPair, Unforgeable, Same;
    hide Blanked, ParseManifest, PresentedSignature, Readable, Passes;
    CeremonyWellFormed(c, files, name, spec);
    var signed := CeremonySigns(c, files, name, spec);
    AcceptedEntryWasSigned(c.scheme, digests, files', e, c.key.publicKey, known, signed);
    var m := ParseManifest(files'[e.manifestPath]).value;
    if PresentedSignature(m) in known {
      var w :| w in signed && Same(Obj(Blanked(m)), w);
      CeremonyMember(c, files, name, spec, w);
      if w == Obj(UnsignedRecipe(name, CompileAll(c, files, spec).entries, c.key)) {
        ReadManifests(files'[e.manifestPath]);
        ManifestIsNoRecipe(m, name, CompileAll(c, files, spec).entries, c.key);
      }
    }
  }

  lemma ManifestIsNoRecipe(m: Fields, name: Text, entries: seq<RecipeEntry>, key: RootKey)
    requires Readable(m)
    ensures !Same(Obj(Blanked(m)), Obj(UnsignedRecipe(name, entries, key)))
  {
    hide Readable, Blanked, UnsignedRecipe, Same;
    ManifestHasVersion(m);
    RecipeHasNoManifestVersion(name, entries, key);
    if Same(Obj(Blanked(m)), Obj(UnsignedRecipe(name, entries, key))) {
      SameFields(Blanked(m), UnsignedRecipe(name, entries, key), MANIFEST_VERSION_KEY);
    }
  }

  /** After a ceremony, a recipe file that verifies under the root key with a signature that exists, and that
      claims no manifest version, is up to key order the compiled recipe. */
  lemma OnlyTheCompiledRecipePasses(c: Ceremony, files: map<Text, Text>, name: Text, spec: seq<SpecEntry>, known: set<Text>, recipe: Fields)
    requires KeyPair(c.scheme, c.key) && ConfigsPlain(spec) && !CompileAll(c, files, spec).failed
    requires forall i | 0 <= i < |spec| :: CompileEntry(c, spec[i]).Some?
    requires Unforgeable(c.scheme, c.key.publicKey, known, SignedTexts(CeremonySigns(c, files, name, spec)))
    requires Plain(Obj(recipe)) && Field(Get(recipe, ROOT_OF_TRUST_KEY), PUBLIC_KEY_KEY) == Str(c.key.publicKey)
    requires VerifyRecipeSignature(c.scheme, recipe) && Get(recipe, SIGNATURE_KEY).s in known
    ensures WasSigned(CeremonySigns(c, files, name, spec), Obj(DropKey(recipe, SIGNATURE_KEY)))
    ensures Get(DropKey(recipe, SIGNATURE_KEY), MANIFEST_VERSION_KEY) == Undef ==>
              Same(Obj(DropKey(recipe, SIGNATURE_KEY)), Obj(UnsignedRecipe(name, CompileAll(c, files, spec).entries, c.key)))
  {
    hide CompileAll, CompileEntry, UnsignedRecipe, UnsignedManifest, CeremonySigns, WellFormed, KeyPair, Unforgeable, Same, Plain, VerifyRecipeSignature;
    CeremonyWellFormed(c, files, name, spec);
    var signed, rest := CeremonySigns(c, files, name, spec), DropKey(recipe, SIGNATURE_KEY);
    AcceptedRecipeWasSigned(c.scheme, known, signed, recipe, c.key.publicKey);
    var w :| w in signed && Same(Obj(rest), w);
    CeremonyMember(c, files, name, spec, w);
    if i :| 0 <= i < |spec| && w == Obj(UnsignedManifest(c, spec[i])) {
      UnsignedHasVersion(c, spec[i]);
      SameFields(rest, UnsignedManifest(c, spec[i]), MANIFEST_VERSION_KEY);
    }
  }

  // ---- the ceremony over the build directory ----

  class BuildDirectory {
    const ceremony: Ceremony
    var files: map<Text, Text>

    constructor (ceremony: Ceremony)
      ensures this.ceremony == ceremony && files == map[]
    {
      this.ceremony, files := ceremony, map[];
    }

    /** Writes each signed manifest in turn; an error stops the loop and leaves what was written. */
    method CompileComposition(name: Text, spec: seq<SpecEntry>) returns (recipe: Option<Fields>)
      requires KeyPair(ceremony.scheme, ceremony.key) && ConfigsPlain(spec)
      modifies this
      ensures var b := CompileAll(ceremony, old(files), spec);
              && files == b.files
              && (recipe.None? <==> b.failed)
              && (recipe.Some? ==> recipe == SignRecipe(ceremony.scheme, ceremony.key, UnsignedRecipe(name, b.entries, ceremony.key)))
    {
      hide CompileEntry, KeyPair, UnsignedRecipe, SignRecipe;
      var entries: seq<RecipeEntry> := [];
      assert spec[..|spec|] == spec;
      for i := 0 to |spec|
        invariant CompileAll(ceremony, old(files), spec[..i]) == Build(files, entries, false)
      {
        var r := CompileEntry(ceremony, spec[i]);
        assert spec[..i + 1][..i] == spec[..i];
        if r.None? {
          FailureStays(ceremony, old(files), spec, i + 1);
          return None;
        }
        files := files[ManifestPath(spec[i].id) := r.value.text];
        entries := entries + [r.value.entry];
      }
      CompiledRecipeVerifies(ceremony, old(files), name, spec);
      recipe := SignRecipe(ceremony.scheme, ceremony.key, UnsignedRecipe(name, entries, ceremony.key));
    }
  }

  lemma {:induction false} FailureStays(c: Ceremony, files: map<Text, Text>, spec: seq<SpecEntry>, n: nat)
    requires n <= |spec| && CompileAll(c, files, spec[..n]).failed
    ensures CompileAll(c, files, spec) == CompileAll(c, files, spec[..n])
    decreases |spec|
  {
    hide CompileEntry;
    if n == |spec| {
      assert spec[..n] == spec;
    } else {
      var init := spec[..|spec| - 1];
      assert init[..n] == spec[..n];
      FailureStays(c, files, init, n);
    }
  }
}

/** Which recipe files are accepted after a ceremony: the compiled one, and any signed manifest that also reads as
    a recipe. */
module RecipeAcceptance {
  import opened Wrappers
  import opened JsonText
  import opened JsonParser
  import opened JsonFormat
  import opened JsonObject
  import opened Canon = CanonicalJson
  import opened Signing
  import opened Manifest
  import opened Recipe
  import opened RecipeReader

  /** A recipe file that is read and verifies under the root key with a signature that exists. */
  ghost predicate Accepted(c: Ceremony, known: set<Text>, recipe: Fields) {
    && Plain(Obj(recipe)) && RecipeReads(recipe) && NamesRoot(c, recipe)
    && VerifyRecipeSignature(c.scheme, recipe) && Get(recipe, SIGNATURE_KEY).s in known
  }

  predicate NamesRoot(c: Ceremony, fields: Fields) {
    Field(Get(fields, ROOT_OF_TRUST_KEY), PUBLIC_KEY_KEY) == Str(c.key.publicKey)
  }

  /** A signed manifest that holds the fields of a recipe, names the root key where a recipe does, and has no
      signature of its own there. */
  predicate Doubles(c: Ceremony, unsigned: Fields) {
    RecipeReads(unsigned) && NamesRoot(c, unsigned) && Get(unsigned, SIGNATURE_KEY) == Undef
  }

  function TheRecipe(c: Ceremony, files: map<Text, Text>, name: Text, spec: seq<SpecEntry>): Fields {
    UnsignedRecipe(name, CompileAll(c, files, spec).entries, c.key)
  }

  /** Every accepted recipe is, up to key order, the compiled one. */
  ghost predicate OnlyTheCompiled(c: Ceremony, files: map<Text, Text>, name: Text, spec: seq<SpecEntry>, known: set<Text>) {
    forall recipe | Accepted(c, known, recipe) ::
      Same(Obj(DropKey(recipe, SIGNATURE_KEY)), Obj(TheRecipe(c, files, name, spec)))
  }

  // ---- properties of values that are the same ----

  lemma SameRoot(c: Ceremony, a: Fields, b: Fields)
    requires Same(Obj(a), Obj(b)) && NamesRoot(c, a)
    ensures NamesRoot(c, b)
  {
    FieldSame(Obj(a), Obj(b), ROOT_OF_TRUST_KEY);
    RootSame(Get(a, ROOT_OF_TRUST_KEY), Get(b, ROOT_OF_TRUST_KEY));
  }

  // ---- a doubling manifest is accepted ----

  /** The unsigned manifest with its publisher signature where a recipe carries its own. */
  function AsRecipe(c: Ceremony, se: SpecEntry): Fields
    requires CompileEntry(c, se).Some?
  {
    UnsignedManifest(c, se) + [Member(SIGNATURE_KEY, Str(PresentedSignature(CompileEntry(c, se).value.manifest)))]
  }

  lemma NoSignatureKey(m: Fields)
    requires Plain(Obj(m)) && Get(m, SIGNATURE_KEY) == Undef
    ensures forall i | 0 <= i < |m| :: m[i].key != SIGNATURE_KEY
  {
    forall i | 0 <= i < |m| ensures m[i].key != SIGNATURE_KEY {
      GetAt(m, i);
      assert Plain(m[i].value);
    }
  }

  lemma UnsignedIsPlain(c: Ceremony, se: SpecEntry)
    requires CompileEntry(c, se).Some?
    ensures Plain(Obj(UnsignedManifest(c, se)))
  {
    hide Readable, ParseManifest;
    ReadManifests(c.plugins[se.source]);
    UnsignedIsReadable(ParseManifest(c.plugins[se.source]).value, c.digests[se.source], c.key.keyId, []);
    ReadableIsPlain(UnsignedManifest(c, se));
  }

  lemma DoubleVerifies(c: Ceremony, se: SpecEntry)
    requires KeyPair(c.scheme, c.key) && CompileEntry(c, se).Some? && Doubles(c, UnsignedManifest(c, se))
    ensures var r := AsRecipe(c, se);
            && Plain(Obj(r)) && RecipeReads(r) && NamesRoot(c, r) && VerifyRecipeSignature(c.scheme, r)
            && Get(r, SIGNATURE_KEY) == Str(PresentedSignature(CompileEntry(c, se).value.manifest))
            && DropKey(r, SIGNATURE_KEY) == UnsignedManifest(c, se)
  {
    hide CompileEntry, UnsignedManifest, KeyPair, SignJson, VerifyJson, Plain, PresentedSignature, Supported, WellFormed, Same, RecipeReads;
    var u := UnsignedManifest(c, se);
    var signature := PresentedSignature(CompileEntry(c, se).value.manifest);
    UnsignedIsPlain(c, se);
    NoSignatureKey(u);
    AppendedField(u, SIGNATURE_KEY, Str(signature), SIGNATURE_KEY);
    AppendedField(u, SIGNATURE_KEY, Str(signature), ROOT_OF_TRUST_KEY);
    NotTheSameKey();
    PlainString(signature);
    AppendPlain(u, Member(SIGNATURE_KEY, Str(signature)));
    PlainIsSupported(Obj(u));
    SelfSame(Obj(u));
    SignedVerifies(c.scheme, c.key, Obj(u), Obj(u));
    ManifestSignature(c, se);
    ReadsUnsigned(AsRecipe(c, se));
  }

  lemma NotTheSameKey()
    ensures ROOT_OF_TRUST_KEY != SIGNATURE_KEY && MANIFEST_VERSION_KEY != SIGNATURE_KEY
  {
    assert |ROOT_OF_TRUST_KEY| == 11 && |SIGNATURE_KEY| == 9 && |MANIFEST_VERSION_KEY| == 15;
  }

  /** A manifest that doubles as a recipe is accepted as one under the signature the ceremony made for it, and is
      not the compiled recipe. */
  lemma DoublingManifestIsAccepted(c: Ceremony, files: map<Text, Text>, name: Text, spec: seq<SpecEntry>, known: set<Text>, i: nat)
    requires KeyPair(c.scheme, c.key) && i < |spec| && forall i | 0 <= i < |spec| :: CompileEntry(c, spec[i]).Some?
    requires SignaturesOf(c.scheme, c.key, CeremonySigns(c, files, name, spec)) <= known
    requires Doubles(c, UnsignedManifest(c, spec[i]))
    ensures Accepted(c, known, AsRecipe(c, spec[i]))
    ensures !Same(Obj(DropKey(AsRecipe(c, spec[i]), SIGNATURE_KEY)), Obj(TheRecipe(c, files, name, spec)))
  {
    hide CompileEntry, UnsignedManifest, KeyPair, Doubles, AsRecipe, VerifyRecipeSignature, Plain, PresentedSignature, CompileAll, UnsignedRecipe;
    hide NamesRoot, RecipeReads, CeremonySigns, SignaturesOf, Same;
    DoubleVerifies(c, spec[i]);
    ManifestIsSigned(c, files, name, spec, i);
    var u, r := UnsignedManifest(c, spec[i]), TheRecipe(c, files, name, spec);
    UnsignedHasVersion(c, spec[i]);
    RecipeHasNoManifestVersion(name, CompileAll(c, files, spec).entries, c.key);
    if Same(Obj(u), Obj(r)) {
      SameFields(u, r, MANIFEST_VERSION_KEY);
    }
  }

  // ---- the exact condition ----

  /** What an accepted recipe is, up to key order: the compiled one, or a manifest of the ceremony that
      doubles as a recipe. */
  lemma AcceptedIsCompiledOrDouble(c: Ceremony, files: map<Text, Text>, name: Text, spec: seq<SpecEntry>, known: set<Text>, recipe: Fields)
    requires KeyPair(c.scheme, c.key) && ConfigsPlain(spec) && !CompileAll(c, files, spec).failed
    requires forall i | 0 <= i < |spec| :: CompileEntry(c, spec[i]).Some?
    requires Unforgeable(c.scheme, c.key.publicKey, known, SignedTexts(CeremonySigns(c, files, name, spec)))
    requires Accepted(c, known, recipe)
    ensures Same(Obj(DropKey(recipe, SIGNATURE_KEY)), Obj(TheRecipe(c, files, name, spec)))
            || exists i :: 0 <= i < |spec| && Doubles(c, UnsignedManifest(c, spec[i]))
                           && Same(Obj(DropKey(recipe, SIGNATURE_KEY)), Obj(UnsignedManifest(c, spec[i])))
  {
    hide CompileEntry, UnsignedManifest, KeyPair, VerifyRecipeSignature, Plain, CompileAll, UnsignedRecipe, CeremonySigns, Unforgeable, Same,
         RecipeReads;
    var rest := DropKey(recipe, SIGNATURE_KEY);
    OnlyTheCompiledRecipePasses(c, files, name, spec, known, recipe);
    var w :| w in CeremonySigns(c, files, name, spec) && Same(Obj(rest), w);
    CeremonyMember(c, files, name, spec, w);
    if i :| 0 <= i < |spec| && w == Obj(UnsignedManifest(c, spec[i])) {
      GetDropped(recipe, SIGNATURE_KEY, ROOT_OF_TRUST_KEY);
      GetDropped(recipe, SIGNATURE_KEY, SIGNATURE_KEY);
      NotTheSameKey();
      SameRoot(c, rest, UnsignedManifest(c, spec[i]));
      SameFields(rest, UnsignedManifest(c, spec[i]), SIGNATURE_KEY);
      ReadsUnsigned(recipe);
      SameReads(rest, UnsignedManifest(c, spec[i]));
    }
  }

  /** After a ceremony only the compiled recipe is accepted exactly when no manifest of the ceremony doubles as
      a recipe. Nothing in the signed bytes tells the two kinds of document apart. */
  lemma OnlyTheCompiledIffNoDouble(c: Ceremony, files: map<Text, Text>, name: Text, spec: seq<SpecEntry>, known: set<Text>)
    requires KeyPair(c.scheme, c.key) && ConfigsPlain(spec) && !CompileAll(c, files, spec).failed
    requires forall i | 0 <= i < |spec| :: CompileEntry(c, spec[i]).Some?
    requires SignaturesOf(c.scheme, c.key, CeremonySigns(c, files, name, spec)) <= known
    requires Unforgeable(c.scheme, c.key.publicKey, known, SignedTexts(CeremonySigns(c, files, name, spec)))
    ensures OnlyTheCompiled(c, files, name, spec, known) <==> forall i | 0 <= i < |spec| :: !Doubles(c, UnsignedManifest(c, spec[i]))
  {
    hide CompileEntry, UnsignedManifest, KeyPair, Doubles, Accepted, AsRecipe, CompileAll, TheRecipe, CeremonySigns, SignaturesOf, Unforgeable, Same;
    if i :| 0 <= i < |spec| && Doubles(c, UnsignedManifest(c, spec[i])) {
      DoublingManifestIsAccepted(c, files, name, spec, known, i);
    } else {
      forall recipe | Accepted(c, known, recipe) ensures Same(Obj(DropKey(recipe, SIGNATURE_KEY)), Obj(TheRecipe(c, files, name, spec))) {
        AcceptedIsCompiledOrDouble(c, files, name, spec, known, recipe);
      }
    }
  }

  // ---- any recipe can have a double ----

  /** The fields of a manifest with the mandatory ones alone, then those of a recipe. */
  function DoubleManifest(id: Text, u: Fields): Fields {
    BareManifest(id) + u
  }

  /** No field of the recipe is one the manifest reader or the ceremony sets, nor a signature. */
  predicate SharesNoField(u: Fields) {
    forall i | 0 <= i < |u| ::
      u[i].key !in [MANIFEST_VERSION_KEY, ID_KEY, ENTRY_KEY, CONTENT_HASH_KEY, PUBLISHER_KEY, SIGNATURE_KEY]
  }

  lemma DoubleIsPlain(id: Text, u: Fields)
    requires Plain(Obj(u)) && SharesNoField(u)
    ensures Plain(Obj(DoubleManifest(id, u)))
  {
    BareIsPlain(id);
    var b, m := BareManifest(id), DoubleManifest(id, u);
    forall i | 0 <= i < |m| ensures m[i] == if i < |b| then b[i] else u[i - |b|] {
    }
  }

  lemma {:induction false} GetPast(a: Fields, b: Fields, k: Text)
    requires forall i | 0 <= i < |a| :: a[i].key != k
    ensures Get(a + b, k) == Get(b, k)
  {
    if a == [] {
      assert a + b == b;
    } else {
      assert a[0].key != k && (a + b)[1..] == a[1..] + b;
      GetPast(a[1..], b, k);
    }
  }

  /** A signed manifest keeps what its file says, but for the content hash and the publisher. */
  lemma SignedKeeps(m: Fields, contentHash: Text, keyId: Text, k: Text)
    requires k != CONTENT_HASH_KEY && k != PUBLISHER_KEY
    requires Present(m, k) || forall i | 0 <= i < |Defaults()| :: Defaults()[i].key != k
    ensures Get(Unsigned(WithDefaults(m), contentHash, keyId), k) == Get(m, k)
  {
    hide Defaults, Get;
    var filled := WithContentHash(m);
    GetSet(m, CONTENT_HASH_KEY, Str([]), k);
    if Present(m, k) {
      FillAllKeeps(filled, Defaults(), k);
    } else {
      FillAllSkips(filled, Defaults(), k);
    }
    GetSet(WithDefaults(m), CONTENT_HASH_KEY, Str(contentHash), k);
    GetSet(Set(WithDefaults(m), CONTENT_HASH_KEY, Str(contentHash)), PUBLISHER_KEY, PublisherValue(Str(keyId), []), k);
  }

  lemma NoDefaultSignature()
    ensures forall i | 0 <= i < |Defaults()| :: Defaults()[i].key != SIGNATURE_KEY
    ensures SIGNATURE_KEY != CONTENT_HASH_KEY && SIGNATURE_KEY != PUBLISHER_KEY
  {
    assert PUBLISHER_KEY[0] != SIGNATURE_KEY[0];
    assert |SIGNATURE_KEY| == 9 && |CONTENT_HASH_KEY| == 11 && |CONTRIBUTIONS_KEY| == 13 && |DEPENDENCIES_KEY| == 12
           && |CAPABILITIES_KEY| == 12 && |RUNTIME_KEY| == 7 && |GRANULARITY_KEY| == 11;
  }

  /** A ceremony over one directory, whose manifest file holds a recipe as well. */
  function DoubleCeremony(s: Scheme, key: RootKey, id: Text, u: Fields): Ceremony
    requires Plain(Obj(u)) && SharesNoField(u)
  {
    DoubleIsPlain(id, u);
    Ceremony(s, key, map[id := Pretty(Obj(DoubleManifest(id, u)), 0)], map[id := []], _ => true)
  }

  lemma DoubleCompiles(s: Scheme, key: RootKey, id: Text, u: Fields)
    requires KeyPair(s, key) && id != [] && Plain(Obj(u)) && SharesNoField(u)
    ensures CompileEntry(DoubleCeremony(s, key, id, u), BareSpec([id])[0]).Some?
    ensures UnsignedManifest(DoubleCeremony(s, key, id, u), BareSpec([id])[0]) == Unsigned(WithDefaults(DoubleManifest(id, u)), [], key.keyId)
  {
    hide Signed, Readable, KeyPair, Pretty, Plain, WithDefaults, SharesNoField;
    var m := DoubleManifest(id, u);
    DoubleIsPlain(id, u);
    PrettyReadsBack(Obj(m));
    DoubleFields(id, u);
    var text := Pretty(Obj(m), 0);
    assert ParseManifest(text) == Some(WithDefaults(m));
    KeepsId(m, id);
    ReadManifests(text);
    SignedManifestVerifies(s, key, WithDefaults(m), []);
  }

  lemma DoubleFields(id: Text, u: Fields)
    ensures var m := DoubleManifest(id, u);
            Get(m, MANIFEST_VERSION_KEY) == Str(VERSION_1) && Get(m, ID_KEY) == Str(id) && Get(m, ENTRY_KEY) == Str(id)
  {
    hide Get;
    assert |MANIFEST_VERSION_KEY| == 15 && |ID_KEY| == 2 && |ENTRY_KEY| == 5;
    FirstWith(DoubleManifest(id, u), 0);
    FirstWith(DoubleManifest(id, u), 1);
    FirstWith(DoubleManifest(id, u), 2);
  }

  lemma KeepsId(m: Fields, id: Text)
    requires Get(m, ID_KEY) == Str(id)
    ensures Get(WithDefaults(m), ID_KEY) == Str(id)
  {
    hide Defaults;
    KeysDiffer();
    GetSet(m, CONTENT_HASH_KEY, Str([]), ID_KEY);
    FillAllKeeps(WithContentHash(m), Defaults(), ID_KEY);
  }

  lemma RecipeFieldKept(id: Text, u: Fields, keyId: Text, k: Text)
    requires SharesNoField(u) && RecipeReads(u)
    requires k in [RECIPE_VERSION_KEY, HASH_ALGO_KEY, NAME_KEY, COMPOSITION_KEY, ROOT_OF_TRUST_KEY]
    ensures Get(Unsigned(WithDefaults(DoubleManifest(id, u)), [], keyId), k) == Get(u, k)
  {
    hide Get, Unsigned, WithDefaults, SharesNoField;
    assert |RECIPE_VERSION_KEY| == 13 && |HASH_ALGO_KEY| == 8 && |NAME_KEY| == 4 && |COMPOSITION_KEY| == 11 && |ROOT_OF_TRUST_KEY| == 11;
    assert |MANIFEST_VERSION_KEY| == 15 && |ID_KEY| == 2 && |ENTRY_KEY| == 5 && |PUBLISHER_KEY| == 9 && |CONTENT_HASH_KEY| == 11;
    assert CONTENT_HASH_KEY[3] == 116 && COMPOSITION_KEY[3] == 112 && ROOT_OF_TRUST_KEY[3] == 116 && ROOT_OF_TRUST_KEY[0] != CONTENT_HASH_KEY[0];
    GetPast(BareManifest(id), u, k);
    assert Present(u, k) by { ReadsPresent(u, k); }
    SignedKeeps(DoubleManifest(id, u), [], keyId, k);
  }

  lemma ReadsPresent(u: Fields, k: Text)
    requires RecipeReads(u) && k in [RECIPE_VERSION_KEY, HASH_ALGO_KEY, NAME_KEY, COMPOSITION_KEY, ROOT_OF_TRUST_KEY]
    ensures Present(u, k)
  {
    hide Get;
  }

  lemma NoSignature(id: Text, u: Fields, keyId: Text)
    requires SharesNoField(u)
    ensures Get(Unsigned(WithDefaults(DoubleManifest(id, u)), [], keyId), SIGNATURE_KEY) == Undef
  {
    hide Get, Unsigned, WithDefaults;
    assert |MANIFEST_VERSION_KEY| == 15 && |ID_KEY| == 2 && |ENTRY_KEY| == 5 && |SIGNATURE_KEY| == 9;
    GetPast(BareManifest(id), u, SIGNATURE_KEY);
    GetMissing(u, SIGNATURE_KEY);
    NoDefaultSignature();
    SignedKeeps(DoubleManifest(id, u), [], keyId, SIGNATURE_KEY);
  }

  lemma DoublesLike(c: Ceremony, m: Fields, u: Fields)
    requires RecipeReads(u) && NamesRoot(c, u) && Get(m, SIGNATURE_KEY) == Undef
    requires forall k | k in [RECIPE_VERSION_KEY, HASH_ALGO_KEY, NAME_KEY, COMPOSITION_KEY, ROOT_OF_TRUST_KEY] :: Get(m, k) == Get(u, k)
    ensures Doubles(c, m)
  {
    hide Get, CompositionReads, RootReads;
    var keys := [RECIPE_VERSION_KEY, HASH_ALGO_KEY, NAME_KEY, COMPOSITION_KEY, ROOT_OF_TRUST_KEY];
    assert keys[0] in keys && keys[1] in keys && keys[2] in keys && keys[3] in keys && keys[4] in keys;
  }

  /** Whatever recipe is to be had, some manifest that the ceremony signs doubles as it: the signed fields of the
      recipe are those of the manifest. */
  lemma AnyRecipeHasADouble(s: Scheme, key: RootKey, id: Text, u: Fields)
    requires KeyPair(s, key) && id != [] && Plain(Obj(u)) && SharesNoField(u)
    requires RecipeReads(u) && Field(Get(u, ROOT_OF_TRUST_KEY), PUBLIC_KEY_KEY) == Str(key.publicKey)
    ensures var c, se := DoubleCeremony(s, key, id, u), BareSpec([id])[0];
            && CompileEntry(c, se).Some? && !CompileAll(c, map[], [se]).failed && Doubles(c, UnsignedManifest(c, se))
            && forall k | k in [RECIPE_VERSION_KEY, HASH_ALGO_KEY, NAME_KEY, COMPOSITION_KEY, ROOT_OF_TRUST_KEY] ::
                 Get(UnsignedManifest(c, se), k) == Get(u, k)
  {
    hide CompileEntry, UnsignedManifest, KeyPair, Plain, SharesNoField, Get, Defaults, Pretty, WithDefaults, Unsigned,
         CompositionReads, RootReads, RecipeReads, Doubles;
    var c, se, m := DoubleCeremony(s, key, id, u), BareSpec([id])[0], DoubleManifest(id, u);
    DoubleCompiles(s, key, id, u);
    CompilesEach(c, map[], [se]);
    forall k | k in [RECIPE_VERSION_KEY, HASH_ALGO_KEY, NAME_KEY, COMPOSITION_KEY, ROOT_OF_TRUST_KEY]
      ensures Get(UnsignedManifest(c, se), k) == Get(u, k)
    {
      RecipeFieldKept(id, u, key.keyId, k);
    }
    NoSignature(id, u, key.keyId);
    DoublesLike(c, UnsignedManifest(c, se), u);
  }
}

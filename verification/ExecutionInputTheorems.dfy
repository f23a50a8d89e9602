/** Validating an execution input again changes nothing, and its canonical payload is all but the places. */
module ExecutionInputTheorems {
  import opened Wrappers
  import opened ExecutionInputs

  // ----- content identities ------------------------------------------------------------------------

  predicate IsText(s: string) {
    s != "" && Trimmed(s)
  }

  /** What the constructor leaves behind. */
  predicate WellFormedIdentity(c: ContentIdentity) {
    && IsText(c.algorithm) && IsLower(c.algorithm) && IsText(c.scope) && IsText(c.scheme) && IsLower(c.scheme)
    && Canonicalizes(c.scheme, c.canonicalization)
    && (IsCompleteSha256(c) ==> IsHexDigest(c.digest) && IsLower(c.digest))
  }

  lemma CanonicalizationIsText(scheme: string, canonicalization: Option<string>)
    requires Canonicalizes(scheme, canonicalization)
    ensures OptionalText(TextOrNull(canonicalization)) == Ok(canonicalization)
  {
    if canonicalization.Some? {
      var s := canonicalization.value;
      assert s != "" && s[0] in {'c', 'f'} && s[|s| - 1] == '1';
      assert Trimmed(s);
    }
  }

  lemma LowerHex(s: string)
    requires IsHexDigest(s)
    ensures IsHexDigest(Lower(s))
  {
  }

  lemma MadeIdentity(algorithm: Value, digest: Value, scope: Value, scheme: Value, canonicalization: Value)
    requires MakeIdentity(algorithm, digest, scope, scheme, canonicalization).Ok?
    ensures WellFormedIdentity(MakeIdentity(algorithm, digest, scope, scheme, canonicalization).value)
  {
    hide IsHexDigest, Canonicalizes, WithoutPrefix, IsCompleteScheme, Trimmed, IsLower;
    var c := MakeIdentity(algorithm, digest, scope, scheme, canonicalization).value;
    if IsCompleteSha256(c) {
      LowerHex(WithoutPrefix(LowerText(algorithm).value, RequiredText(digest).value));
    }
  }

  lemma ParsedIdentity(v: Value)
    requires ParseIdentity(v).Ok?
    ensures WellFormedIdentity(ParseIdentity(v).value)
  {
    hide MakeIdentity, WellFormedIdentity, Get;
    var fields := Mapping(v, IDENTITY_KEYS).value;
    MadeIdentity(
      Get(fields, "algorithm", Text("sha256")), Get(fields, "digest", Null), Get(fields, "scope", Text("artifact")),
      Get(fields, "scheme", Text("complete")), Get(fields, "canonicalization_scheme", Null));
  }

  /** The digest has nothing left that a second reading would take away. */
  predicate StableDigest(c: ContentIdentity) {
    IsText(c.digest) && !HasPrefix(c.algorithm, c.digest)
  }

  lemma {:induction false} AfterColonIsShorter(s: string)
    requires s != ""
    ensures |AfterColon(s)| < |s|
  {
    if s[0] != ':' && s[1..] != "" {
      AfterColonIsShorter(s[1..]);
    }
  }

  lemma StripIsNoLonger(s: string)
    ensures |Strip(s)| <= |s|
  {
    StripLeftIsNoLonger(s);
  }

  lemma {:induction false} StripLeftIsNoLonger(s: string)
    ensures |StripLeft(s)| <= |s|
  {
    if s != "" && IsSpace(s[0]) {
      StripLeftIsNoLonger(s[1..]);
    }
  }

  lemma IdentityFields(c: ContentIdentity)
    ensures ParseIdentity(IdentityValue(c)) ==
      MakeIdentity(Text(c.algorithm), Text(c.digest), Text(c.scope), Text(c.scheme), TextOrNull(c.canonicalization))
  {
    hide MakeIdentity;
    KeysDiffer();
  }

  lemma KeysDiffer()
    ensures "algorithm" != "digest" && "algorithm" != "scope" && "algorithm" != "scheme"
      && "algorithm" != "canonicalization_scheme" && "digest" != "scope" && "digest" != "scheme"
      && "digest" != "canonicalization_scheme" && "scope" != "scheme" && "scope" != "canonicalization_scheme"
      && "scheme" != "canonicalization_scheme"
  {
    assert |"algorithm"| == 9 && |"digest"| == 6 && |"scope"| == 5 && |"scheme"| == 6;
    assert |"canonicalization_scheme"| == 23;
    assert "digest"[0] == 'd' && "scheme"[0] == 's';
  }

  /** Reading a written identity again gives it back exactly when its digest is stable. */
  lemma IdentityIsStableIff(c: ContentIdentity)
    requires WellFormedIdentity(c)
    ensures ParseIdentity(IdentityValue(c)) == Ok(c) <==> StableDigest(c)
  {
    hide IdentityValue, ParseIdentity, Canonicalizes, OptionalText, TextOrNull, IsHexDigest;
    var digest := Strip(c.digest);
    StripIsNoLonger(c.digest);
    if digest != "" && HasPrefix(c.algorithm, digest) {
      AfterColonIsShorter(digest);
    }
    AgainIdentity(c);
  }

  lemma LowerOfLower(s: string)
    requires IsText(s) && IsLower(s)
    ensures LowerText(Text(s)) == Ok(s)
  {
  }

  lemma AgainIdentity(c: ContentIdentity)
    requires WellFormedIdentity(c)
    ensures ParseIdentity(IdentityValue(c)) ==
      if Strip(c.digest) == "" then Err(Invalid)
      else
        var again := c.(digest := WithoutPrefix(c.algorithm, Strip(c.digest)));
        if !IsCompleteSha256(c) then Ok(again)
        else if IsHexDigest(again.digest) then Ok(again.(digest := Lower(again.digest)))
        else Err(Invalid)
  {
    hide Canonicalizes, OptionalText, TextOrNull, IsHexDigest, WithoutPrefix, ParseIdentity, IdentityValue,
      IsCompleteScheme, Trimmed, IsLower, Lower;
    LowerOfLower(c.algorithm);
    LowerOfLower(c.scheme);
    IdentityFields(c);
    CanonicalizationIsText(c.scheme, c.canonicalization);
  }

  /** Complete SHA-256 identities, the only ones that an execution input admits, are always stable. */
  lemma CompleteIdentityIsStable(c: ContentIdentity)
    requires WellFormedIdentity(c) && IsCompleteSha256(c)
    ensures StableDigest(c)
  {
    assert (c.algorithm + ":")[6] == ':';
  }

  lemma {:induction false} AfterColonOf(a: string, rest: string)
    requires ':' !in a
    ensures AfterColon(a + ":" + rest) == rest
  {
    if a == "" {
      assert "" + ":" + rest == ":" + rest;
    } else {
      assert (a + ":" + rest)[1..] == a[1..] + ":" + rest;
      AfterColonOf(a[1..], rest);
    }
  }

  /** Others need not be: a digest that carries its algorithm twice loses one at every reading. */
  lemma RepeatedPrefixIsLost(c: ContentIdentity, rest: string)
    requires WellFormedIdentity(c) && !IsCompleteSha256(c) && ':' !in c.algorithm
    requires IsText(rest) && IsLower(rest) && HasPrefix(c.algorithm, rest)
    requires c.digest == c.algorithm + ":" + rest
    ensures var d := c.(digest := rest);
      ParseIdentity(IdentityValue(c)) == Ok(d) && ParseIdentity(IdentityValue(d)) != Ok(d)
  {
    hide ParseIdentity, IdentityValue, Canonicalizes, IsHexDigest;
    assert Trimmed(c.digest) && IsLower(c.digest);
    AgainIdentity(c);
    AfterColonOf(c.algorithm, rest);
    IdentityIsStableIff(c.(digest := rest));
  }

  lemma IdentityCanChange() returns (v: Value)
    ensures ParseIdentity(v).Ok? && ParseIdentity(IdentityValue(ParseIdentity(v).value)) != ParseIdentity(v)
  {
    var c := ContentIdentity("x", "x" + ":" + "x:0", "artifact", "legacy", None);
    v := IdentityValue(c);
    assert "x" + ":" == "x:0"[..2];
    RepeatedPrefixIsLost(c, "x:0");
  }

  // ----- locators and bindings ---------------------------------------------------------------------

  predicate WellFormedLocator(l: Locator) {
    IsText(l.kind) && IsLower(l.kind) && IsText(l.place)
  }

  lemma LocatorAgain(l: Locator)
    requires WellFormedLocator(l)
    ensures ParseLocator(LocatorValue(l)) == Ok(l)
  {
    assert |"type"| == 4 && |"value"| == 5;
    LowerOfLower(l.kind);
  }

  /** What the constructor leaves behind, with an identity that is stable. */
  predicate WellFormedBinding(b: Binding) {
    && IsText(b.artifactId) && WellFormedLocator(b.locator)
    && (b.identity.Some? ==> WellFormedIdentity(b.identity.value))
    && (b.format.Some? ==> IsText(b.format.value) && IsLower(b.format.value))
  }

  lemma ParsedLocator(v: Value)
    requires ParseLocator(v).Ok?
    ensures WellFormedLocator(ParseLocator(v).value)
  {
    hide Mapping, Get, Trimmed, IsLower;
  }

  lemma MadeBinding(
    artifactId: Value, place: Value, identity: Value, format: Value, quantization: Value, revision: Value,
    metadata: Value)
    requires MakeBinding(artifactId, place, identity, format, quantization, revision, metadata).Ok?
    ensures WellFormedBinding(MakeBinding(artifactId, place, identity, format, quantization, revision, metadata).value)
  {
    hide ParseIdentity, ParseLocator, WellFormedIdentity, WellFormedLocator, Trimmed, IsLower;
    ParsedLocator(place);
    if !identity.Null? {
      ParsedIdentity(identity);
    }
  }

  lemma ParsedBinding(v: Value)
    requires ParseBinding(v).Ok?
    ensures WellFormedBinding(ParseBinding(v).value)
  {
    hide MakeBinding, WellFormedBinding, Get, Place;
    var fields := Mapping(v, BINDING_KEYS).value;
    var registry := Get(fields, "registry_identity", Null);
    MadeBinding(
      Get(fields, "artifact_id", if registry.Object? then Get(registry.fields, "artifact_id", Null) else Null),
      Place(Get(fields, "locator", Null), Get(fields, "local_path", Null)),
      Get(fields, "content_identity", Null), Get(fields, "format", Null), Get(fields, "quantization", Null),
      Get(fields, "revision", Null), Get(fields, "metadata", Object(map[])));
  }

  lemma BindingFields(b: Binding)
    ensures ParseBinding(BindingValue(b)) ==
      MakeBinding(Text(b.artifactId), LocatorValue(b.locator), IdentityOrNull(b.identity), TextOrNull(b.format),
                  b.quantization, b.revision, Object(b.metadata))
  {
    hide MakeBinding, LocatorValue, IdentityOrNull, TextOrNull, RegistryValue, CONTRACT, BINDING_KEYS;
    var fields := BindingValue(b).fields;
    BindingKeys(b);
    RegistryIsObject(b.artifactId);
    LocatorIsObject(b.locator);
    BindingGets(b, fields);
  }

  lemma RegistryIsObject(artifactId: string)
    ensures RegistryValue(artifactId).Object?
  {
  }

  lemma BindingKeys(b: Binding)
    ensures BindingValue(b).fields.Keys <= BINDING_KEYS
  {
    hide LocatorValue, IdentityOrNull, TextOrNull, RegistryValue, CONTRACT;
  }

  lemma BindingGets(b: Binding, fields: Fields)
    requires BindingValue(b) == Object(fields)
    ensures Get(fields, "contract_version", Null) == CONTRACT
    ensures Get(fields, "registry_identity", Null) == RegistryValue(b.artifactId)
    ensures forall v :: Get(fields, "artifact_id", v) == Text(b.artifactId)
    ensures Get(fields, "locator", Null) == LocatorValue(b.locator)
    ensures Get(fields, "content_identity", Null) == IdentityOrNull(b.identity)
    ensures Get(fields, "format", Null) == TextOrNull(b.format)
    ensures Get(fields, "quantization", Null) == b.quantization
    ensures Get(fields, "revision", Null) == b.revision
    ensures Get(fields, "metadata", Object(map[])) == Object(b.metadata)
  {
    hide LocatorValue, IdentityOrNull, TextOrNull, RegistryValue, CONTRACT;
    assert |"contract_version"| == 16 && |"registry_identity"| == 17 && |"artifact_id"| == 11;
    assert |"content_identity"| == 16 && |"locator"| == 7 && |"format"| == 6 && |"quantization"| == 12;
    assert |"revision"| == 8 && |"metadata"| == 8;
    assert "contract_version"[4] == 'r' && "content_identity"[4] == 'e';
    assert "revision"[0] == 'r' && "metadata"[0] == 'm';
  }

  lemma LocatorIsObject(l: Locator)
    ensures LocatorValue(l).Object?
  {
  }

  /** Reading a written binding again gives it back. */
  lemma BindingAgain(b: Binding)
    requires WellFormedBinding(b) && (b.identity.Some? ==> StableDigest(b.identity.value))
    ensures ParseBinding(BindingValue(b)) == Ok(b)
  {
    hide ParseBinding, BindingValue, ParseIdentity, IdentityValue, LocatorValue, ParseLocator, WellFormedIdentity,
      WellFormedLocator, StableDigest, IsLower;
    BindingFields(b);
    LocatorAgain(b.locator);
    if b.identity.Some? {
      IdentityIsStableIff(b.identity.value);
      IdentityIsObject(b.identity.value);
    }
    if b.format.Some? {
      LowerOfLower(b.format.value);
    }
  }

  lemma IdentityIsObject(c: ContentIdentity)
    ensures IdentityValue(c).Object?
  {
  }

  // ----- validating again ----------------------------------------------------------------------------

  lemma MetadataKeysDiffer()
    ensures SHAPES_KEY != MODEL_KEY && SHAPES_KEY != TOKENIZER_KEY && MODEL_KEY != TOKENIZER_KEY
  {
    assert |SHAPES_KEY| == 20 && |MODEL_KEY| == 14 && |TOKENIZER_KEY| == 18;
  }

  lemma ShapesAgain(v: Value)
    requires Shapes(v).Ok?
    ensures Shapes(Object(Shapes(v).value)) == Shapes(v)
    ensures v.Object? ==> Shapes(v).value == v.fields
  {
    hide ValidShape;
  }

  /** Making an execution input from the parts of an accepted one gives the same one. */
  lemma MakingIsIdempotent(base: Binding, adapters: seq<Binding>)
    requires Make(base, adapters).Ok?
    ensures var x := Make(base, adapters).value; Make(x.base, x.adapters) == Ok(x)
  {
    MetadataKeysDiffer();
    hide SHAPES_KEY, MODEL_KEY, TOKENIZER_KEY, Shapes, IsCompleteScheme, IsNonBlank, CheckAdapter;
    var x := Make(base, adapters).value;
    ShapesAgain(Get(base.metadata, SHAPES_KEY, Null));
    assert x.base.metadata[SHAPES_KEY := x.base.metadata[SHAPES_KEY]] == x.base.metadata;
    if |adapters| == 1 {
      SameBaseSameCheck(adapters[0], base, x.base, Shapes(Get(base.metadata, SHAPES_KEY, Null)).value);
    }
  }

  lemma SameBaseSameCheck(adapter: Binding, base: Binding, again: Binding, shapes: Fields)
    requires again == base.(metadata := again.metadata)
    requires Get(again.metadata, MODEL_KEY, Null) == Get(base.metadata, MODEL_KEY, Null)
    requires Get(again.metadata, TOKENIZER_KEY, Null) == Get(base.metadata, TOKENIZER_KEY, Null)
    ensures CheckAdapter(adapter, base, shapes) == CheckAdapter(adapter, again, shapes)
  {
    hide ParseLineage, FactorsFit, IsCompleteScheme, MODEL_KEY, TOKENIZER_KEY;
  }

  ghost predicate WellFormed(x: ExecutionInput) {
    && WellFormedBinding(x.base)
    && forall i :: 0 <= i < |x.adapters| ==> WellFormedBinding(x.adapters[i])
  }

  lemma AcceptedIdentities(base: Binding, adapters: seq<Binding>)
    requires Make(base, adapters).Ok?
    ensures var x := Make(base, adapters).value;
      && x.adapters == adapters && |adapters| <= 1 && x.base.(metadata := base.metadata) == base
      && HasCompleteIdentity(x.base) && forall i :: 0 <= i < |x.adapters| ==> HasCompleteIdentity(x.adapters[i])
  {
    hide ParseLineage, LineageFits, Shapes, IsCompleteScheme, IsNonBlank;
  }

  lemma PayloadFields(x: ExecutionInput, h: Value -> string)
    ensures var v := Payload(x, h);
      && v.Object? && Mapping(v, INPUT_KEYS) == Ok(v.fields)
      && Get(v.fields, "contract_version", Null) == CONTRACT && Get(v.fields, "schema_version", Null) == INPUT_VERSION
      && Get(v.fields, "kind", Null) == KIND && Get(v.fields, "base", Null) == BindingValue(x.base)
      && Get(v.fields, "adapters", Null) == Array(BindingValues(x.adapters))
      && Get(v.fields, "execution_input_fingerprint", Null) == Text(h(Canonical(x)))
  {
    hide BindingValue, BindingValues, Canonical, CONTRACT, INPUT_VERSION, KIND;
    assert |"contract_version"| == 16 && |"schema_version"| == 14 && |"kind"| == 4 && |"base"| == 4;
    assert |"adapters"| == 8 && |"execution_input_fingerprint"| == 27 && "kind"[0] == 'k' && "base"[0] == 'b';
  }

  lemma {:induction false} BindingsAgain(bs: seq<Binding>)
    requires forall i :: 0 <= i < |bs| ==>
      WellFormedBinding(bs[i]) && (bs[i].identity.Some? ==> StableDigest(bs[i].identity.value))
    ensures ParseBindings(BindingValues(bs)) == Ok(bs)
  {
    hide BindingValue, ParseBinding, WellFormedBinding, StableDigest;
    if bs != [] {
      BindingAgain(bs[0]);
      BindingsAgain(bs[1..]);
      assert BindingValues(bs) == [BindingValue(bs[0])] + BindingValues(bs[1..]);
      assert [bs[0]] + bs[1..] == bs;
    }
  }

  lemma CompleteIsStable(b: Binding)
    requires WellFormedBinding(b) && HasCompleteIdentity(b)
    ensures StableDigest(b.identity.value)
  {
    CompleteIdentityIsStable(b.identity.value);
  }

  /** An input that was made from well-formed bindings is read back from its own payload. */
  lemma PayloadIsReadBack(x: ExecutionInput, h: Value -> string)
    requires WellFormed(x) && Make(x.base, x.adapters) == Ok(x)
    ensures Parse(Payload(x, h), h) == Ok(x)
  {
    hide BindingValue, BindingValues, ParseBinding, ParseBindings, WellFormedBinding, StableDigest,
      Payload, Make, Canonical, Mapping, Get,
      CONTRACT, INPUT_VERSION, KIND, IsCompleteScheme;
    AcceptedIdentities(x.base, x.adapters);
    PayloadFields(x, h);
    CompleteIsStable(x.base);
    BindingAgain(x.base);
    forall i | 0 <= i < |x.adapters| ensures StableDigest(x.adapters[i].identity.value) {
      CompleteIsStable(x.adapters[i]);
    }
    BindingsAgain(x.adapters);
    NotNull();
  }

  lemma NotNull()
    ensures CONTRACT != Null && INPUT_VERSION != Null
  {
  }

  lemma {:induction false} ParsedBindings(items: seq<Value>)
    requires ParseBindings(items).Ok?
    ensures forall i :: 0 <= i < |items| ==> WellFormedBinding(ParseBindings(items).value[i])
  {
    hide ParseBinding, WellFormedBinding;
    if items != [] {
      ParsedBinding(items[0]);
      ParsedBindings(items[1..]);
    }
  }

  lemma ParsedInput(v: Value, h: Value -> string)
    requires Parse(v, h).Ok?
    ensures WellFormed(Parse(v, h).value)
    ensures var x := Parse(v, h).value; Make(x.base, x.adapters) == Ok(x)
  {
    hide ParseBinding, ParseBindings, Make, Canonical, WellFormedBinding, CONTRACT, INPUT_VERSION, KIND, Mapping, Get;
    var fields := Mapping(v, INPUT_KEYS).value;
    var base := ParseBinding(Get(fields, "base", Null)).value;
    var items := Get(fields, "adapters", Null).items;
    var adapters := ParseBindings(items).value;
    ParsedBinding(Get(fields, "base", Null));
    ParsedBindings(items);
    MakingIsIdempotent(base, adapters);
    AcceptedIdentities(base, adapters);
    SameButMetadata(base, Make(base, adapters).value.base);
  }

  lemma SameButMetadata(a: Binding, b: Binding)
    requires b.(metadata := a.metadata) == a && WellFormedBinding(a)
    ensures WellFormedBinding(b)
  {
  }

  /**
   Validation is idempotent: the payload of any accepted execution input is accepted again, and gives the
   same input (hence the same canonical payload and the same fingerprint).
  */
  lemma ValidationIsIdempotent(v: Value, h: Value -> string)
    requires Parse(v, h).Ok?
    ensures Parse(Payload(Parse(v, h).value, h), h) == Parse(v, h)
  {
    hide Parse, Payload, WellFormed;
    ParsedInput(v, h);
    PayloadIsReadBack(Parse(v, h).value, h);
  }

  // ----- compatibility -----------------------------------------------------------------------------

  /** A manifest of module shapes, which an input without adapter may lack and one with an adapter needs. */
  predicate ManifestFits(v: Value, needed: bool) {
    if v.Null? then !needed
    else
      && v.Object? && (needed ==> v.fields != map[])
      && forall m :: m in v.fields ==> Strip(m) != "" && ValidShape(v.fields[m])
  }

  predicate BaseFits(b: Binding) {
    && b.locator.kind == "filesystem" && b.format.Some? && !b.quantization.Null? && !b.revision.Null?
    && HasCompleteIdentity(b)
    && IsNonBlank(Get(b.metadata, MODEL_KEY, Null)) && IsNonBlank(Get(b.metadata, TOKENIZER_KEY, Null))
  }

  predicate AdapterFits(a: Binding, base: Binding, shapes: Fields) {
    && a.locator.kind == "filesystem" && a.format.Some? && !a.revision.Null? && HasCompleteIdentity(a)
    && Get(a.metadata, LINEAGE_KEY, Null).Object? && LineageOf(a).Ok? && LineageFits(LineageOf(a).value, base, shapes)
  }

  /** The tests of the constructor in one place; the theorems below say what they come to. */
  lemma AcceptedIffCompatible(base: Binding, adapters: seq<Binding>)
    ensures var manifest := Get(base.metadata, SHAPES_KEY, Null);
      Make(base, adapters).Ok? <==>
        && |adapters| <= 1 && BaseFits(base) && ManifestFits(manifest, adapters != [])
        && (adapters != [] ==> AdapterFits(adapters[0], base, manifest.fields))
  {
    hide HasCompleteIdentity, IsNonBlank, LineageFits, ParseLineage, ValidShape, MODEL_KEY, TOKENIZER_KEY, SHAPES_KEY,
      LINEAGE_KEY, CheckAdapter, AdapterFits;
    if |adapters| == 1 && Get(base.metadata, SHAPES_KEY, Null).Object? {
      CheckIffFits(adapters[0], base, Get(base.metadata, SHAPES_KEY, Null).fields);
    }
  }

  lemma CheckIffFits(a: Binding, base: Binding, shapes: Fields)
    ensures CheckAdapter(a, base, shapes).Ok? <==> AdapterFits(a, base, shapes)
  {
    hide HasCompleteIdentity, LineageFits, ParseLineage, LINEAGE_KEY;
  }

  /** An accepted adapter names this base, and its factors fit every module that it targets. */
  lemma AcceptedAdapterFits(x: ExecutionInput, i: nat)
    requires Make(x.base, x.adapters) == Ok(x) && i < |x.adapters|
    ensures var (l, shapes) := (ParseLineage(Get(x.adapters[i].metadata, LINEAGE_KEY, Null)),
                                Get(x.base.metadata, SHAPES_KEY, Null));
      && l.Ok? && l.value.rank > 0 && Names(l.value.target, x.base)
      && shapes.Object? && shapes.fields != map[]
      && forall m :: m in l.value.modules ==>
           m in l.value.shapes && m in shapes.fields && FactorsFit(l.value.shapes[m], l.value.rank, shapes.fields[m])
  {
    hide ParseLineage, FactorsFit, Names, SHAPES_KEY, LINEAGE_KEY, Make, BaseFits, HasCompleteIdentity;
    AcceptedIffCompatible(x.base, x.adapters);
    RankIsPositive(Get(x.adapters[i].metadata, LINEAGE_KEY, Null));
  }

  /** The manifest of an accepted base gives each of its modules, by a name that is not blank, two positive sizes. */
  lemma ManifestIsPositive(base: Binding, adapters: seq<Binding>, m: string)
    requires Make(base, adapters).Ok?
    requires var v := Get(base.metadata, SHAPES_KEY, Null); v.Object? && m in v.fields
    ensures var shape := Get(base.metadata, SHAPES_KEY, Null).fields[m];
      && Strip(m) != "" && shape.Object? && shape.fields.Keys == {"in_features", "out_features"}
      && forall k :: k in shape.fields ==> shape.fields[k].Int? && shape.fields[k].n > 0
  {
    hide Make, BaseFits, AdapterFits, SHAPES_KEY, Strip;
    AcceptedIffCompatible(base, adapters);
  }

  /**
   One adapter is accepted for one base only: two accepted inputs with the same adapter have bases with the same
   certified identity, the same model and tokenizer, and the same sizes for every module that the adapter targets.
  */
  lemma AdapterFitsOneBase(x: ExecutionInput, y: ExecutionInput)
    requires Make(x.base, x.adapters) == Ok(x) && Make(y.base, y.adapters) == Ok(y)
    requires x.adapters == y.adapters != []
    ensures SameArtifact(x.base, y.base)
    ensures Get(x.base.metadata, MODEL_KEY, Null) == Get(y.base.metadata, MODEL_KEY, Null)
    ensures Get(x.base.metadata, TOKENIZER_KEY, Null) == Get(y.base.metadata, TOKENIZER_KEY, Null)
    ensures var l := LineageOf(x.adapters[0]);
      var (s, t) := (Get(x.base.metadata, SHAPES_KEY, Null), Get(y.base.metadata, SHAPES_KEY, Null));
      l.Ok? && s.Object? && t.Object?
      && forall m :: m in l.value.modules ==> m in s.fields && m in t.fields && s.fields[m] == t.fields[m]
  {
    hide Make, ParseLineage, SHAPES_KEY, LINEAGE_KEY, MODEL_KEY, TOKENIZER_KEY, FactorsFit;
    AcceptedAdapterFits(x, 0);
    AcceptedAdapterFits(y, 0);
    var l := LineageOf(x.adapters[0]).value;
    var s, t := Get(x.base.metadata, SHAPES_KEY, Null).fields, Get(y.base.metadata, SHAPES_KEY, Null).fields;
    forall m | m in l.modules ensures s[m] == t[m] {
      FactorsFixShape(l.shapes[m], l.rank, s[m], t[m]);
    }
  }

  lemma FactorsFixShape(f: Factors, rank: int, s: Value, t: Value)
    requires FactorsFit(f, rank, s) && FactorsFit(f, rank, t)
    ensures s == t
  {
    ShapeIsItsDimensions(s);
    ShapeIsItsDimensions(t);
  }

  lemma RankIsPositive(v: Value)
    requires ParseLineage(v).Ok?
    ensures ParseLineage(v).value.rank > 0
  {
    hide ParseTarget, ParseModules, ParseFactors, Mapping, Get, LINEAGE_VERSION, NoDuplicates;
  }

  /**
   The lineage trims its texts and the base does not: an adapter is only ever accepted for a base whose
   model and tokenizer identities, quantization and revision have no surrounding whitespace.
  */
  lemma BaseOfAdapterIsTrimmed(x: ExecutionInput)
    requires Make(x.base, x.adapters) == Ok(x) && x.adapters != []
    ensures forall v ::
      v in [x.base.quantization, x.base.revision, Get(x.base.metadata, MODEL_KEY, Null),
            Get(x.base.metadata, TOKENIZER_KEY, Null)]
      ==> v.Text? && IsText(v.s)
  {
    AcceptedAdapterFits(x, 0);
    LineageIsTrimmed(Get(x.adapters[0].metadata, LINEAGE_KEY, Null));
    hide ParseLineage, FactorsFit, Make, SHAPES_KEY, LINEAGE_KEY, MODEL_KEY, TOKENIZER_KEY, Trimmed;
  }

  lemma LineageIsTrimmed(v: Value)
    requires ParseLineage(v).Ok?
    ensures var t := ParseLineage(v).value.target;
      IsText(t.revision) && IsText(t.quantization) && IsText(t.model) && IsText(t.tokenizer)
  {
    hide ParseTarget, ParseModules, ParseFactors, LINEAGE_VERSION, NoDuplicates, Trimmed, Get;
    var fields := Mapping(v, {"schema_version", "target_base", "rank", "target_modules", "tensor_shapes"}).value;
    TargetIsTrimmed(Get(fields, "target_base", Null));
  }

  lemma TargetIsTrimmed(v: Value)
    requires ParseTarget(v).Ok?
    ensures var t := ParseTarget(v).value;
      IsText(t.revision) && IsText(t.quantization) && IsText(t.model) && IsText(t.tokenizer)
  {
    hide ParseIdentity, ParseLocator, Get, Mapping, Trimmed, IsLower;
  }

  // ----- the canonical payload -----------------------------------------------------------------------

  /** Equal in everything but locator and metadata. */
  predicate SameArtifact(a: Binding, b: Binding) {
    && a.artifactId == b.artifactId && a.identity == b.identity && a.format == b.format
    && a.quantization == b.quantization && a.revision == b.revision
  }

  function LineageOf(b: Binding): Result<Lineage, Failure> {
    ParseLineage(Get(b.metadata, LINEAGE_KEY, Null))
  }

  /** What two inputs with one canonical payload have in common. */
  ghost predicate SameExecution(x: ExecutionInput, y: ExecutionInput) {
    && SameArtifact(x.base, y.base)
    && Get(x.base.metadata, MODEL_KEY, Null) == Get(y.base.metadata, MODEL_KEY, Null)
    && Get(x.base.metadata, TOKENIZER_KEY, Null) == Get(y.base.metadata, TOKENIZER_KEY, Null)
    && Get(x.base.metadata, SHAPES_KEY, Object(map[])) == Get(y.base.metadata, SHAPES_KEY, Object(map[]))
    && |x.adapters| == |y.adapters|
    && forall i :: 0 <= i < |x.adapters| ==>
         SameArtifact(x.adapters[i], y.adapters[i]) && LineageOf(x.adapters[i]) == LineageOf(y.adapters[i])
  }

  lemma IdentityValueIsInjective(a: Option<ContentIdentity>, b: Option<ContentIdentity>)
    ensures IdentityOrNull(a) == IdentityOrNull(b) <==> a == b
  {
    if a.Some? && b.Some? && IdentityOrNull(a) == IdentityOrNull(b) {
      var f, g := IdentityValue(a.value).fields, IdentityValue(b.value).fields;
      KeysDiffer();
      assert f["algorithm"] == g["algorithm"] && f["digest"] == g["digest"] && f["scope"] == g["scope"];
      assert f["scheme"] == g["scheme"] && f["canonicalization_scheme"] == g["canonicalization_scheme"];
    }
  }

  lemma CertifiedBindingIsInjective(a: Binding, b: Binding)
    ensures CertifiedBinding(a) == CertifiedBinding(b) <==> SameArtifact(a, b)
  {
    IdentityValueIsInjective(a.identity, b.identity);
    RegistryIsInjective(a.artifactId, b.artifactId);
    hide IdentityOrNull, RegistryValue;
    if CertifiedBinding(a) == CertifiedBinding(b) {
      var f, g := CertifiedBinding(a).fields, CertifiedBinding(b).fields;
      assert |"registry_identity"| == 17 && |"content_identity"| == 16 && |"format"| == 6 && |"quantization"| == 12;
      assert |"revision"| == 8;
      assert f["registry_identity"] == g["registry_identity"] && f["content_identity"] == g["content_identity"];
      assert f["format"] == g["format"] && f["quantization"] == g["quantization"] && f["revision"] == g["revision"];
    }
  }

  lemma RegistryIsInjective(a: string, b: string)
    ensures RegistryValue(a) == RegistryValue(b) <==> a == b
  {
    assert RegistryValue(a).fields["artifact_id"] == Text(a) && RegistryValue(b).fields["artifact_id"] == Text(b);
  }

  lemma TargetValueIsInjective(a: TargetBase, b: TargetBase)
    requires TargetValue(a) == TargetValue(b)
    ensures a == b
  {
    IdentityValueIsInjective(Some(a.identity), Some(b.identity));
    hide IdentityValue;
    var f, g := TargetValue(a).fields, TargetValue(b).fields;
    assert |"artifact_id"| == 11 && |"content_identity"| == 16 && |"revision"| == 8 && |"format"| == 6;
    assert |"quantization"| == 12 && |"model_identity"| == 14 && |"tokenizer_identity"| == 18;
    assert f["artifact_id"] == g["artifact_id"] && f["content_identity"] == g["content_identity"];
    assert f["revision"] == g["revision"] && f["format"] == g["format"] && f["quantization"] == g["quantization"];
    assert f["model_identity"] == g["model_identity"] && f["tokenizer_identity"] == g["tokenizer_identity"];
  }

  lemma FactorsValueIsInjective(a: Factors, b: Factors)
    requires FactorsValue(a) == FactorsValue(b)
    ensures a == b
  {
    var f, g := FactorsValue(a).fields, FactorsValue(b).fields;
    assert "lora_a"[5] == 'a' && "lora_b"[5] == 'b';
    assert f["lora_a"] == g["lora_a"] && f["lora_b"] == g["lora_b"];
    assert PairValue(a.a).items[0] == Int(a.a.0) && PairValue(a.b).items[0] == Int(a.b.0);
    assert PairValue(b.a).items[0] == Int(b.a.0) && PairValue(b.b).items[0] == Int(b.b.0);
    assert PairValue(a.a).items[1] == Int(a.a.1) && PairValue(a.b).items[1] == Int(a.b.1);
    assert PairValue(b.a).items[1] == Int(b.a.1) && PairValue(b.b).items[1] == Int(b.b.1);
  }

  lemma AllFactorsIsInjective(a: map<string, Factors>, b: map<string, Factors>)
    requires AllFactors(a) == AllFactors(b)
    ensures a == b
  {
    hide FactorsValue;
    forall m ensures (m in a <==> m in b) && (m in a ==> a[m] == b[m]) {
      assert m in AllFactors(a) <==> m in AllFactors(b);
      if m in a {
        assert AllFactors(a)[m] == AllFactors(b)[m];
        FactorsValueIsInjective(a[m], b[m]);
      }
    }
    assert a.Keys == b.Keys;
  }

  lemma TextsIsInjective(a: seq<string>, b: seq<string>)
    requires Texts(a) == Texts(b)
    ensures a == b
  {
    assert |a| == |Texts(a)| == |Texts(b)| == |b|;
    forall i | 0 <= i < |a| ensures a[i] == b[i] {
      assert Texts(a)[i] == Texts(b)[i];
    }
  }

  lemma LineageValueIsInjective(a: Lineage, b: Lineage)
    requires LineageValue(a) == LineageValue(b)
    ensures a == b
  {
    hide TargetValue, Texts, AllFactors, LINEAGE_VERSION;
    var f, g := LineageValue(a).fields, LineageValue(b).fields;
    assert |"schema_version"| == 14 && |"target_base"| == 11 && |"rank"| == 4 && |"target_modules"| == 14;
    assert |"tensor_shapes"| == 13 && "schema_version"[0] == 's' && "target_modules"[0] == 't';
    assert f["target_base"] == g["target_base"] && f["rank"] == g["rank"];
    assert f["target_modules"] == g["target_modules"] && f["tensor_shapes"] == g["tensor_shapes"];
    TargetValueIsInjective(a.target, b.target);
    TextsIsInjective(a.modules, b.modules);
    AllFactorsIsInjective(a.shapes, b.shapes);
  }

  lemma AdapterIdentityIsInjective(a: Binding, b: Binding, order: nat)
    requires LineageOf(a).Ok? && LineageOf(b).Ok?
    ensures AdapterIdentity(a, order) == AdapterIdentity(b, order)
      <==> SameArtifact(a, b) && LineageOf(a) == LineageOf(b)
  {
    CertifiedBindingIsInjective(a, b);
    hide CertifiedBinding, LineageValue, ParseLineage, SameArtifact, LINEAGE_KEY;
    if AdapterIdentity(a, order) == AdapterIdentity(b, order) {
      var f, g := AdapterIdentity(a, order).fields, AdapterIdentity(b, order).fields;
      assert |"role"| == 4 && |"order"| == 5 && |"artifact_binding"| == 16 && |"lineage"| == 7;
      assert f["artifact_binding"] == g["artifact_binding"] && f["lineage"] == g["lineage"];
      LineageValueIsInjective(LineageOf(a).value, LineageOf(b).value);
    }
  }

  lemma AdapterIdentitiesAreInjective(a: seq<Binding>, b: seq<Binding>)
    requires forall i :: 0 <= i < |a| ==> LineageOf(a[i]).Ok?
    requires forall i :: 0 <= i < |b| ==> LineageOf(b[i]).Ok?
    ensures AdapterIdentities(a) == AdapterIdentities(b) <==>
      |a| == |b| && forall i :: 0 <= i < |a| ==> SameArtifact(a[i], b[i]) && LineageOf(a[i]) == LineageOf(b[i])
  {
    hide AdapterIdentity, LineageOf, SameArtifact;
    var f, g := AdapterIdentities(a), AdapterIdentities(b);
    assert |f| == |a| && |g| == |b|;
    if |a| == |b| {
      forall i | 0 <= i < |a|
        ensures f[i] == g[i] <==> SameArtifact(a[i], b[i]) && LineageOf(a[i]) == LineageOf(b[i])
      {
        AdapterIdentityIsInjective(a[i], b[i], i);
      }
    }
  }

  /** The base entry of the canonical payload. */
  lemma CanonicalBase(x: ExecutionInput)
    ensures var f := Canonical(x).fields;
      && f.Keys == {"contract_version", "schema_version", "kind", "base", "adapters"}
      && f["contract_version"] == CONTRACT && f["schema_version"] == INPUT_VERSION && f["kind"] == KIND
      && f["adapters"] == Array(AdapterIdentities(x.adapters))
      && f["base"] == Object(BaseIdentity(x.base))
  {
    hide CertifiedBinding, AdapterIdentities, CONTRACT, INPUT_VERSION, KIND, MODEL_KEY, TOKENIZER_KEY, SHAPES_KEY;
    assert |"contract_version"| == 16 && |"schema_version"| == 14;
    assert |"kind"| == 4 && |"base"| == 4 && |"adapters"| == 8;
    assert "kind"[0] == 'k' && "base"[0] == 'b';
  }

  lemma BaseIdentityIsInjective(a: Binding, b: Binding)
    ensures BaseIdentity(a) == BaseIdentity(b) <==>
      && SameArtifact(a, b)
      && Get(a.metadata, MODEL_KEY, Null) == Get(b.metadata, MODEL_KEY, Null)
      && Get(a.metadata, TOKENIZER_KEY, Null) == Get(b.metadata, TOKENIZER_KEY, Null)
      && Get(a.metadata, SHAPES_KEY, Object(map[])) == Get(b.metadata, SHAPES_KEY, Object(map[]))
  {
    CertifiedBindingIsInjective(a, b);
    MetadataKeysDiffer();
    CertifiedKeys(a);
    CertifiedKeys(b);
    hide CertifiedBinding, MODEL_KEY, TOKENIZER_KEY, SHAPES_KEY, SameArtifact, Get;
    var f, g := BaseIdentity(a), BaseIdentity(b);
    var c, d := CertifiedBinding(a).fields, CertifiedBinding(b).fields;
    if f == g {
      assert f[MODEL_KEY] == g[MODEL_KEY] && f[TOKENIZER_KEY] == g[TOKENIZER_KEY] && f[SHAPES_KEY] == g[SHAPES_KEY];
      forall k | k in c ensures c[k] == d[k] {
        assert f[k] == c[k] && g[k] == d[k];
      }
      assert c == d;
      assert CertifiedBinding(a) == CertifiedBinding(b);
    }
  }

  lemma CertifiedKeys(b: Binding)
    ensures CertifiedBinding(b).Object?
    ensures CertifiedBinding(b).fields.Keys
      == {"registry_identity", "content_identity", "format", "quantization", "revision"}
    ensures MODEL_KEY !in CertifiedBinding(b).fields && TOKENIZER_KEY !in CertifiedBinding(b).fields
    ensures SHAPES_KEY !in CertifiedBinding(b).fields
  {
    hide RegistryValue, IdentityOrNull, TextOrNull;
    assert |SHAPES_KEY| == 20 && |MODEL_KEY| == 14 && |TOKENIZER_KEY| == 18;
    assert |"registry_identity"| == 17 && |"content_identity"| == 16 && |"format"| == 6 && |"quantization"| == 12;
    assert |"revision"| == 8;
  }

  /**
   The canonical payload of accepted inputs determines, and is determined by, everything but the locators
   and the rest of the metadata.
  */
  lemma CanonicalIffSameExecution(x: ExecutionInput, y: ExecutionInput)
    requires Make(x.base, x.adapters) == Ok(x) && Make(y.base, y.adapters) == Ok(y)
    ensures Canonical(x) == Canonical(y) <==> SameExecution(x, y)
  {
    hide Make, Canonical, AdapterIdentities, BaseIdentity, SameArtifact, ParseLineage, CONTRACT, INPUT_VERSION, KIND,
      MODEL_KEY, TOKENIZER_KEY, SHAPES_KEY, LINEAGE_KEY, Names, FactorsFit;
    forall i | 0 <= i < |x.adapters| ensures LineageOf(x.adapters[i]).Ok? {
      AcceptedAdapterFits(x, i);
    }
    forall i | 0 <= i < |y.adapters| ensures LineageOf(y.adapters[i]).Ok? {
      AcceptedAdapterFits(y, i);
    }
    CanonicalBase(x);
    CanonicalBase(y);
    CanonicalIsObject(x);
    CanonicalIsObject(y);
    BaseIdentityIsInjective(x.base, y.base);
    AdapterIdentitiesAreInjective(x.adapters, y.adapters);
    var f, g := Canonical(x).fields, Canonical(y).fields;
    if SameExecution(x, y) {
      assert f == g;
    }
  }

  lemma CanonicalIsObject(x: ExecutionInput)
    ensures Canonical(x).Object?
  {
  }

  /** The same input found elsewhere. */
  ghost predicate Moved(x: ExecutionInput, y: ExecutionInput) {
    && y.base == x.base.(locator := y.base.locator) && y.base.locator.kind == "filesystem"
    && |x.adapters| == |y.adapters|
    && forall i :: 0 <= i < |x.adapters| ==>
         y.adapters[i] == x.adapters[i].(locator := y.adapters[i].locator) && y.adapters[i].locator.kind == "filesystem"
  }

  /** Files may lie anywhere: the moved input is accepted, with the same canonical payload and fingerprint. */
  lemma PlacesAreIrrelevant(x: ExecutionInput, y: ExecutionInput)
    requires Make(x.base, x.adapters) == Ok(x) && Moved(x, y)
    ensures Make(y.base, y.adapters) == Ok(y) && Canonical(y) == Canonical(x)
  {
    MovedIsMade(x, y);
    hide Make, Canonical;
    CanonicalIffSameExecution(x, y);
  }

  lemma MovedIsMade(x: ExecutionInput, y: ExecutionInput)
    requires Make(x.base, x.adapters) == Ok(x) && Moved(x, y)
    ensures Make(y.base, y.adapters) == Ok(y)
  {
    hide CheckAdapter, Shapes, IsCompleteScheme, IsNonBlank, SHAPES_KEY, MODEL_KEY, TOKENIZER_KEY;
    if |x.adapters| == 1 {
      MovedAdapter(x.adapters[0], y.adapters[0], x.base, y.base, Shapes(Get(x.base.metadata, SHAPES_KEY, Null)).value);
    }
  }

  lemma MovedAdapter(a: Binding, b: Binding, base: Binding, moved: Binding, shapes: Fields)
    requires CheckAdapter(a, base, shapes).Ok?
    requires b == a.(locator := b.locator) && b.locator.kind == "filesystem" && moved == base.(locator := moved.locator)
    ensures CheckAdapter(b, moved, shapes).Ok?
  {
    hide ParseLineage, FactorsFit, IsCompleteScheme, MODEL_KEY, TOKENIZER_KEY, LINEAGE_KEY;
  }
}

/** Exactly which JSON is read as which content identity, artifact binding and execution input. */
module PayloadTheorems {
  import opened Wrappers
  import opened ExecutionInputs
  import opened ExecutionInputTheorems
  import opened LineageTheorems

  // ----- content identities ------------------------------------------------------------------------

  predicate IsTextOf(v: Value, text: string) {
    v.Text? && Strip(v.s) == text != ""
  }

  predicate IsLowerTextOf(v: Value, text: string) {
    v.Text? && Strip(v.s) != "" && Lower(Strip(v.s)) == text
  }

  lemma TextIff(v: Value, text: string)
    ensures RequiredText(v) == Ok(text) <==> IsTextOf(v, text)
    ensures LowerText(v) == Ok(text) <==> IsLowerTextOf(v, text)
  {
    hide Strip, Lower;
  }

  lemma OptionalTextIff(v: Value, text: Option<string>)
    ensures OptionalText(v) == Ok(text) <==> if v.Null? then text == None else text.Some? && IsTextOf(v, text.value)
  {
    hide Strip;
  }

  /**
   The fields describe the identity `c`: SHA-256 of the artifact, complete, unless they say otherwise; the digest may
   carry its algorithm as a prefix, and is hexadecimal, and lowered, if it is a complete SHA-256.
  */
  predicate DescribesIdentity(v: Value, c: ContentIdentity) {
    && v.Object? && v.fields.Keys <= IDENTITY_KEYS
    && IsLowerTextOf(Get(v.fields, "algorithm", Text("sha256")), c.algorithm)
    && IsTextOf(Get(v.fields, "scope", Text("artifact")), c.scope)
    && IsLowerTextOf(Get(v.fields, "scheme", Text("complete")), c.scheme)
    && (if c.canonicalization.None? then Get(v.fields, "canonicalization_scheme", Null).Null?
        else IsTextOf(Get(v.fields, "canonicalization_scheme", Null), c.canonicalization.value))
    && Canonicalizes(c.scheme, c.canonicalization)
    && "digest" in v.fields && v.fields["digest"].Text? && Strip(v.fields["digest"].s) != ""
    && var digest := WithoutPrefix(c.algorithm, Strip(v.fields["digest"].s));
       if c.algorithm == "sha256" && c.scheme == "complete" then IsHexDigest(digest) && c.digest == Lower(digest)
       else c.digest == digest
  }

  lemma MadeIdentityIff(a: Value, d: Value, s: Value, k: Value, n: Value, c: ContentIdentity)
    ensures MakeIdentity(a, d, s, k, n) == Ok(c) <==>
      && IsLowerTextOf(a, c.algorithm) && IsTextOf(s, c.scope) && IsLowerTextOf(k, c.scheme)
      && (if c.canonicalization.None? then n.Null? else IsTextOf(n, c.canonicalization.value))
      && Canonicalizes(c.scheme, c.canonicalization) && d.Text? && Strip(d.s) != ""
      && var digest := WithoutPrefix(c.algorithm, Strip(d.s));
         if c.algorithm == "sha256" && c.scheme == "complete" then IsHexDigest(digest) && c.digest == Lower(digest)
         else c.digest == digest
  {
    hide RequiredText, LowerText, OptionalText, Canonicalizes, WithoutPrefix, IsHexDigest, Strip, Lower;
    TextIff(a, c.algorithm);
    TextIff(s, c.scope);
    TextIff(k, c.scheme);
    OptionalTextIff(n, c.canonicalization);
    DigestText(d);
  }

  lemma DigestText(d: Value)
    ensures RequiredText(d) == if d.Text? && Strip(d.s) != "" then Ok(Strip(d.s)) else Err(Invalid)
  {
  }

  /** Reading `v` gives this identity if and only if `v` describes it. */
  lemma IdentityIff(v: Value, c: ContentIdentity)
    ensures ParseIdentity(v) == Ok(c) <==> DescribesIdentity(v, c)
  {
    hide MakeIdentity, IsTextOf, IsLowerTextOf, Canonicalizes, WithoutPrefix, IsHexDigest, Strip, Lower;
    var fields := if v.Object? then v.fields else map[];
    MadeIdentityIff(
      Get(fields, "algorithm", Text("sha256")), Get(fields, "digest", Null), Get(fields, "scope", Text("artifact")),
      Get(fields, "scheme", Text("complete")), Get(fields, "canonicalization_scheme", Null), c);
  }

  // ----- bindings ----------------------------------------------------------------------------------

  predicate DescribesLocator(v: Value, l: Locator) {
    && v.Object? && v.fields.Keys <= {"type", "value"}
    && SaysLower(v.fields, "type", l.kind) && Says(v.fields, "value", l.place)
  }

  lemma LocatorIff(v: Value, l: Locator)
    ensures ParseLocator(v) == Ok(l) <==> DescribesLocator(v, l)
  {
    hide RequiredText, LowerText, Says, SaysLower;
    if v.Object? {
      SaysIff(v.fields, "type", l.kind);
      SaysIff(v.fields, "value", l.place);
    }
    NullIsNoText();
    NullIsNoLowerText();
  }

  lemma NullIsNoLowerText()
    ensures LowerText(Null).Err?
  {
  }

  lemma PathIsLocator(path: Value, l: Locator)
    ensures DescribesLocator(Object(map["type" := Text("filesystem"), "value" := path]), l)
      <==> l.kind == "filesystem" && IsTextOf(path, l.place)
  {
    var f := map["type" := Text("filesystem"), "value" := path];
    assert "type"[0] == 't' && "value"[0] == 'v';
    assert f["type"] == Text("filesystem") && f["value"] == path && f.Keys == {"type", "value"};
    FilesystemIsPlain();
    hide Strip, Lower;
  }

  lemma FilesystemIsPlain()
    ensures Strip("filesystem") == "filesystem" && Lower("filesystem") == "filesystem"
  {
    assert Trimmed("filesystem") && IsLower("filesystem");
  }

  /** Where the artifact lies: the locator, or else the local path. */
  predicate DescribesPlace(fields: Fields, l: Locator) {
    var (locator, path) := (Get(fields, "locator", Null), Get(fields, "local_path", Null));
    if !locator.Null? then DescribesLocator(locator, l)
    else !path.Null? && l.kind == "filesystem" && IsTextOf(path, l.place)
  }

  lemma PlaceIff(fields: Fields, l: Locator)
    ensures ParseLocator(Place(Get(fields, "locator", Null), Get(fields, "local_path", Null))) == Ok(l)
      <==> DescribesPlace(fields, l)
  {
    hide ParseLocator, DescribesLocator, IsTextOf;
    LocatorIff(Place(Get(fields, "locator", Null), Get(fields, "local_path", Null)), l);
    PathIsLocator(Get(fields, "local_path", Null), l);
    NullIsNoLocator(l);
  }

  lemma NullIsNoLocator(l: Locator)
    ensures !DescribesLocator(Null, l)
  {
  }

  /** The id of the artifact: its own field, or else that of the registry identity, which then must be an object. */
  predicate DescribesId(fields: Fields, id: string) {
    var registry := Get(fields, "registry_identity", Null);
    && (registry.Null? || registry.Object?)
    && if "artifact_id" in fields then IsTextOf(fields["artifact_id"], id)
       else registry.Object? && "artifact_id" in registry.fields && IsTextOf(registry.fields["artifact_id"], id)
  }

  /** `v` describes the binding `b`. */
  predicate DescribesBinding(v: Value, b: Binding) {
    && v.Object? && v.fields.Keys <= BINDING_KEYS
    && Get(v.fields, "contract_version", Null) in {Null, CONTRACT}
    && DescribesId(v.fields, b.artifactId) && DescribesPlace(v.fields, b.locator)
    && (var identity := Get(v.fields, "content_identity", Null);
        if b.identity.None? then identity.Null? else !identity.Null? && DescribesIdentity(identity, b.identity.value))
    && (var format := Get(v.fields, "format", Null);
        if b.format.None? then format.Null? else IsLowerTextOf(format, b.format.value))
    && b.quantization == Get(v.fields, "quantization", Null) && b.revision == Get(v.fields, "revision", Null)
    && Object(b.metadata) == Get(v.fields, "metadata", Object(map[]))
  }

  lemma OptionalIdentityIff(v: Value, c: Option<ContentIdentity>)
    ensures ParseOptionalIdentity(v) == Ok(c) <==>
      if c.None? then v.Null? else !v.Null? && DescribesIdentity(v, c.value)
  {
    hide ParseIdentity, DescribesIdentity;
    if c.Some? {
      IdentityIff(v, c.value);
    }
  }

  lemma FormatIff(v: Value, format: Option<string>)
    ensures ParseFormat(v) == Ok(format) <==> if format.None? then v.Null? else IsLowerTextOf(v, format.value)
  {
    hide LowerText, IsLowerTextOf;
    if format.Some? {
      TextIff(v, format.value);
    }
    NullIsNoLowerText();
  }

  lemma MadeBindingIff(
    id: Value, place: Value, identity: Value, format: Value, quantization: Value, revision: Value, metadata: Value,
    b: Binding)
    ensures MakeBinding(id, place, identity, format, quantization, revision, metadata) == Ok(b) <==>
      && RequiredText(id) == Ok(b.artifactId) && ParseLocator(place) == Ok(b.locator)
      && ParseOptionalIdentity(identity) == Ok(b.identity) && ParseFormat(format) == Ok(b.format)
      && quantization == b.quantization && revision == b.revision && metadata == Object(b.metadata)
  {
    hide RequiredText, ParseLocator, ParseOptionalIdentity, ParseFormat;
  }

  lemma IdIff(fields: Fields, id: string)
    ensures var registry := Get(fields, "registry_identity", Null);
      (registry.Null? || registry.Object?)
      && RequiredText(Get(fields, "artifact_id",
                          if registry.Object? then Get(registry.fields, "artifact_id", Null) else Null)) == Ok(id)
      <==> DescribesId(fields, id)
  {
    hide RequiredText, IsTextOf;
    var registry := Get(fields, "registry_identity", Null);
    NullIsNoText();
    var other := if registry.Object? then Get(registry.fields, "artifact_id", Null) else Null;
    TextIff(Get(fields, "artifact_id", other), id);
  }

  /** Reading `v` gives this binding if and only if `v` describes it. */
  lemma BindingIff(v: Value, b: Binding)
    ensures ParseBinding(v) == Ok(b) <==> DescribesBinding(v, b)
  {
    hide RequiredText, ParseLocator, ParseOptionalIdentity, ParseFormat, DescribesId, DescribesPlace, DescribesIdentity,
      IsLowerTextOf, Place, MakeBinding, BINDING_KEYS, CONTRACT;
    var fields := if v.Object? then v.fields else map[];
    IdIff(fields, b.artifactId);
    PlaceIff(fields, b.locator);
    OptionalIdentityIff(Get(fields, "content_identity", Null), b.identity);
    FormatIff(Get(fields, "format", Null), b.format);
    var registry := Get(fields, "registry_identity", Null);
    MadeBindingIff(
      Get(fields, "artifact_id", if registry.Object? then Get(registry.fields, "artifact_id", Null) else Null),
      Place(Get(fields, "locator", Null), Get(fields, "local_path", Null)),
      Get(fields, "content_identity", Null), Get(fields, "format", Null), Get(fields, "quantization", Null),
      Get(fields, "revision", Null), Get(fields, "metadata", Object(map[])), b);
    NothingIsNoId(b.artifactId);
  }

  lemma NothingIsNoId(id: string)
    ensures !DescribesId(map[], id)
  {
  }

  // ----- execution inputs --------------------------------------------------------------------------

  predicate DescribesBindings(items: seq<Value>, bs: seq<Binding>) {
    |items| == |bs| && forall i :: 0 <= i < |bs| ==> DescribesBinding(items[i], bs[i])
  }

  lemma {:induction false} BindingsIff(items: seq<Value>, bs: seq<Binding>)
    ensures ParseBindings(items) == Ok(bs) <==> DescribesBindings(items, bs)
  {
    hide ParseBinding, DescribesBinding;
    if items != [] && bs != [] {
      BindingIff(items[0], bs[0]);
      BindingsIff(items[1..], bs[1..]);
      assert bs == [bs[0]] + bs[1..];
      if DescribesBinding(items[0], bs[0]) && DescribesBindings(items[1..], bs[1..]) {
        assert forall i :: 0 < i < |bs| ==> items[i] == items[1..][i - 1] && bs[i] == bs[1..][i - 1];
      }
    }
  }

  /** `v` describes the bindings from which `x` is made, and states its fingerprint or none. */
  ghost predicate DescribesInput(v: Value, x: ExecutionInput, fingerprint: Value -> string) {
    && v.Object? && v.fields.Keys <= INPUT_KEYS
    && Get(v.fields, "contract_version", Null) == CONTRACT && Get(v.fields, "schema_version", Null) == INPUT_VERSION
    && Get(v.fields, "kind", Null) == KIND
    && Get(v.fields, "adapters", Null).Array? && |Get(v.fields, "adapters", Null).items| <= 1
    && Get(v.fields, "execution_input_fingerprint", Null) in {Null, Text(fingerprint(Canonical(x)))}
    && exists base, adapters ::
         && DescribesBinding(Get(v.fields, "base", Null), base)
         && DescribesBindings(Get(v.fields, "adapters", Null).items, adapters)
         && Make(base, adapters) == Ok(x)
  }

  /** Reading `v` gives this execution input if and only if `v` describes it. */
  lemma InputIff(v: Value, x: ExecutionInput, fingerprint: Value -> string)
    ensures Parse(v, fingerprint) == Ok(x) <==> DescribesInput(v, x, fingerprint)
  {
    hide ParseBinding, ParseBindings, DescribesBinding, DescribesBindings, Make, Canonical, INPUT_KEYS, CONTRACT,
      INPUT_VERSION, KIND;
    if Parse(v, fingerprint) == Ok(x) {
      var fields := ParsedFields(v, fingerprint);
      var base, adapters := ParseBinding(Get(fields, "base", Null)).value,
                            ParseBindings(Get(fields, "adapters", Null).items).value;
      BindingIff(Get(fields, "base", Null), base);
      BindingsIff(Get(fields, "adapters", Null).items, adapters);
    }
    if DescribesInput(v, x, fingerprint) {
      var base, adapters :|
        && DescribesBinding(Get(v.fields, "base", Null), base)
        && DescribesBindings(Get(v.fields, "adapters", Null).items, adapters)
        && Make(base, adapters) == Ok(x);
      BindingIff(Get(v.fields, "base", Null), base);
      BindingsIff(Get(v.fields, "adapters", Null).items, adapters);
    }
  }

  lemma ParsedFields(v: Value, fingerprint: Value -> string) returns (fields: Fields)
    requires Parse(v, fingerprint).Ok?
    ensures v == Object(fields)
    ensures Get(fields, "adapters", Null).Array?
    ensures ParseBinding(Get(fields, "base", Null)).Ok? && ParseBindings(Get(fields, "adapters", Null).items).Ok?
  {
    hide ParseBinding, ParseBindings, Make, Canonical, INPUT_KEYS, CONTRACT, INPUT_VERSION, KIND;
    fields := if v.Object? then v.fields else map[];
    assert CONTRACT != Null by {
      ContractIsText();
    }
  }

  lemma ContractIsText()
    ensures CONTRACT.Text?
  {
  }
}

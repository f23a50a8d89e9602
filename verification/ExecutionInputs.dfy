/**
 Execution inputs: a base model and at most one adapter, parsed from JSON, checked for compatibility, and
 written back. A failure is known by the class of the exception.
*/
module ExecutionInputs {
  import opened Wrappers

  /** JSON; numbers that are not integers are kept as their text. */
  datatype Value =
    | Null | Bool(b: bool) | Int(n: int) | Float(text: string) | Text(s: string)
    | Array(items: seq<Value>) | Object(fields: map<string, Value>)

  type Fields = map<string, Value>

  /** ValueError or TypeError; ArtifactCompatibilityError; the two errors for unsupported inputs. */
  datatype Failure = Invalid | Incompatible | UnsupportedLocator | UnsupportedInput

  // ----- text ------------------------------------------------------------------------------------

  predicate IsSpace(c: char) {
    || '\t' <= c <= '\r' || '\U{1C}' <= c <= ' ' || c == '\U{85}' || c == '\U{A0}' || c == '\U{1680}'
    || '\U{2000}' <= c <= '\U{200A}' || c in {'\U{2028}', '\U{2029}', '\U{202F}', '\U{205F}', '\U{3000}'}
  }

  predicate Trimmed(s: string) {
    s != "" ==> !IsSpace(s[0]) && !IsSpace(s[|s| - 1])
  }

  function StripLeft(s: string): (r: string)
    ensures r != "" ==> !IsSpace(r[0])
    ensures s != "" && !IsSpace(s[0]) ==> r == s
  {
    if s != "" && IsSpace(s[0]) then StripLeft(s[1..]) else s
  }

  function StripRight(s: string): (r: string)
    ensures r <= s
    ensures r != "" ==> !IsSpace(r[|r| - 1])
    ensures s != "" && !IsSpace(s[|s| - 1]) ==> r == s
  {
    if s != "" && IsSpace(s[|s| - 1]) then StripRight(s[..|s| - 1]) else s
  }

  /** `str.strip`. */
  function Strip(s: string): (r: string)
    ensures Trimmed(r)
    ensures Trimmed(s) ==> r == s
  {
    StripRight(StripLeft(s))
  }

  function LowerChar(c: char): (r: char)
    ensures IsSpace(c) <==> IsSpace(r)
    ensures !('A' <= r <= 'Z')
  {
    if 'A' <= c <= 'Z' then c + ' ' else c
  }

  predicate IsLower(s: string) {
    forall i :: 0 <= i < |s| ==> !('A' <= s[i] <= 'Z')
  }

  /** `str.lower`, on ASCII letters. */
  function Lower(s: string): (r: string)
    ensures |r| == |s| && IsLower(r)
    ensures Trimmed(s) ==> Trimmed(r)
    ensures IsLower(s) ==> r == s
  {
    seq(|s|, i requires 0 <= i < |s| => LowerChar(s[i]))
  }

  /** `_required_text`. */
  function RequiredText(v: Value): (r: Result<string, Failure>)
    ensures r.Ok? ==> r.value != "" && Trimmed(r.value)
  {
    if v.Text? && Strip(v.s) != "" then Ok(Strip(v.s)) else Err(Invalid)
  }

  function LowerText(v: Value): (r: Result<string, Failure>)
    ensures r.Ok? ==> r.value != "" && Trimmed(r.value) && IsLower(r.value)
  {
    var text :- RequiredText(v);
    Ok(Lower(text))
  }

  // ----- dictionaries ----------------------------------------------------------------------------

  function Get(fields: Fields, key: string, default: Value): Value {
    if key in fields then fields[key] else default
  }

  /** `_mapping`, and no keys but the allowed ones. */
  function Mapping(v: Value, allowed: set<string>): Result<Fields, Failure> {
    if v.Null? then Ok(map[])
    else if v.Object? && v.fields.Keys <= allowed then Ok(v.fields)
    else Err(Invalid)
  }

  // ----- content identities ------------------------------------------------------------------------

  datatype ContentIdentity = ContentIdentity(
    algorithm: string, digest: string, scope: string, scheme: string, canonicalization: Option<string>)

  predicate IsHexDigest(s: string) {
    |s| == 64 && forall i :: 0 <= i < 64 ==> '0' <= s[i] <= '9' || 'a' <= s[i] <= 'f' || 'A' <= s[i] <= 'F'
  }

  function AfterColon(s: string): string {
    if s == "" then "" else if s[0] == ':' then s[1..] else AfterColon(s[1..])
  }

  predicate HasPrefix(algorithm: string, digest: string) {
    algorithm + ":" <= Lower(digest)
  }

  function WithoutPrefix(algorithm: string, digest: string): string {
    if HasPrefix(algorithm, digest) then AfterColon(digest) else digest
  }

  predicate Canonicalizes(scheme: string, canonicalization: Option<string>) {
    match scheme
    case "complete" => canonicalization in {Some("complete-file-v1"), Some("complete-directory-manifest-v1")}
    case "fast" => canonicalization in {Some("fast-file-v1"), Some("fast-directory-manifest-v1")}
    case "legacy" => canonicalization == None
    case _ => false
  }

  function OptionalText(v: Value): Result<Option<string>, Failure> {
    if v.Null? then Ok(None)
    else
      var text :- RequiredText(v);
      Ok(Some(text))
  }

  predicate IsCompleteScheme(algorithm: string, scheme: string) {
    algorithm == "sha256" && scheme == "complete"
  }

  predicate IsCompleteSha256(c: ContentIdentity) {
    IsCompleteScheme(c.algorithm, c.scheme)
  }

  const IDENTITY_KEYS: set<string> := {"algorithm", "digest", "scope", "scheme", "canonicalization_scheme"}

  /** The constructor of ContentIdentity. */
  function MakeIdentity(algorithm: Value, digest: Value, scope: Value, scheme: Value, canonicalization: Value)
    : Result<ContentIdentity, Failure>
  {
    var a :- LowerText(algorithm);
    var d :- RequiredText(digest);
    var sc :- RequiredText(scope);
    var kind :- LowerText(scheme);
    var form :- OptionalText(canonicalization);
    var c := ContentIdentity(a, WithoutPrefix(a, d), sc, kind, form);
    if !Canonicalizes(kind, form) then Err(Invalid)
    else if !IsCompleteSha256(c) then Ok(c)
    else if IsHexDigest(c.digest) then Ok(c.(digest := Lower(c.digest)))
    else Err(Invalid)
  }

  /** `ContentIdentity.from_payload`. */
  function ParseIdentity(v: Value): Result<ContentIdentity, Failure> {
    var fields :- Mapping(v, IDENTITY_KEYS);
    MakeIdentity(
      Get(fields, "algorithm", Text("sha256")), Get(fields, "digest", Null), Get(fields, "scope", Text("artifact")),
      Get(fields, "scheme", Text("complete")), Get(fields, "canonicalization_scheme", Null))
  }

  function TextOrNull(s: Option<string>): Value {
    if s.Some? then Text(s.value) else Null
  }

  function IdentityValue(c: ContentIdentity): Value {
    Object(map["algorithm" := Text(c.algorithm), "digest" := Text(c.digest), "scope" := Text(c.scope),
               "scheme" := Text(c.scheme), "canonicalization_scheme" := TextOrNull(c.canonicalization)])
  }

  // ----- locators and bindings ---------------------------------------------------------------------

  datatype Locator = Locator(kind: string, place: string)

  function ParseLocator(v: Value): Result<Locator, Failure> {
    var fields :- Mapping(v, {"type", "value"});
    var kind :- LowerText(Get(fields, "type", Null));
    var place :- RequiredText(Get(fields, "value", Null));
    Ok(Locator(kind, place))
  }

  function LocatorValue(l: Locator): Value {
    Object(map["type" := Text(l.kind), "value" := Text(l.place)])
  }

  /** Quantization and revision are not checked here. */
  datatype Binding = Binding(
    artifactId: string, locator: Locator, identity: Option<ContentIdentity>, format: Option<string>,
    quantization: Value, revision: Value, metadata: Fields)

  const CONTRACT: Value := Text("runtime-foundation.contract.v2")

  const BINDING_KEYS: set<string> := {
    "contract_version", "registry_identity", "artifact_id", "content_identity", "locator", "local_path",
    "format", "quantization", "revision", "metadata"}

  function ParseOptionalIdentity(v: Value): Result<Option<ContentIdentity>, Failure> {
    if v.Null? then Ok(None)
    else
      var c :- ParseIdentity(v);
      Ok(Some(c))
  }

  function ParseFormat(v: Value): Result<Option<string>, Failure> {
    if v.Null? then Ok(None)
    else
      var format :- LowerText(v);
      Ok(Some(format))
  }

  function MakeBinding(
    artifactId: Value, place: Value, identity: Value, format: Value, quantization: Value, revision: Value,
    metadata: Value)
    : Result<Binding, Failure>
  {
    var id :- RequiredText(artifactId);
    var locator :- ParseLocator(place);
    var content :- ParseOptionalIdentity(identity);
    var form :- ParseFormat(format);
    if metadata.Object? then Ok(Binding(id, locator, content, form, quantization, revision, metadata.fields))
    else Err(Invalid)
  }

  /** A local path stands for a filesystem locator. */
  function Place(locator: Value, path: Value): Value {
    if locator.Null? && !path.Null? then Object(map["type" := Text("filesystem"), "value" := path]) else locator
  }

  /** `ArtifactBindingV2.from_payload`. */
  function ParseBinding(v: Value): Result<Binding, Failure> {
    var fields :- Mapping(v, BINDING_KEYS);
    var registry := Get(fields, "registry_identity", Null);
    if Get(fields, "contract_version", Null) !in {Null, CONTRACT} then Err(Invalid)
    else if !registry.Null? && !registry.Object? then Err(Invalid)
    else
      MakeBinding(
        Get(fields, "artifact_id", if registry.Object? then Get(registry.fields, "artifact_id", Null) else Null),
        Place(Get(fields, "locator", Null), Get(fields, "local_path", Null)),
        Get(fields, "content_identity", Null), Get(fields, "format", Null), Get(fields, "quantization", Null),
        Get(fields, "revision", Null), Get(fields, "metadata", Object(map[])))
  }

  function IdentityOrNull(c: Option<ContentIdentity>): Value {
    if c.Some? then IdentityValue(c.value) else Null
  }

  function RegistryValue(artifactId: string): Value {
    Object(map["artifact_id" := Text(artifactId)])
  }

  /** `ArtifactBindingV2.to_dict`. */
  function BindingValue(b: Binding): Value {
    Object(map[
      "contract_version" := CONTRACT, "registry_identity" := RegistryValue(b.artifactId),
      "artifact_id" := Text(b.artifactId), "content_identity" := IdentityOrNull(b.identity),
      "locator" := LocatorValue(b.locator), "format" := TextOrNull(b.format), "quantization" := b.quantization,
      "revision" := b.revision, "metadata" := Object(b.metadata)])
  }

  /** `ArtifactBindingV2.canonical_payload`: no locator, no metadata. */
  function CertifiedBinding(b: Binding): Value {
    Object(map[
      "registry_identity" := RegistryValue(b.artifactId), "content_identity" := IdentityOrNull(b.identity),
      "format" := TextOrNull(b.format), "quantization" := b.quantization, "revision" := b.revision])
  }

  // ----- the lineage of an adapter -----------------------------------------------------------------

  /** `lineage.target_base.canonical_payload()`; the locator is parsed, then plays no part. */
  datatype TargetBase = TargetBase(
    artifactId: string, identity: ContentIdentity, revision: string, format: string, quantization: string,
    model: string, tokenizer: string)

  datatype Factors = Factors(a: (int, int), b: (int, int))

  datatype Lineage = Lineage(target: TargetBase, rank: int, modules: seq<string>, shapes: map<string, Factors>)

  const LINEAGE_VERSION: Value := Text("runtime-foundation.adapter-lineage.v1")
  const LINEAGE_KEY: string := "runtime_foundation_adapter_lineage"

  const TARGET_KEYS: set<string> := {
    "artifact_id", "content_identity", "revision", "format", "quantization", "model_identity", "tokenizer_identity",
    "locator"}

  function ParseTarget(v: Value): Result<TargetBase, Failure> {
    var fields :- Mapping(v, TARGET_KEYS);
    var identity :- ParseIdentity(Get(fields, "content_identity", Null));
    var located :- if Get(fields, "locator", Null).Null? then Ok(Locator("", "")) else ParseLocator(fields["locator"]);
    var artifactId :- RequiredText(Get(fields, "artifact_id", Null));
    var revision :- RequiredText(Get(fields, "revision", Null));
    var format :- LowerText(Get(fields, "format", Null));
    var quantization :- RequiredText(Get(fields, "quantization", Null));
    var model :- RequiredText(Get(fields, "model_identity", Null));
    var tokenizer :- RequiredText(Get(fields, "tokenizer_identity", Null));
    Ok(TargetBase(artifactId, identity, revision, format, quantization, model, tokenizer))
  }

  /** `_positive_shape`. */
  function ParsePair(v: Value): (r: Result<(int, int), Failure>)
    ensures r.Ok? ==> r.value.0 > 0 && r.value.1 > 0
  {
    if v.Array? && |v.items| == 2 && v.items[0].Int? && v.items[1].Int? && v.items[0].n > 0 && v.items[1].n > 0
    then Ok((v.items[0].n, v.items[1].n))
    else Err(Invalid)
  }

  function ParseFactors(v: Value): Result<Factors, Failure> {
    if !v.Object? || v.fields.Keys != {"lora_a", "lora_b"} then Err(Invalid)
    else
      var a :- ParsePair(v.fields["lora_a"]);
      var b :- ParsePair(v.fields["lora_b"]);
      Ok(Factors(a, b))
  }

  function ParseModules(items: seq<Value>): (r: Result<seq<string>, Failure>)
    ensures r.Ok? ==> |r.value| == |items|
  {
    if items == [] then Ok([])
    else
      var first :- RequiredText(items[0]);
      var rest :- ParseModules(items[1..]);
      Ok([first] + rest)
  }

  predicate NoDuplicates(s: seq<string>) {
    forall i, j :: 0 <= i < j < |s| ==> s[i] != s[j]
  }

  /** `AdapterLineageV1.from_payload`, with the checks of the constructor. */
  function ParseLineage(v: Value): Result<Lineage, Failure> {
    var fields :- Mapping(v, {"schema_version", "target_base", "rank", "target_modules", "tensor_shapes"});
    var modules, rank := Get(fields, "target_modules", Null), Get(fields, "rank", Null);
    var shapes := Get(fields, "tensor_shapes", Null);
    if Get(fields, "schema_version", Null) != LINEAGE_VERSION || !modules.Array? then Err(Invalid)
    else
      var target :- ParseTarget(Get(fields, "target_base", Null));
      if !rank.Int? || rank.n <= 0 || modules.items == [] then Err(Invalid)
      else
        var names :- ParseModules(modules.items);
        if !NoDuplicates(names) || !shapes.Object? || shapes.fields.Keys != (set n | n in names) then Err(Invalid)
        else if exists n :: n in names && n in shapes.fields && ParseFactors(shapes.fields[n]).Err? then Err(Invalid)
        else Ok(Lineage(target, rank.n, names,
                        map n | n in names && n in shapes.fields && ParseFactors(shapes.fields[n]).Ok?
                          :: ParseFactors(shapes.fields[n]).value))
  }

  // ----- the execution input -----------------------------------------------------------------------

  datatype ExecutionInput = ExecutionInput(base: Binding, adapters: seq<Binding>)

  const SHAPES_KEY: string := "target_module_shapes"
  const MODEL_KEY: string := "model_identity"
  const TOKENIZER_KEY: string := "tokenizer_identity"

  predicate IsNonBlank(v: Value) {
    v.Text? && Strip(v.s) != ""
  }

  /** One entry of the base's manifest: the module and exactly its two positive dimensions. */
  predicate ValidShape(entry: Value) {
    && entry.Object? && entry.fields.Keys == {"in_features", "out_features"}
    && entry.fields["in_features"].Int? && entry.fields["in_features"].n > 0
    && entry.fields["out_features"].Int? && entry.fields["out_features"].n > 0
  }

  /** `normalized_shapes`. */
  function Shapes(v: Value): Result<Fields, Failure> {
    if v.Null? then Ok(map[])
    else if !v.Object? then Err(Incompatible)
    else if exists m :: m in v.fields && (Strip(m) == "" || !ValidShape(v.fields[m])) then Err(Incompatible)
    else Ok(v.fields)
  }

  /** The loop that fills `normalized_shapes`, module by module. */
  method NormalizeShapes(v: Value) returns (r: Result<Fields, Failure>)
    ensures r == Shapes(v)
  {
    if v.Null? {
      return Ok(map[]);
    }
    if !v.Object? {
      return Err(Incompatible);
    }
    var normalized: Fields := map[];
    var modules := v.fields.Keys;
    while modules != {}
      invariant modules <= v.fields.Keys && normalized.Keys == v.fields.Keys - modules
      invariant forall m :: m in normalized ==>
        Strip(m) != "" && ValidShape(v.fields[m]) && normalized[m] == v.fields[m]
    {
      var m :| m in modules;
      var entry := v.fields[m];
      if Strip(m) == "" || !ValidShape(entry) {
        return Err(Incompatible);
      }
      ShapeIsItsDimensions(entry);
      normalized := normalized[m := Object(map["in_features" := entry.fields["in_features"],
                                               "out_features" := entry.fields["out_features"]])];
      modules := modules - {m};
    }
    assert normalized == v.fields;
    return Ok(normalized);
  }

  lemma ShapeIsItsDimensions(entry: Value)
    requires ValidShape(entry)
    ensures entry == Object(map["in_features" := entry.fields["in_features"],
                                "out_features" := entry.fields["out_features"]])
  {
    assert entry.fields == map["in_features" := entry.fields["in_features"],
                               "out_features" := entry.fields["out_features"]];
  }

  predicate HasCompleteIdentity(b: Binding) {
    b.identity.Some? && IsCompleteSha256(b.identity.value)
  }

  /** The lineage names this base, field by field. */
  predicate Names(target: TargetBase, base: Binding) {
    && base.identity == Some(target.identity)
    && target.artifactId == base.artifactId && base.format == Some(target.format)
    && base.revision == Text(target.revision) && base.quantization == Text(target.quantization)
    && Get(base.metadata, MODEL_KEY, Null) == Text(target.model)
    && Get(base.metadata, TOKENIZER_KEY, Null) == Text(target.tokenizer)
  }

  /** The two factors have the dimensions of the module, through the rank. */
  predicate FactorsFit(f: Factors, rank: int, shape: Value) {
    && ValidShape(shape)
    && f.a == (shape.fields["in_features"].n, rank) && f.b == (rank, shape.fields["out_features"].n)
  }

  predicate LineageFits(l: Lineage, base: Binding, shapes: Fields) {
    && Names(l.target, base)
    && forall m :: m in l.modules ==> m in shapes && m in l.shapes && FactorsFit(l.shapes[m], l.rank, shapes[m])
  }

  function CheckAdapter(adapter: Binding, base: Binding, shapes: Fields): Result<(), Failure> {
    if adapter.locator.kind != "filesystem" then Err(UnsupportedLocator)
    else if adapter.format.None? || adapter.revision.Null? || !HasCompleteIdentity(adapter) then Err(Incompatible)
    else if !Get(adapter.metadata, LINEAGE_KEY, Null).Object? then Err(Incompatible)
    else
      var lineage :- ParseLineage(adapter.metadata[LINEAGE_KEY]);
      if LineageFits(lineage, base, shapes) then Ok(()) else Err(Incompatible)
  }

  /** `ExecutionInputV1.__post_init__`, for bindings that were constructed before. */
  function Make(base: Binding, adapters: seq<Binding>): Result<ExecutionInput, Failure> {
    var given := Get(base.metadata, SHAPES_KEY, Null);
    if |adapters| > 1 then Err(UnsupportedInput)
    else if base.locator.kind != "filesystem" then Err(UnsupportedLocator)
    else if base.format.None? || base.quantization.Null? || base.revision.Null? then Err(Incompatible)
    else if !HasCompleteIdentity(base) then Err(Incompatible)
    else if !IsNonBlank(Get(base.metadata, MODEL_KEY, Null)) || !IsNonBlank(Get(base.metadata, TOKENIZER_KEY, Null))
    then Err(Incompatible)
    else if |adapters| == 1 && (!given.Object? || given.fields == map[]) then Err(Incompatible)
    else
      var shapes :- Shapes(given);
      var _ :- if |adapters| == 1 then CheckAdapter(adapters[0], base, shapes) else Ok(());
      Ok(ExecutionInput(base.(metadata := base.metadata[SHAPES_KEY := Object(shapes)]), adapters))
  }

  function ParseBindings(items: seq<Value>): (r: Result<seq<Binding>, Failure>)
    ensures r.Ok? ==> |r.value| == |items|
  {
    if items == [] then Ok([])
    else
      var first :- ParseBinding(items[0]);
      var rest :- ParseBindings(items[1..]);
      Ok([first] + rest)
  }

  const INPUT_VERSION: Value := Text("runtime-foundation.execution-input.v1")
  const KIND: Value := Text("base_plus_adapters")

  const INPUT_KEYS: set<string> := {
    "contract_version", "schema_version", "kind", "base", "adapters", "execution_input_fingerprint"}

  function LineageValue(l: Lineage): Value {
    Object(map["schema_version" := LINEAGE_VERSION, "target_base" := TargetValue(l.target), "rank" := Int(l.rank),
               "target_modules" := Array(Texts(l.modules)), "tensor_shapes" := Object(AllFactors(l.shapes))])
  }

  function Texts(s: seq<string>): seq<Value> {
    seq(|s|, i requires 0 <= i < |s| => Text(s[i]))
  }

  function AllFactors(shapes: map<string, Factors>): Fields {
    map m | m in shapes :: FactorsValue(shapes[m])
  }

  function TargetValue(t: TargetBase): Value {
    Object(map["artifact_id" := Text(t.artifactId), "content_identity" := IdentityValue(t.identity),
               "revision" := Text(t.revision), "format" := Text(t.format), "quantization" := Text(t.quantization),
               "model_identity" := Text(t.model), "tokenizer_identity" := Text(t.tokenizer)])
  }

  function PairValue(p: (int, int)): Value {
    Array([Int(p.0), Int(p.1)])
  }

  function FactorsValue(f: Factors): Value {
    Object(map["lora_a" := PairValue(f.a), "lora_b" := PairValue(f.b)])
  }

  function AdapterIdentity(b: Binding, order: nat): Value {
    var lineage := ParseLineage(Get(b.metadata, LINEAGE_KEY, Null));
    Object(map["role" := Text("lora_adapter"), "order" := Int(order), "artifact_binding" := CertifiedBinding(b),
               "lineage" := if lineage.Ok? then LineageValue(lineage.value) else Null])
  }

  function BaseIdentity(b: Binding): Fields {
    CertifiedBinding(b).fields + map[
      MODEL_KEY := Get(b.metadata, MODEL_KEY, Null), TOKENIZER_KEY := Get(b.metadata, TOKENIZER_KEY, Null),
      SHAPES_KEY := Get(b.metadata, SHAPES_KEY, Object(map[]))]
  }

  function AdapterIdentities(bs: seq<Binding>): seq<Value> {
    seq(|bs|, i requires 0 <= i < |bs| => AdapterIdentity(bs[i], i))
  }

  function BindingValues(bs: seq<Binding>): seq<Value> {
    seq(|bs|, i requires 0 <= i < |bs| => BindingValue(bs[i]))
  }

  /** `ExecutionInputV1.canonical_payload`: what the fingerprint is computed from. */
  function Canonical(x: ExecutionInput): Value {
    Object(map["contract_version" := CONTRACT, "schema_version" := INPUT_VERSION, "kind" := KIND,
               "base" := Object(BaseIdentity(x.base)),
               "adapters" := Array(AdapterIdentities(x.adapters))])
  }

  /** `ExecutionInputV1.to_dict`; `fingerprint` stands for SHA-256 of the canonical JSON. */
  function Payload(x: ExecutionInput, fingerprint: Value -> string): Value {
    Object(map["contract_version" := CONTRACT, "schema_version" := INPUT_VERSION, "kind" := KIND,
               "base" := BindingValue(x.base),
               "adapters" := Array(BindingValues(x.adapters)),
               "execution_input_fingerprint" := Text(fingerprint(Canonical(x)))])
  }

  /** `ExecutionInputV1.from_payload`. */
  function Parse(v: Value, fingerprint: Value -> string): Result<ExecutionInput, Failure> {
    var fields :- Mapping(v, INPUT_KEYS);
    var adapters, expected := Get(fields, "adapters", Null), Get(fields, "execution_input_fingerprint", Null);
    if Get(fields, "contract_version", Null) != CONTRACT || Get(fields, "schema_version", Null) != INPUT_VERSION
    then Err(Invalid)
    else if !adapters.Array? then Err(Invalid)
    else if |adapters.items| > 1 then Err(UnsupportedInput)
    else
      var base :- ParseBinding(Get(fields, "base", Null));
      var parsed :- ParseBindings(adapters.items);
      if Get(fields, "kind", Null) != KIND then Err(Invalid)
      else
        var x :- Make(base, parsed);
        if !expected.Null? && expected != Text(fingerprint(Canonical(x))) then Err(Invalid) else Ok(x)
  }
}

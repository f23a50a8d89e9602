/** How the llama.cpp adapter turns requested load options into the options that it passes explicitly. */
module LoadResolver {
  import opened Wrappers
  import opened SettingsEvidence

  datatype Backend = Auto | Cpu | Metal

  datatype Layers = AllLayers | Count(n: int)

  datatype LoadOptions = LoadOptions(
    context: Option<int>, batch: Option<int>, ubatch: Option<int>, threads: Option<int>,
    keyType: Option<string>, valueType: Option<string>,
    backend: Backend, device: Option<string>, layers: Option<Layers>)

  const MAX_TOKENS: nat := 1_048_576
  const MAX_THREADS: nat := 4096
  const MAX_LAYERS: nat := 4096
  const DEFAULT_BATCH: nat := 512

  predicate PositiveUpTo(value: Option<int>, maximum: nat) {
    value.Some? ==> 0 < value.value <= maximum
  }

  predicate NonEmptyText(value: Option<string>) {
    value.Some? ==> value.value != ""
  }

  /** Otherwise the constructor of LoadOptions, or `from_payload`, raises ValueError. */
  predicate Valid(o: LoadOptions) {
    && PositiveUpTo(o.context, MAX_TOKENS) && PositiveUpTo(o.batch, MAX_TOKENS)
    && PositiveUpTo(o.ubatch, MAX_TOKENS) && PositiveUpTo(o.threads, MAX_THREADS)
    && (o.batch.Some? && o.ubatch.Some? ==> o.ubatch.value <= o.batch.value)
    && NonEmptyText(o.keyType) && NonEmptyText(o.valueType) && NonEmptyText(o.device)
    && (o.layers.Some? && o.layers.value.Count? ==> 0 <= o.layers.value.n <= MAX_LAYERS)
  }

  /** What the native binding, the host and the validated GGUF header report. */
  datatype Native = Native(metalBuild: bool, gpuOffload: bool, kvTypes: seq<string>)

  type Positive = n: int | 0 < n witness 1

  datatype Observation = Observation(trainedContext: Option<Positive>, blockCount: Option<int>)

  datatype Environment = Environment(
    native: Option<Native>, observation: Option<Observation>, hostMetal: bool, cpus: Option<nat>)

  datatype LoadError =
    | EngineUnavailable
    | InvalidRequest
    | NoObservation
    | NoContextSize
    | ContextExceedsTraining
    | BatchExceedsContext
    | DeviceNotExposed
    | MetalUnavailable
    | NoGpuOffload
    | MetalWithoutLayers
    | TooManyLayers
    | CpuCannotOffload
    | UnknownKeyType
    | UnknownValueType
    | InvalidResolution
    | EvidenceRejected(why: EvidenceError)

  datatype Resolution = Resolution(
    requested: LoadOptions, resolved: LoadOptions, effective: LoadOptions, records: seq<Record>)

  function Min(a: int, b: int): int {
    if a < b then a else b
  }

  function DefaultThreads(cpus: Option<nat>): nat {
    var count := if cpus.Some? && cpus.value > 0 then cpus.value else 1;
    if count / 2 > 1 then count / 2 else 1
  }

  function ContextSize(o: LoadOptions, seen: Observation): Result<int, LoadError> {
    if o.context.None? && seen.trainedContext.None? then Err(NoContextSize)
    else
      var context := if o.context.Some? then o.context.value else seen.trainedContext.value;
      if seen.trainedContext.Some? && context > seen.trainedContext.value then Err(ContextExceedsTraining)
      else Ok(context)
  }

  function EffectiveBackend(b: Backend): Backend {
    if b.Auto? then Cpu else b
  }

  function LayerRequest(o: LoadOptions, native: Native, seen: Observation, hostMetal: bool): Result<Layers, LoadError> {
    if o.backend.Metal? then
      if !native.metalBuild || !hostMetal then Err(MetalUnavailable)
      else if !native.gpuOffload then Err(NoGpuOffload)
      else
        var layers := Or(o.layers, AllLayers);
        if layers == Count(0) then Err(MetalWithoutLayers)
        else if layers.Count? && seen.blockCount.Some? && layers.n > seen.blockCount.value then Err(TooManyLayers)
        else Ok(layers)
    else if o.layers.Some? && o.layers != Some(Count(0)) then Err(CpuCannotOffload)
    else Ok(Count(0))
  }

  // ----- options as JSON -------------------------------------------------------------------------

  function LayersJson(layers: Option<Layers>): Json {
    match layers
    case None => Null
    case Some(AllLayers) => Text("all")
    case Some(Count(n)) => Number(n)
  }

  function BackendJson(b: Backend): Json {
    Text(match b case Auto => "auto" case Cpu => "cpu" case Metal => "metal")
  }

  const CONTEXT: string := "model_context_size"
  const BATCH: string := "batch"
  const UBATCH: string := "ubatch"
  const THREADS: string := "threads"
  const CACHE: string := "kv_cache"
  const KEY_TYPE: string := "key_type"
  const VALUE_TYPE: string := "value_type"
  const ACCELERATION: string := "acceleration"
  const BACKEND: string := "backend"
  const DEVICE: string := "device"
  const LAYERS: string := "gpu_offload_layers"

  function SizeFields(o: LoadOptions): seq<Field> {
    [Field(CONTEXT, NumberOrNull(o.context)), Field(BATCH, NumberOrNull(o.batch)),
     Field(UBATCH, NumberOrNull(o.ubatch)), Field(THREADS, NumberOrNull(o.threads))]
  }

  function CacheFields(o: LoadOptions): seq<Field> {
    [Field(KEY_TYPE, TextOrNull(o.keyType)), Field(VALUE_TYPE, TextOrNull(o.valueType))]
  }

  function AccelerationFields(o: LoadOptions): seq<Field> {
    [Field(BACKEND, BackendJson(o.backend)), Field(DEVICE, TextOrNull(o.device)), Field(LAYERS, LayersJson(o.layers))]
  }

  function NestedFields(o: LoadOptions): seq<Field> {
    [Field(CACHE, Object(CacheFields(o))), Field(ACCELERATION, Object(AccelerationFields(o)))]
  }

  /** `LoadOptions.to_dict`. */
  function ToDict(o: LoadOptions): (d: Json)
    ensures d.Object?
  {
    Object(VersionFields("runtime-foundation.load-options.v1") + SizeFields(o) + NestedFields(o))
  }

  const KEY_TYPE_PATH: string := CACHE + "." + KEY_TYPE
  const VALUE_TYPE_PATH: string := CACHE + "." + VALUE_TYPE
  const BACKEND_PATH: string := ACCELERATION + "." + BACKEND
  const DEVICE_PATH: string := ACCELERATION + "." + DEVICE
  const LAYERS_PATH: string := ACCELERATION + "." + LAYERS

  const PATHS: seq<string> :=
    [CONTEXT, BATCH, UBATCH, THREADS, KEY_TYPE_PATH, VALUE_TYPE_PATH, BACKEND_PATH, LAYERS_PATH]

  /** The values at PATHS, as the resolver lists them. */
  function Values(o: LoadOptions): (v: seq<Json>)
    ensures |v| == |PATHS|
  {
    [NumberOrNull(o.context), NumberOrNull(o.batch), NumberOrNull(o.ubatch), NumberOrNull(o.threads),
     TextOrNull(o.keyType), TextOrNull(o.valueType), BackendJson(o.backend), LayersJson(o.layers)]
  }

  // ----- the resolver ----------------------------------------------------------------------------

  function Resolved(o: LoadOptions, env: Environment): Result<LoadOptions, LoadError> {
    if env.native.None? then Err(EngineUnavailable)
    else if !Valid(o) then Err(InvalidRequest)
    else if env.observation.None? then Err(NoObservation)
    else
      var native, seen := env.native.value, env.observation.value;
      var context :- ContextSize(o, seen);
      var batch := Or(o.batch, Min(context, DEFAULT_BATCH));
      if batch > context then Err(BatchExceedsContext)
      else
        var ubatch := Or(o.ubatch, Min(batch, DEFAULT_BATCH));
        var threads := Or(o.threads, DefaultThreads(env.cpus));
        if o.device.Some? then Err(DeviceNotExposed)
        else
          var layers :- LayerRequest(o, native, seen, env.hostMetal);
          var keyType, valueType := Or(o.keyType, "f16"), Or(o.valueType, "f16");
          if keyType !in native.kvTypes then Err(UnknownKeyType)
          else if valueType !in native.kvTypes then Err(UnknownValueType)
          else
            var resolved := LoadOptions(
              Some(context), Some(batch), Some(ubatch), Some(threads), Some(keyType), Some(valueType),
              EffectiveBackend(o.backend), None, Some(layers));
            if Valid(resolved) then Ok(resolved) else Err(InvalidResolution)
  }

  function EvidenceOf(r: Resolution): Evidence {
    Evidence(ToDict(r.requested), ToDict(r.resolved), ToDict(r.effective), r.records)
  }

  /** `resolve_load_options_with_observation`; its last call constructs the evidence, which may reject. */
  function Resolve(o: LoadOptions, env: Environment): Result<Resolution, LoadError> {
    var resolved :- Resolved(o, env);
    var r := Resolution(o, resolved, resolved, Differences(PATHS, Values(o), Values(resolved)));
    match Check(EvidenceOf(r))
    case Ok(_) => Ok(r)
    case Err(why) => Err(EvidenceRejected(why))
  }
}

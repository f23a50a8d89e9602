/** How the llama.cpp adapter resolves one request's generation options, and the records it appends. */
module GenerationResolver {
  import opened Wrappers
  import opened SettingsEvidence

  datatype Mode = Off | Auto | On

  datatype Effort = Low | Medium | High

  datatype Intent = Intent(mode: Mode, effort: Option<Effort>, budget: Option<int>)

  datatype GenerationOptions = GenerationOptions(
    maxTokens: int, temperature: real, topP: Option<real>, topK: Option<int>, penalty: Option<real>,
    window: Option<int>, stop: seq<string>, seed: Option<int>, preserve: Option<bool>, intent: Intent)

  predicate UpTo(value: Option<int>, maximum: int) {
    value.Some? ==> 0 <= value.value <= maximum
  }

  /** Otherwise the constructor raises ValueError. */
  predicate Valid(o: GenerationOptions) {
    && 0 < o.maxTokens <= 131_072 && 0.0 <= o.temperature <= 2.0
    && (o.topP.Some? ==> 0.0 <= o.topP.value <= 1.0) && UpTo(o.topK, 1_000_000)
    && (o.penalty.Some? ==> o.penalty.value > 0.0) && UpTo(o.window, 1_048_576)
    && UpTo(o.seed, 0x7FFF_FFFF_FFFF_FFFF) && UpTo(o.intent.budget, 10_000_000)
    && (forall i :: 0 <= i < |o.stop| ==> o.stop[i] != "")
    && (forall i, j :: 0 <= i < j < |o.stop| ==> o.stop[i] != o.stop[j])
  }

  /** The defaults of the binding's completion method. */
  datatype Defaults = Defaults(topP: real, topK: int, penalty: real)

  predicate Usable(d: Defaults) {
    0.0 <= d.topP <= 1.0 && d.topK >= 1 && d.penalty > 0.0
  }

  /** The variables of the loaded chat template, whether it reads reasoning history, and the defaults. */
  datatype Environment = Environment(variables: set<string>, readsReasoning: bool, defaults: Option<Defaults>)

  datatype Request = Request(options: GenerationOptions, studio: Option<Intent>, hasHistory: bool)

  datatype GenerationError =
    | TopKZero
    | WindowUnsupported
    | UnresolvedAuto
    | NothingToInspect
    | NoThinkingControl
    | NoEffortControl
    | NoBudgetControl
    | HistoryNotPreserved
    | PreservationNotExposed
    | HistoryNotConsumed
    | EngineUnavailable
    | InvalidResolution
    | EvidenceRejected(why: EvidenceError)

  // ----- thinking --------------------------------------------------------------------------------

  const THINKING_NAMES: seq<string> := ["enable_thinking", "thinking"]
  const EFFORT_NAMES: seq<string> := ["thinking_effort", "reasoning_effort"]
  const BUDGET_NAMES: seq<string> := ["thinking_budget_tokens", "thinking_budget"]

  /** `next((name for name in names if name in variables), None)`. */
  function FirstKnown(names: seq<string>, variables: set<string>): (r: Option<string>)
    ensures r.Some? ==> r.value in names && r.value in variables
    ensures r.None? <==> forall n :: n in names ==> n !in variables
  {
    if names == [] then None
    else if names[0] in variables then Some(names[0])
    else FirstKnown(names[1..], variables)
  }

  function EffortName(e: Effort): string {
    match e case Low => "low" case Medium => "medium" case High => "high"
  }

  /** The intent after the explicit resolution of AUTO. */
  function ResolvedIntent(i: Intent, studio: Option<Intent>): Result<Intent, GenerationError> {
    if !i.mode.Auto? then Ok(i)
    else if studio.None? || studio.value.mode.Auto? then Err(UnresolvedAuto)
    else
      Ok(Intent(studio.value.mode,
                if i.effort.Some? then i.effort else studio.value.effort,
                if i.budget.Some? then i.budget else studio.value.budget))
  }

  /** The template arguments that represent a resolved intent. */
  function TemplateArguments(i: Intent, variables: set<string>): Result<seq<Field>, GenerationError> {
    var thinking := FirstKnown(THINKING_NAMES, variables);
    var effort := FirstKnown(EFFORT_NAMES, variables);
    var budget := FirstKnown(BUDGET_NAMES, variables);
    if variables == {} then Err(NothingToInspect)
    else if thinking.None? && i.mode.Off? && i.effort.None? && i.budget.None? then Ok([])
    else if thinking.None? then Err(NoThinkingControl)
    else if i.effort.Some? && effort.None? then Err(NoEffortControl)
    else if i.budget.Some? && budget.None? then Err(NoBudgetControl)
    else Ok([Field(thinking.value, Bool(i.mode.On?))]
            + (if i.effort.Some? then [Field(effort.value, Text(EffortName(i.effort.value)))] else [])
            + (if i.budget.Some? then [Field(budget.value, Number(i.budget.value))] else []))
  }

  /** `_preservation_parameters`. */
  function PreservationError(r: Request, env: Environment): Option<GenerationError> {
    if r.hasHistory && r.options.preserve != Some(true) then Some(HistoryNotPreserved)
    else if r.options.preserve.None? then None
    else if "preserve_thinking" !in env.variables then Some(PreservationNotExposed)
    else if r.hasHistory && !env.readsReasoning then Some(HistoryNotConsumed)
    else None
  }

  // ----- options as JSON -------------------------------------------------------------------------

  const MAX_TOKENS: string := "max_tokens"
  const TEMPERATURE: string := "temperature"
  const TOP_P: string := "top_p"
  const TOP_K: string := "top_k"
  const PENALTY: string := "repetition_penalty"
  const WINDOW: string := "repetition_window"
  const STOP: string := "stop"
  const SEED: string := "seed"
  const PRESERVE: string := "preserve_thinking"
  const INTENT: string := "thinking_intent"
  const MODE: string := "mode"
  const EFFORT: string := "effort"
  const BUDGET: string := "budget_tokens"

  const SCALARS: seq<string> := [MAX_TOKENS, TEMPERATURE, TOP_P, TOP_K, PENALTY, WINDOW, STOP, SEED]
  const MODE_PATH: string := INTENT + "." + MODE
  const EFFORT_PATH: string := INTENT + "." + EFFORT
  const BUDGET_PATH: string := INTENT + "." + BUDGET
  const CONTROL_PATH: string := INTENT + ".template_control"
  const INTENT_PATHS: seq<string> := [MODE_PATH, EFFORT_PATH, BUDGET_PATH]
  const SAMPLER_PATHS: seq<string> := [TOP_P, TOP_K, PENALTY, SEED]

  function DecimalOrNull(value: Option<real>): Json {
    if value.Some? then Decimal(value.value) else Null
  }

  function ModeJson(m: Mode): Json {
    Text(match m case Off => "OFF" case Auto => "AUTO" case On => "ON")
  }

  function EffortJson(e: Option<Effort>): Json {
    match e
    case None => Null
    case Some(effort) => Text(match effort case Low => "LOW" case Medium => "MEDIUM" case High => "HIGH")
  }

  function Texts(s: seq<string>): (r: Json)
    ensures r.List?
  {
    List(seq(|s|, i requires 0 <= i < |s| => Text(s[i])))
  }

  function ScalarFields(o: GenerationOptions): seq<Field> {
    [Field(MAX_TOKENS, Number(o.maxTokens)), Field(TEMPERATURE, Decimal(o.temperature)),
     Field(TOP_P, DecimalOrNull(o.topP)), Field(TOP_K, NumberOrNull(o.topK)),
     Field(PENALTY, DecimalOrNull(o.penalty)), Field(WINDOW, NumberOrNull(o.window)),
     Field(STOP, Texts(o.stop)), Field(SEED, NumberOrNull(o.seed))]
  }

  function IntentFields(i: Intent): seq<Field> {
    [Field(MODE, ModeJson(i.mode)), Field(EFFORT, EffortJson(i.effort)), Field(BUDGET, NumberOrNull(i.budget))]
  }

  function PreserveFields(preserve: Option<bool>): seq<Field> {
    if preserve.Some? then [Field(PRESERVE, Bool(preserve.value))] else []
  }

  /** `GenerationOptions.to_dict`. */
  function ToDict(o: GenerationOptions): (d: Json)
    ensures d.Object?
  {
    Object(VersionFields("runtime-foundation.generation-options.v1") + ScalarFields(o)
           + [Field(INTENT, Object(IntentFields(o.intent)))] + PreserveFields(o.preserve))
  }

  function IntentValues(i: Intent): seq<Json> {
    [ModeJson(i.mode), EffortJson(i.effort), NumberOrNull(i.budget)]
  }

  function SamplerValues(o: GenerationOptions): seq<Json> {
    [DecimalOrNull(o.topP), NumberOrNull(o.topK), DecimalOrNull(o.penalty), NumberOrNull(o.seed)]
  }

  // ----- the resolver ----------------------------------------------------------------------------

  /** What the adapter passes to the engine, and the evidence of how it got there. */
  datatype Resolution = Resolution(effective: GenerationOptions, arguments: seq<Field>, records: seq<Record>)

  function EvidenceOf(o: GenerationOptions, r: Resolution): Evidence {
    Evidence(ToDict(o), ToDict(r.effective), ToDict(r.effective), r.records)
  }

  /** The record that an OFF intent met a template without a thinking control. */
  function ControlRecord(): Record {
    Record(CONTROL_PATH, Texts(THINKING_NAMES), Null, Null)
  }

  function Records(o: GenerationOptions, effective: GenerationOptions, arguments: seq<Field>): seq<Record> {
    Differences(INTENT_PATHS, IntentValues(o.intent), IntentValues(effective.intent))
    + (if arguments == [] then [ControlRecord()] else [])
    + Differences(SAMPLER_PATHS, SamplerValues(o), SamplerValues(effective))
  }

  function Resolved(r: Request, env: Environment, freshSeed: nat): Result<Resolution, GenerationError> {
    var o := r.options;
    if o.topK == Some(0) then Err(TopKZero)
    else if o.window.Some? then Err(WindowUnsupported)
    else
      var intent :- ResolvedIntent(o.intent, r.studio);
      var arguments :- TemplateArguments(intent, env.variables);
      var preservation := PreservationError(r, env);
      if preservation.Some? then Err(preservation.value)
      else if env.defaults.None? || !Usable(env.defaults.value) then Err(EngineUnavailable)
      else
        var d := env.defaults.value;
        var effective := GenerationOptions(
          o.maxTokens, o.temperature, Some(Or(o.topP, d.topP)), Some(Or(o.topK, d.topK)),
          Some(Or(o.penalty, d.penalty)), None, o.stop, Some(Or(o.seed, freshSeed)), o.preserve, intent);
        if Valid(effective) then Ok(Resolution(effective, arguments, Records(o, effective, arguments)))
        else Err(InvalidResolution)
  }

  /** `resolve_generation_options_v3`; `freshSeed` is the random number that an absent seed is given. */
  function Resolve(r: Request, env: Environment, freshSeed: nat): Result<Resolution, GenerationError> {
    var resolution :- Resolved(r, env, freshSeed);
    match Check(EvidenceOf(r.options, resolution))
    case Ok(_) => Ok(resolution)
    case Err(why) => Err(EvidenceRejected(why))
  }

  /** The loops that fill the list of records. */
  method CollectDifferences(paths: seq<string>, from: seq<Json>, to: seq<Json>) returns (records: seq<Record>)
    requires |paths| == |from| == |to|
    ensures records == Differences(paths, from, to)
  {
    records := [];
    for i := 0 to |paths|
      invariant records == Differences(paths[..i], from[..i], to[..i])
    {
      DifferencesSnoc(paths, from, to, i);
      if from[i] != to[i] {
        records := records + [Record(paths[i], from[i], to[i], to[i])];
      }
    }
    assert paths[..|paths|] == paths && from[..|paths|] == from && to[..|paths|] == to;
  }

  lemma DifferencesSnoc(paths: seq<string>, from: seq<Json>, to: seq<Json>, i: nat)
    requires |paths| == |from| == |to| && i < |paths|
    ensures Differences(paths[..i + 1], from[..i + 1], to[..i + 1])
      == Differences(paths[..i], from[..i], to[..i])
       + (if from[i] != to[i] then [Record(paths[i], from[i], to[i], to[i])] else [])
  {
    assert paths[..i + 1][..i] == paths[..i] && from[..i + 1][..i] == from[..i] && to[..i + 1][..i] == to[..i];
  }

  method CollectRecords(o: GenerationOptions, effective: GenerationOptions, arguments: seq<Field>)
    returns (resolutions: seq<Record>)
    ensures resolutions == Records(o, effective, arguments)
  {
    resolutions := CollectDifferences(INTENT_PATHS, IntentValues(o.intent), IntentValues(effective.intent));
    if arguments == [] {
      resolutions := resolutions + [ControlRecord()];
    }
    var sampler := CollectDifferences(SAMPLER_PATHS, SamplerValues(o), SamplerValues(effective));
    resolutions := resolutions + sampler;
  }
}

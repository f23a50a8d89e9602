/** The load resolver is sound, explains itself, and is a fixed point. */
module LoadResolverTheorems {
  import opened Wrappers
  import opened SettingsEvidence
  import opened SettingsTheorems
  import opened LoadResolver

  // ----- the leaves of load options -----------------------------------------------------------------

  const ALL_PATHS: seq<string> :=
    [CONTEXT, BATCH, UBATCH, THREADS, KEY_TYPE_PATH, VALUE_TYPE_PATH, BACKEND_PATH, DEVICE_PATH, LAYERS_PATH]

  function AllValues(o: LoadOptions): seq<Json> {
    [NumberOrNull(o.context), NumberOrNull(o.batch), NumberOrNull(o.ubatch), NumberOrNull(o.threads),
     TextOrNull(o.keyType), TextOrNull(o.valueType),
     BackendJson(o.backend), TextOrNull(o.device), LayersJson(o.layers)]
  }

  lemma PathsAreDistinct()
    ensures Distinct(ALL_PATHS) && Distinct(PATHS) && DEVICE_PATH !in PATHS
  {
    assert |CONTEXT| == 18 && |BATCH| == 5 && |UBATCH| == 6 && |THREADS| == 7;
    assert |KEY_TYPE_PATH| == 17 && |VALUE_TYPE_PATH| == 19 && |BACKEND_PATH| == 20 && |LAYERS_PATH| == 31;
    assert |DEVICE_PATH| == 19 && VALUE_TYPE_PATH[0] == 'k' && DEVICE_PATH[0] == 'a';
    hide CONTEXT, BATCH, UBATCH, THREADS, KEY_TYPE_PATH, VALUE_TYPE_PATH, BACKEND_PATH, DEVICE_PATH, LAYERS_PATH;
    forall i, j | 0 <= i < j < |ALL_PATHS| ensures ALL_PATHS[i] != ALL_PATHS[j] {
      assert |ALL_PATHS[i]| != |ALL_PATHS[j]| || ALL_PATHS[i][0] != ALL_PATHS[j][0];
    }
    assert PATHS == ALL_PATHS[..7] + ALL_PATHS[8..];
    assert DEVICE_PATH == ALL_PATHS[7];
  }

  ghost predicate LeavesAre(leaves: Leaves, o: LoadOptions) {
    && (forall p :: p in leaves <==> p in PATHS || p == DEVICE_PATH)
    && leaves[DEVICE_PATH] == TextOrNull(o.device)
    && forall i :: 0 <= i < |PATHS| ==> leaves[PATHS[i]] == Values(o)[i]
  }

  /** None of the keys is skipped, and each is found under its path. */
  lemma KeysAreKept()
    ensures forall k ::
      (k in [CONTEXT, BATCH, UBATCH, THREADS, CACHE, KEY_TYPE, VALUE_TYPE, ACCELERATION, BACKEND, DEVICE, LAYERS]
       ==> !IsVersionKey(k))
  {
    assert |CONTRACT_VERSION| == 16 && |SCHEMA_VERSION| == 14;
  }

  lemma PathsOfKeys(k: string)
    ensures PathOf("", k) == k && PathOf(CACHE, k) == CACHE + "." + k
    ensures PathOf(ACCELERATION, k) == ACCELERATION + "." + k
  {
  }

  lemma SizeLeaves(o: LoadOptions)
    ensures Pairs(FieldLeaves(SizeFields(o), ""), ALL_PATHS[..4], AllValues(o)[..4])
  {
    KeysAreKept();
    PathsAreDistinct();
    hide CONTEXT, BATCH, UBATCH, THREADS, CACHE, ACCELERATION, KEY_TYPE_PATH, VALUE_TYPE_PATH, BACKEND_PATH,
      DEVICE_PATH, LAYERS_PATH, IsVersionKey, FieldLeaves, PathOf, BackendJson, LayersJson, TextOrNull;
    PathsOfKeys(CONTEXT);
    PathsOfKeys(BATCH);
    PathsOfKeys(UBATCH);
    PathsOfKeys(THREADS);
    var fs := SizeFields(o);
    assert PathsOf(fs, "") == [CONTEXT, BATCH, UBATCH, THREADS] == ALL_PATHS[..4];
    assert ValuesOf(fs) == AllValues(o)[..4];
    ScalarLeaves(fs, "");
  }

  lemma CacheLeaves(o: LoadOptions)
    ensures Pairs(FieldLeaves(CacheFields(o), CACHE), ALL_PATHS[4..6], AllValues(o)[4..6])
  {
    KeysAreKept();
    PathsAreDistinct();
    hide CACHE, ACCELERATION, KEY_TYPE, VALUE_TYPE, IsVersionKey, FieldLeaves, PathOf, BackendJson, LayersJson;
    PathsOfKeys(KEY_TYPE);
    PathsOfKeys(VALUE_TYPE);
    var fs := CacheFields(o);
    assert PathsOf(fs, CACHE) == [KEY_TYPE_PATH, VALUE_TYPE_PATH] == ALL_PATHS[4..6];
    assert ValuesOf(fs) == AllValues(o)[4..6];
    ScalarLeaves(fs, CACHE);
  }

  lemma AccelerationLeaves(o: LoadOptions)
    ensures Pairs(FieldLeaves(AccelerationFields(o), ACCELERATION), ALL_PATHS[6..], AllValues(o)[6..])
  {
    KeysAreKept();
    PathsAreDistinct();
    BackendIsScalar(o.backend);
    hide CACHE, ACCELERATION, BACKEND, DEVICE, LAYERS, IsVersionKey, FieldLeaves, PathOf, BackendJson;
    PathsOfKeys(BACKEND);
    PathsOfKeys(DEVICE);
    PathsOfKeys(LAYERS);
    var fs := AccelerationFields(o);
    assert PathsOf(fs, ACCELERATION) == [BACKEND_PATH, DEVICE_PATH, LAYERS_PATH] == ALL_PATHS[6..];
    assert ValuesOf(fs) == AllValues(o)[6..];
    ScalarLeaves(fs, ACCELERATION);
  }

  lemma BackendIsScalar(b: Backend)
    ensures !BackendJson(b).Object?
  {
  }

  lemma NestedLeaves(o: LoadOptions)
    ensures FieldLeaves(NestedFields(o), "")
      == FieldLeaves(CacheFields(o), CACHE) + FieldLeaves(AccelerationFields(o), ACCELERATION)
  {
    KeysAreKept();
    hide CACHE, ACCELERATION, CacheFields, AccelerationFields, IsVersionKey, FieldLeaves, PathOf;
    PathsOfKeys(CACHE);
    PathsOfKeys(ACCELERATION);
    NoLeaves("");
    var fs := NestedFields(o);
    assert fs == [fs[0]] + [fs[1]] && [fs[1]] == [fs[1]] + [];
    LeavesCons(fs[0], [fs[1]], "");
    LeavesCons(fs[1], [], "");
  }

  lemma SplitLeaves(o: LoadOptions)
    ensures LeafValues(ToDict(o), "")
      == FieldLeaves(SizeFields(o), "")
       + (FieldLeaves(CacheFields(o), CACHE) + FieldLeaves(AccelerationFields(o), ACCELERATION))
  {
    hide SizeFields, NestedFields, VersionFields, CacheFields, AccelerationFields, FieldLeaves, CACHE, ACCELERATION;
    var schema := "runtime-foundation.load-options.v1";
    LeavesConcat(VersionFields(schema), SizeFields(o), "");
    LeavesConcat(VersionFields(schema) + SizeFields(o), NestedFields(o), "");
    VersionLeaves(schema);
    NestedLeaves(o);
    assert map[] + FieldLeaves(SizeFields(o), "") == FieldLeaves(SizeFields(o), "");
  }

  lemma NestedPairs(o: LoadOptions)
    ensures Pairs(FieldLeaves(CacheFields(o), CACHE) + FieldLeaves(AccelerationFields(o), ACCELERATION),
                  ALL_PATHS[4..], AllValues(o)[4..])
  {
    NineLeaves(o);
    PathsAreDistinct();
    CacheLeaves(o);
    AccelerationLeaves(o);
    hide CacheFields, AccelerationFields, FieldLeaves, AllValues, ALL_PATHS, CACHE, ACCELERATION, Pairs;
    var p, v := ALL_PATHS, AllValues(o);
    assert p[4..6] + p[6..] == p[4..] && v[4..6] + v[6..] == v[4..];
    PairsMerge(FieldLeaves(CacheFields(o), CACHE), p[4..6], v[4..6],
               FieldLeaves(AccelerationFields(o), ACCELERATION), p[6..], v[6..]);
  }

  /** The leaves of load options are the eight paths of the resolver and the device. */
  lemma LoadLeaves(o: LoadOptions)
    ensures LeavesAre(LeafValues(ToDict(o), ""), o)
  {
    NineLeaves(o);
    PathsAreDistinct();
    SplitLeaves(o);
    SizeLeaves(o);
    NestedPairs(o);
    hide ToDict, LeafValues, SizeFields, CacheFields, AccelerationFields, FieldLeaves, AllValues, ALL_PATHS, PATHS,
      DEVICE_PATH, Values, LeavesAre, CACHE, ACCELERATION, Pairs;
    var p, v := ALL_PATHS, AllValues(o);
    assert p[..4] + p[4..] == p && v[..4] + v[4..] == v;
    PairsMerge(FieldLeaves(SizeFields(o), ""), p[..4], v[..4],
               FieldLeaves(CacheFields(o), CACHE) + FieldLeaves(AccelerationFields(o), ACCELERATION), p[4..], v[4..]);
    NinePairs(LeafValues(ToDict(o), ""), o);
  }

  lemma NineLeaves(o: LoadOptions)
    ensures |ALL_PATHS| == |AllValues(o)| == 9
  {
  }

  lemma NinePairs(leaves: Leaves, o: LoadOptions)
    requires Pairs(leaves, ALL_PATHS, AllValues(o))
    ensures LeavesAre(leaves, o)
  {
    hide CONTEXT, BATCH, UBATCH, THREADS, KEY_TYPE_PATH, VALUE_TYPE_PATH, BACKEND_PATH, DEVICE_PATH, LAYERS_PATH,
      NumberOrNull, TextOrNull, LayersJson, BackendJson;
    assert PATHS == ALL_PATHS[..7] + ALL_PATHS[8..];
    assert Values(o) == AllValues(o)[..7] + AllValues(o)[8..];
    forall i | 0 <= i < |PATHS| ensures leaves[PATHS[i]] == Values(o)[i] {
      var j := if i < 7 then i else i + 1;
      assert PATHS[i] == ALL_PATHS[j] && Values(o)[i] == AllValues(o)[j];
    }
    assert DEVICE_PATH == ALL_PATHS[7];
  }

  // ----- the records explain the resolution --------------------------------------------------------

  /**
   Whatever two load options agree on the device, the listed differences explain them: the evidence
   constructor accepts, and no record is idle.
  */
  lemma DifferencesExplain(a: LoadOptions, b: LoadOptions)
    requires a.device == b.device
    ensures var e := EvidenceOf(Resolution(a, b, b, Differences(PATHS, Values(a), Values(b))));
      Check(e).Ok? && !HasIdleRecord(e)
  {
    hide Check, LeafValues, ToDict, Values, Differences, Book;
    var e := EvidenceOf(Resolution(a, b, b, Differences(PATHS, Values(a), Values(b))));
    LoadLeaves(a);
    LoadLeaves(b);
    PathsAreDistinct();
    forall p: string
      ensures e.Changed(p) ==> p in Book(e.records) && e.Matches(Book(e.records)[p])
      ensures p in Book(e.records) ==> e.Changed(p)
    {
      if p in PATHS {
        var i :| 0 <= i < |PATHS| && PATHS[i] == p;
        DifferencesAreExact(PATHS, Values(a), Values(b), i);
      } else {
        OnlyListedPaths(PATHS, Values(a), Values(b), p);
      }
    }
    AcceptedIffExplained(e);
  }

  // ----- the theorems --------------------------------------------------------------------------------

  /** The resolver's own evidence is never rejected, and its records name exactly the changed settings. */
  lemma EvidenceIsAlwaysAccepted(o: LoadOptions, env: Environment)
    ensures !(Resolve(o, env).Err? && Resolve(o, env).error.EvidenceRejected?)
    ensures Resolved(o, env).Ok? ==> Resolve(o, env).Ok? && !HasIdleRecord(EvidenceOf(Resolve(o, env).value))
  {
    hide Check, ToDict, Values, Differences, HasIdleRecord;
    if Resolved(o, env).Ok? {
      DifferencesExplain(o, Resolved(o, env).value);
    }
  }

  /** The sizes of every resolution are present and nested. */
  lemma SizesAreNested(o: LoadOptions, env: Environment)
    requires Resolve(o, env).Ok?
    ensures var r := Resolve(o, env).value.effective;
      && Valid(r) && r.context.Some? && r.batch.Some? && r.ubatch.Some? && r.threads.Some?
      && 1 <= r.ubatch.value <= r.batch.value <= r.context.value
      && (env.observation.value.trainedContext.Some? ==> r.context.value <= env.observation.value.trainedContext.value)
  {
    hide Check, ToDict, Values, Differences, LayerRequest;
  }

  predicate Kept<T(==)>(asked: Option<T>, given: Option<T>) {
    asked.Some? ==> given == asked
  }

  /** Nothing that was asked for is changed, except the backend `auto`. */
  lemma ExplicitRequestsAreKept(o: LoadOptions, env: Environment)
    requires Resolve(o, env).Ok?
    ensures var r := Resolve(o, env).value.effective;
      && Kept(o.context, r.context) && Kept(o.batch, r.batch) && Kept(o.ubatch, r.ubatch)
      && Kept(o.threads, r.threads) && Kept(o.keyType, r.keyType) && Kept(o.valueType, r.valueType)
      && Kept(o.layers, r.layers) && r.device == o.device
      && r.backend == (if o.backend.Auto? then Cpu else o.backend)
  {
    hide Check, ToDict, Values, Differences, Valid;
  }

  /** What was left open gets the value that the record's reason promises for it. */
  lemma OpenSettingsGetTheirDefaults(o: LoadOptions, env: Environment)
    requires Resolve(o, env).Ok?
    ensures var r := Resolve(o, env).value.effective;
      && (o.context.None? ==> r.context == env.observation.value.trainedContext)
      && (o.batch.None? ==> r.batch == Some(Min(r.context.value, 512)))
      && (o.ubatch.None? ==> r.ubatch == Some(Min(r.batch.value, 512)))
      && (o.keyType.None? ==> r.keyType == Some("f16")) && (o.valueType.None? ==> r.valueType == Some("f16"))
      && (o.layers.None? ==> r.layers == Some(if o.backend.Metal? then AllLayers else Count(0)))
      && (o.threads.None? ==>
            r.threads == Some(if env.cpus.Some? && env.cpus.value >= 4 then env.cpus.value / 2 else 1))
  {
    hide Check, ToDict, Values, Differences, Valid;
  }

  predicate AskedOrGiven<T(==)>(value: T, asked: T, given: T) {
    value == asked || value == given
  }

  /** Each setting of `p` is either that of `o` or that of `r`. */
  predicate Between(p: LoadOptions, o: LoadOptions, r: LoadOptions) {
    && AskedOrGiven(p.context, o.context, r.context) && AskedOrGiven(p.batch, o.batch, r.batch)
    && AskedOrGiven(p.ubatch, o.ubatch, r.ubatch) && AskedOrGiven(p.threads, o.threads, r.threads)
    && AskedOrGiven(p.keyType, o.keyType, r.keyType) && AskedOrGiven(p.valueType, o.valueType, r.valueType)
    && AskedOrGiven(p.backend, o.backend, r.backend) && AskedOrGiven(p.device, o.device, r.device)
    && AskedOrGiven(p.layers, o.layers, r.layers)
  }

  lemma SameContext(o: LoadOptions, p: LoadOptions, seen: Observation)
    requires ContextSize(o, seen).Ok? && AskedOrGiven(p.context, o.context, Some(ContextSize(o, seen).value))
    ensures ContextSize(p, seen) == ContextSize(o, seen)
  {
  }

  lemma SameLayers(o: LoadOptions, p: LoadOptions, native: Native, seen: Observation, hostMetal: bool)
    requires LayerRequest(o, native, seen, hostMetal).Ok?
    requires AskedOrGiven(p.layers, o.layers, Some(LayerRequest(o, native, seen, hostMetal).value))
    requires AskedOrGiven(p.backend, o.backend, EffectiveBackend(o.backend))
    ensures LayerRequest(p, native, seen, hostMetal) == LayerRequest(o, native, seen, hostMetal)
  {
  }

  lemma MixedIsValid(o: LoadOptions, p: LoadOptions, env: Environment)
    requires Resolved(o, env).Ok? && Between(p, o, Resolved(o, env).value)
    ensures Valid(p)
  {
    hide LayerRequest, ContextSize;
  }

  lemma MixedIsResolved(o: LoadOptions, p: LoadOptions, env: Environment)
    requires Resolved(o, env).Ok? && Between(p, o, Resolved(o, env).value)
    ensures Resolved(p, env) == Resolved(o, env)
  {
    MixedIsValid(o, p, env);
    hide LayerRequest, ContextSize, Valid;
    SameContext(o, p, env.observation.value);
    SameLayers(o, p, env.native.value, env.observation.value, env.hostMetal);
  }

  /**
   A default is what an explicit request for it would have given: whoever fills in any of the open settings
   with the effective values gets the same effective options.
  */
  lemma FillingInChangesNothing(o: LoadOptions, p: LoadOptions, env: Environment)
    requires Resolve(o, env).Ok? && Between(p, o, Resolve(o, env).value.effective)
    ensures Resolve(p, env).Ok? && Resolve(p, env).value.effective == Resolve(o, env).value.effective
  {
    EvidenceIsAlwaysAccepted(p, env);
    hide Check, ToDict, Values, Differences, HasIdleRecord, Resolved, Between;
    MixedIsResolved(o, p, env);
  }

  /** Whoever resolves the effective options again, on any number of CPUs, gets them back without records. */
  lemma EffectiveOptionsAreAFixedPoint(o: LoadOptions, env: Environment, cpus: Option<nat>)
    requires Resolve(o, env).Ok?
    ensures var r := Resolve(o, env).value.effective;
      Resolve(r, env.(cpus := cpus)) == Ok(Resolution(r, r, r, []))
  {
    hide Check, ToDict, Values, Differences;
    var r := Resolve(o, env).value.effective;
    assert Resolved(r, env.(cpus := cpus)) == Ok(r);
    DifferencesOfEqual(PATHS, Values(r));
    DifferencesExplain(r, r);
  }

  predicate OffloadFits(o: LoadOptions, native: Native, seen: Observation, hostMetal: bool) {
    if o.backend.Metal? then
      && native.metalBuild && hostMetal && native.gpuOffload && o.layers != Some(Count(0))
      && (o.layers.Some? && o.layers.value.Count? && seen.blockCount.Some? ==>
            o.layers.value.n <= seen.blockCount.value)
    else
      o.layers == None || o.layers == Some(Count(0))
  }

  predicate CacheFits(o: LoadOptions, native: Native) {
    Or(o.keyType, "f16") in native.kvTypes && Or(o.valueType, "f16") in native.kvTypes
  }

  /** The context that a request comes to, if it is asked for or declared by the header. */
  function Context(o: LoadOptions, seen: Observation): Option<int> {
    if o.context.Some? then o.context
    else if seen.trainedContext.Some? then Some(seen.trainedContext.value)
    else None
  }

  predicate SizesFit(o: LoadOptions, seen: Observation) {
    var context := Context(o, seen);
    && context.Some?
    && (seen.trainedContext.Some? ==> context.value <= seen.trainedContext.value)
    && (o.batch.Some? ==> o.batch.value <= context.value)
  }

  /** Every test that the resolver makes itself. */
  predicate TestsPass(o: LoadOptions, env: Environment) {
    && Valid(o) && env.native.Some? && env.observation.Some? && o.device.None?
    && SizesFit(o, env.observation.value)
    && OffloadFits(o, env.native.value, env.observation.value, env.hostMetal)
    && CacheFits(o, env.native.value)
  }

  /** What no test of the resolver notices: a default that the options cannot hold, or that a request exceeds. */
  predicate DefaultsExceed(o: LoadOptions, env: Environment)
    requires TestsPass(o, env)
  {
    var context := Context(o, env.observation.value).value;
    || context > MAX_TOKENS
    || (o.batch.None? && o.ubatch.Some? && o.ubatch.value > Min(context, DEFAULT_BATCH))
    || (o.threads.None? && DefaultThreads(env.cpus) > MAX_THREADS)
  }

  /** Exactly which requests are resolved. */
  lemma ResolvedIffSupported(o: LoadOptions, env: Environment)
    ensures Resolve(o, env).Ok? <==> TestsPass(o, env) && !DefaultsExceed(o, env)
  {
    EvidenceIsAlwaysAccepted(o, env);
    hide Check, ToDict, Values, Differences, HasIdleRecord;
  }

  /**
   Exactly which requests pass every test that the resolver makes and then fail, with a ValueError, in the
   constructor of the resolved options.
  */
  lemma ConstructorFailsIff(o: LoadOptions, env: Environment)
    ensures Resolve(o, env) == Err(InvalidResolution) <==> TestsPass(o, env) && DefaultsExceed(o, env)
  {
    EvidenceIsAlwaysAccepted(o, env);
    hide Check, ToDict, Values, Differences, HasIdleRecord;
  }

  /** Such a request: a physical batch above the default batch. */
  lemma DefaultsCanBeInvalid(env: Environment) returns (o: LoadOptions)
    requires env.native.Some? && "f16" in env.native.value.kvTypes && env.observation.Some?
    requires env.observation.value.trainedContext == Some(8192)
    ensures Valid(o) && Resolve(o, env) == Err(InvalidResolution)
  {
    hide Check, ToDict, Values, Differences;
    o := LoadOptions(None, None, Some(1024), None, None, None, Auto, None, None);
  }

  // ----- the execution budget ------------------------------------------------------------------------

  /** The budget after `_execution_evidence_v3` capped it, and the record of the capping. */
  function CapBudget(budget: Option<int>, loaded: Option<int>): (Option<int>, seq<Record>) {
    if budget.Some? && loaded.Some? && budget.value > loaded.value then
      (loaded, [Record(BUDGET, Number(budget.value), Number(loaded.value), Number(loaded.value))])
    else (budget, [])
  }

  const BUDGET: string := "max_context_tokens"
  const TIMEOUT: string := "timeout_ms"

  /** `ExecutionConstraints.to_dict`. */
  function ConstraintsDict(budget: Option<int>, timeout: Option<int>): (d: Json)
    ensures d.Object?
  {
    Object(VersionFields("runtime-foundation.execution-constraints.v1")
      + [Field(BUDGET, NumberOrNull(budget)), Field(TIMEOUT, NumberOrNull(timeout))])
  }

  lemma BudgetKeys()
    ensures !IsVersionKey(BUDGET) && !IsVersionKey(TIMEOUT) && BUDGET != TIMEOUT
  {
    assert |CONTRACT_VERSION| == 16 && |SCHEMA_VERSION| == 14 && |BUDGET| == 18 && |TIMEOUT| == 10;
  }

  lemma ConstraintLeaves(budget: Option<int>, timeout: Option<int>)
    ensures LeafValues(ConstraintsDict(budget, timeout), "")
         == map[BUDGET := NumberOrNull(budget)] + map[TIMEOUT := NumberOrNull(timeout)]
    ensures BUDGET != TIMEOUT
  {
    hide BUDGET, TIMEOUT, VersionFields, FieldLeaves, IsVersionKey, PathOf;
    BudgetKeys();
    var schema := "runtime-foundation.execution-constraints.v1";
    var a, b := Field(BUDGET, NumberOrNull(budget)), Field(TIMEOUT, NumberOrNull(timeout));
    PathsOfKeys(BUDGET);
    PathsOfKeys(TIMEOUT);
    LeavesConcat(VersionFields(schema), [a, b], "");
    VersionLeaves(schema);
    ScalarLeaf(a, "");
    ScalarLeaf(b, "");
    LeavesConcat([a], [b], "");
    assert [a] + [b] == [a, b];
  }

  /** Capping keeps the smaller of budget and loaded context, and its evidence is always accepted. */
  lemma CappedBudgetIsExplained(budget: Option<int>, loaded: Option<int>, timeout: Option<int>)
    ensures var (capped, records) := CapBudget(budget, loaded);
      && capped.Some? == budget.Some?
      && (capped.Some? ==> capped.value <= budget.value && (loaded.Some? ==> capped.value <= loaded.value))
      && (capped.Some? ==> capped == budget || capped == loaded)
      && var e := Evidence(ConstraintsDict(budget, timeout), ConstraintsDict(capped, timeout),
                           ConstraintsDict(capped, timeout), records);
         Check(e).Ok? && !HasIdleRecord(e)
  {
    hide ConstraintsDict, LeafValues, Check, Book, BUDGET, TIMEOUT;
    var (capped, records) := CapBudget(budget, loaded);
    ConstraintLeaves(budget, timeout);
    ConstraintLeaves(capped, timeout);
    EmptyBook();
    var e := Evidence(ConstraintsDict(budget, timeout), ConstraintsDict(capped, timeout),
                      ConstraintsDict(capped, timeout), records);
    AcceptedIffExplained(e);
    if records != [] {
      BookSnoc([], records[0]);
      assert [] + records == records;
      assert e.Changed(BUDGET);
      assert forall p :: e.Changed(p) ==> p == BUDGET;
    } else {
      assert forall p :: !e.Changed(p);
    }
  }

  // ----- why a request is refused -----------------------------------------------------------------------

  /** A test that a request may fail, and the error that says so. */
  datatype Test = Test(fails: bool, error: LoadError)

  /** What can be asked before the environment is known. */
  function FirstTests(o: LoadOptions, env: Environment): seq<Test> {
    [Test(env.native.None?, EngineUnavailable), Test(!Valid(o), InvalidRequest),
     Test(env.observation.None?, NoObservation)]
  }

  function SizeTests(o: LoadOptions, seen: Observation): seq<Test> {
    var context := Context(o, seen);
    [Test(context.None?, NoContextSize),
     Test(context.Some? && seen.trainedContext.Some? && context.value > seen.trainedContext.value,
          ContextExceedsTraining),
     Test(context.Some? && o.batch.Some? && o.batch.value > context.value, BatchExceedsContext),
     Test(o.device.Some?, DeviceNotExposed)]
  }

  function EngineTests(o: LoadOptions, native: Native, seen: Observation, hostMetal: bool): seq<Test> {
    var metal := o.backend.Metal?;
    [Test(metal && !(native.metalBuild && hostMetal), MetalUnavailable),
     Test(metal && !native.gpuOffload, NoGpuOffload),
     Test(metal && o.layers == Some(Count(0)), MetalWithoutLayers),
     Test(metal && o.layers.Some? && o.layers.value.Count? && seen.blockCount.Some?
          && o.layers.value.n > seen.blockCount.value, TooManyLayers),
     Test(!metal && o.layers !in {None, Some(Count(0))}, CpuCannotOffload),
     Test(Or(o.keyType, "f16") !in native.kvTypes, UnknownKeyType),
     Test(Or(o.valueType, "f16") !in native.kvTypes, UnknownValueType)]
  }

  predicate IsFirstFailure(tests: seq<Test>, error: LoadError) {
    exists i :: 0 <= i < |tests| && tests[i].fails && tests[i].error == error
      && forall j :: 0 <= j < i ==> !tests[j].fails
  }

  predicate AllPass(tests: seq<Test>) {
    forall i :: 0 <= i < |tests| ==> !tests[i].fails
  }

  lemma FailsFirst(tests: seq<Test>, i: nat)
    requires i < |tests| && tests[i].fails && forall j :: 0 <= j < i ==> !tests[j].fails
    ensures IsFirstFailure(tests, tests[i].error) && !AllPass(tests)
  {
  }

  lemma EngineRefusal(o: LoadOptions, native: Native, seen: Observation, hostMetal: bool)
    ensures var (tests, layers) := (EngineTests(o, native, seen, hostMetal), LayerRequest(o, native, seen, hostMetal));
      && (layers.Err? ==> IsFirstFailure(tests, layers.error))
      && (layers.Ok? && Or(o.keyType, "f16") !in native.kvTypes ==> IsFirstFailure(tests, UnknownKeyType))
      && (layers.Ok? && Or(o.keyType, "f16") in native.kvTypes && Or(o.valueType, "f16") !in native.kvTypes ==>
            IsFirstFailure(tests, UnknownValueType))
      && (layers.Ok? && Or(o.keyType, "f16") in native.kvTypes && Or(o.valueType, "f16") in native.kvTypes ==>
            AllPass(tests))
  {
    hide IsFirstFailure;
    var t := EngineTests(o, native, seen, hostMetal);
    var i := if t[0].fails then 0 else if t[1].fails then 1 else if t[2].fails then 2 else if t[3].fails then 3
             else if t[4].fails then 4 else if t[5].fails then 5 else 6;
    if t[i].fails {
      FailsFirst(t, i);
    }
  }

  lemma SizeRefusal(o: LoadOptions, seen: Observation)
    ensures var (tests, context) := (SizeTests(o, seen), ContextSize(o, seen));
      && (context.Err? ==> IsFirstFailure(tests, context.error))
      && (context.Ok? && Or(o.batch, Min(context.value, DEFAULT_BATCH)) > context.value ==>
            IsFirstFailure(tests, BatchExceedsContext))
      && (context.Ok? && Or(o.batch, Min(context.value, DEFAULT_BATCH)) <= context.value && o.device.Some? ==>
            IsFirstFailure(tests, DeviceNotExposed))
      && (context.Ok? && Or(o.batch, Min(context.value, DEFAULT_BATCH)) <= context.value && o.device.None? ==>
            AllPass(tests))
  {
    hide IsFirstFailure;
    var t := SizeTests(o, seen);
    var i := if t[0].fails then 0 else if t[1].fails then 1 else if t[2].fails then 2 else 3;
    if t[i].fails {
      FailsFirst(t, i);
    }
  }

  /**
   A request that is not resolved is told the first test that it fails: first those that need no engine, then the
   sizes, then what the engine supports, and last whether the resolved options are valid.
  */
  lemma RefusalNamesFirstFailure(o: LoadOptions, env: Environment)
    requires Resolve(o, env).Err?
    ensures var error := Resolve(o, env).error;
      || IsFirstFailure(FirstTests(o, env), error)
      || (env.native.Some? && Valid(o) && env.observation.Some?
          && var (native, seen) := (env.native.value, env.observation.value);
             || IsFirstFailure(SizeTests(o, seen), error)
             || (AllPass(SizeTests(o, seen)) && IsFirstFailure(EngineTests(o, native, seen, env.hostMetal), error))
             || (AllPass(SizeTests(o, seen)) && AllPass(EngineTests(o, native, seen, env.hostMetal))
                 && error == InvalidResolution))
  {
    EvidenceIsAlwaysAccepted(o, env);
    hide Check, ToDict, Values, Differences, Valid, ContextSize, LayerRequest, SizeTests, EngineTests, IsFirstFailure,
      HasIdleRecord;
    var t := FirstTests(o, env);
    var i := if t[0].fails then 0 else if t[1].fails then 1 else 2;
    if t[i].fails {
      FailsFirst(t, i);
    } else {
      SizeRefusal(o, env.observation.value);
      EngineRefusal(o, env.native.value, env.observation.value, env.hostMetal);
    }
  }

  // ----- what evidence tells of options ----------------------------------------------------------------

  /** Options are written without loss: two that are written alike are equal. */
  lemma WrittenOptionsDiffer(o: LoadOptions, p: LoadOptions)
    ensures ToDict(o) == ToDict(p) <==> o == p
  {
    hide VersionFields;
    if ToDict(o) == ToDict(p) {
      var n := |VersionFields("runtime-foundation.load-options.v1")|;
      var f, g := ToDict(o).fields, ToDict(p).fields;
      assert f[n..n + 4] == SizeFields(o) && g[n..n + 4] == SizeFields(p);
      assert f[n + 4..] == NestedFields(o) && g[n + 4..] == NestedFields(p);
      SameSizes(o, p);
      SameNested(o, p);
    }
  }

  lemma SameSizes(o: LoadOptions, p: LoadOptions)
    requires SizeFields(o) == SizeFields(p)
    ensures o.context == p.context && o.batch == p.batch && o.ubatch == p.ubatch && o.threads == p.threads
  {
    var f, g := SizeFields(o), SizeFields(p);
    assert f[0].value == g[0].value && f[1].value == g[1].value && f[2].value == g[2].value && f[3].value == g[3].value;
  }

  lemma SameNested(o: LoadOptions, p: LoadOptions)
    requires NestedFields(o) == NestedFields(p)
    ensures o.keyType == p.keyType && o.valueType == p.valueType
    ensures o.backend == p.backend && o.device == p.device && o.layers == p.layers
  {
    assert NestedFields(o)[0].value == NestedFields(p)[0].value && NestedFields(o)[1].value == NestedFields(p)[1].value;
    var f, g := CacheFields(o), CacheFields(p);
    assert f[0].value == g[0].value && f[1].value == g[1].value;
    var h, k := AccelerationFields(o), AccelerationFields(p);
    assert h[0].value == k[0].value && h[1].value == k[1].value && h[2].value == k[2].value;
    assert |"auto"| == 4 && |"cpu"| == 3 && |"metal"| == 5;
  }
}

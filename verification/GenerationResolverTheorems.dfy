/** The generation resolver explains itself, says exactly the resolved intent, and is a fixed point. */
module GenerationResolverTheorems {
  import opened Wrappers
  import opened SettingsEvidence
  import opened SettingsTheorems
  import opened GenerationResolver

  // ----- the leaves of generation options ----------------------------------------------------------

  /** Every path that generation options may have. */
  const PATHS: seq<string> := SCALARS + INTENT_PATHS + [PRESERVE]

  lemma PathsAreDistinct()
    ensures Distinct(PATHS) && CONTROL_PATH !in PATHS && |SCALARS| == 8 && |INTENT_PATHS| == 3
  {
    assert |MAX_TOKENS| == 10 && |TEMPERATURE| == 11 && |TOP_P| == 5 && |TOP_K| == 5 && |PENALTY| == 18;
    assert TOP_P[4] == 'p' && TOP_K[4] == 'k' && STOP[1] == 't' && SEED[1] == 'e';
    assert |WINDOW| == 17 && |STOP| == 4 && |SEED| == 4 && |PRESERVE| == 17 && WINDOW[1] == 'e' && PRESERVE[1] == 'r';
    assert |MODE_PATH| == 20 && |EFFORT_PATH| == 22 && |BUDGET_PATH| == 29 && |CONTROL_PATH| == 32;
    hide MAX_TOKENS, TEMPERATURE, TOP_P, TOP_K, PENALTY, WINDOW, STOP, SEED, PRESERVE, MODE_PATH, EFFORT_PATH,
      BUDGET_PATH, CONTROL_PATH;
    assert PATHS == [MAX_TOKENS, TEMPERATURE, TOP_P, TOP_K, PENALTY, WINDOW, STOP, SEED,
                     MODE_PATH, EFFORT_PATH, BUDGET_PATH, PRESERVE];
    forall i, j | 0 <= i < j < |PATHS| ensures PATHS[i] != PATHS[j] {
      assert |PATHS[i]| != |PATHS[j]| || PATHS[i][1] != PATHS[j][1] || PATHS[i][4] != PATHS[j][4];
    }
  }

  lemma KeysAreKept()
    ensures forall k ::
      (k in SCALARS + [MODE, EFFORT, BUDGET, INTENT, PRESERVE] ==> !IsVersionKey(k))
  {
    assert |CONTRACT_VERSION| == 16 && |SCHEMA_VERSION| == 14;
    assert |MAX_TOKENS| == 10 && |TEMPERATURE| == 11 && |TOP_P| == 5 && |TOP_K| == 5 && |PENALTY| == 18;
    assert |WINDOW| == 17 && |STOP| == 4 && |SEED| == 4 && |PRESERVE| == 17;
    assert |MODE| == 4 && |EFFORT| == 6 && |BUDGET| == 13 && |INTENT| == 15;
  }

  lemma PathsOfKeys(k: string)
    ensures PathOf("", k) == k && PathOf(INTENT, k) == INTENT + "." + k
  {
  }

  lemma ScalarFieldLeaves(o: GenerationOptions)
    ensures Pairs(FieldLeaves(ScalarFields(o), ""), SCALARS, ValuesOf(ScalarFields(o)))
  {
    KeysAreKept();
    PathsAreDistinct();
    hide MAX_TOKENS, TEMPERATURE, TOP_P, TOP_K, PENALTY, WINDOW, STOP, SEED, INTENT_PATHS, PRESERVE, IsVersionKey,
      FieldLeaves, PathOf, Texts, Pairs;
    var fs := ScalarFields(o);
    assert |fs| == 8;
    forall i | 0 <= i < 8 ensures PathOf("", fs[i].key) == SCALARS[i] {
      PathsOfKeys(fs[i].key);
    }
    assert PathsOf(fs, "") == SCALARS;
    assert forall i :: 0 <= i < 8 ==> PATHS[i] == SCALARS[i];
    ScalarLeaves(fs, "");
  }

  lemma IntentLeaves(i: Intent)
    ensures Pairs(FieldLeaves([Field(INTENT, Object(IntentFields(i)))], ""), INTENT_PATHS, IntentValues(i))
  {
    KeysAreKept();
    PathsAreDistinct();
    NoLeaves("");
    hide MODE, EFFORT, BUDGET, INTENT, SCALARS, PRESERVE, IsVersionKey, FieldLeaves, PathOf, Pairs;
    var fs := IntentFields(i);
    PathsOfKeys(MODE);
    PathsOfKeys(EFFORT);
    PathsOfKeys(BUDGET);
    PathsOfKeys(INTENT);
    assert PathsOf(fs, INTENT) == INTENT_PATHS;
    assert ValuesOf(fs) == IntentValues(i);
    assert forall k :: 0 <= k < 3 ==> PATHS[8 + k] == INTENT_PATHS[k];
    ScalarLeaves(fs, INTENT);
    var f := Field(INTENT, Object(fs));
    assert [f] == [f] + [];
    LeavesCons(f, [], "");
    assert FieldLeaves([f], "") == Below(f, "") + map[] == FieldLeaves(fs, INTENT);
  }

  lemma PreserveLeaves(preserve: Option<bool>)
    ensures FieldLeaves(PreserveFields(preserve), "") ==
      if preserve.Some? then map[PRESERVE := Bool(preserve.value)] else map[]
  {
    KeysAreKept();
    hide PRESERVE, SCALARS, IsVersionKey, FieldLeaves, PathOf;
    PathsOfKeys(PRESERVE);
    NoLeaves("");
    if preserve.Some? {
      ScalarLeaf(Field(PRESERVE, Bool(preserve.value)), "");
    }
  }

  ghost predicate LeavesAre(leaves: Leaves, o: GenerationOptions) {
    && (forall p :: p in leaves ==> p in PATHS)
    && (forall i :: 0 <= i < |SCALARS| ==> Get(leaves, SCALARS[i]) == ValuesOf(ScalarFields(o))[i])
    && (forall i :: 0 <= i < |INTENT_PATHS| ==> Get(leaves, INTENT_PATHS[i]) == IntentValues(o.intent)[i])
    && Get(leaves, PRESERVE) == (if o.preserve.Some? then Bool(o.preserve.value) else Null)
  }

  lemma SplitLeaves(o: GenerationOptions)
    ensures LeafValues(ToDict(o), "")
      == FieldLeaves(ScalarFields(o), "") + FieldLeaves([Field(INTENT, Object(IntentFields(o.intent)))], "")
       + FieldLeaves(PreserveFields(o.preserve), "")
  {
    hide VersionFields, ScalarFields, IntentFields, PreserveFields, FieldLeaves, INTENT;
    var v := VersionFields("runtime-foundation.generation-options.v1");
    var s, i, p := ScalarFields(o), [Field(INTENT, Object(IntentFields(o.intent)))], PreserveFields(o.preserve);
    VersionLeaves("runtime-foundation.generation-options.v1");
    LeavesConcat(v, s, "");
    LeavesConcat(v + s, i, "");
    LeavesConcat(v + s + i, p, "");
    assert map[] + FieldLeaves(s, "") == FieldLeaves(s, "");
  }

  lemma GenerationLeaves(o: GenerationOptions)
    ensures LeavesAre(LeafValues(ToDict(o), ""), o)
  {
    PathsAreDistinct();
    SplitLeaves(o);
    ScalarFieldLeaves(o);
    IntentLeaves(o.intent);
    PreserveLeaves(o.preserve);
    MergedLeaves(FieldLeaves(ScalarFields(o), ""), FieldLeaves([Field(INTENT, Object(IntentFields(o.intent)))], ""), o);
  }

  lemma MergedLeaves(s: Leaves, i: Leaves, o: GenerationOptions)
    requires Pairs(s, SCALARS, ValuesOf(ScalarFields(o))) && Pairs(i, INTENT_PATHS, IntentValues(o.intent))
    ensures LeavesAre(s + i + (if o.preserve.Some? then map[PRESERVE := Bool(o.preserve.value)] else map[]), o)
  {
    PathsAreDistinct();
    SizesAgree(o, o);
    hide SCALARS, INTENT_PATHS, PRESERVE, ScalarFields, IntentValues;
    var preserve := if o.preserve.Some? then map[PRESERVE := Bool(o.preserve.value)] else map[];
    var leaves := s + i + preserve;
    assert PRESERVE == PATHS[11] && PRESERVE !in s && PRESERVE !in i by {
      assert forall k :: 0 <= k < 8 ==> SCALARS[k] == PATHS[k];
      assert forall k :: 0 <= k < 3 ==> INTENT_PATHS[k] == PATHS[8 + k];
    }
    forall k | 0 <= k < |SCALARS| ensures Get(leaves, SCALARS[k]) == s[SCALARS[k]] {
      assert SCALARS[k] == PATHS[k];
      assert forall j :: 0 <= j < 3 ==> INTENT_PATHS[j] == PATHS[8 + j];
    }
    forall k | 0 <= k < |INTENT_PATHS| ensures Get(leaves, INTENT_PATHS[k]) == i[INTENT_PATHS[k]] {
      assert INTENT_PATHS[k] == PATHS[8 + k];
    }
  }

  // ----- the evidence ------------------------------------------------------------------------------

  /** What the resolver never changes. */
  predicate SameRest(o: GenerationOptions, e: GenerationOptions) {
    && o.maxTokens == e.maxTokens && o.temperature == e.temperature && o.window == e.window
    && o.stop == e.stop && o.preserve == e.preserve
  }

  /** A path is in the book of the records exactly when its value changed or it is the template's. */
  lemma BookOfRecords(o: GenerationOptions, e: GenerationOptions, arguments: seq<Field>)
    ensures var book := Book(Records(o, e, arguments));
      && (forall i :: 0 <= i < |INTENT_PATHS| ==>
            Explained(book, INTENT_PATHS[i], IntentValues(o.intent)[i], IntentValues(e.intent)[i]))
      && (forall i :: 0 <= i < |SAMPLER_PATHS| ==>
            Explained(book, SAMPLER_PATHS[i], SamplerValues(o)[i], SamplerValues(e)[i]))
      && (CONTROL_PATH in book <==> arguments == [])
      && forall p :: p in book ==> p in INTENT_PATHS || p in SAMPLER_PATHS || p == CONTROL_PATH
  {
    SamplerPathsAreDistinct();
    hide INTENT_PATHS, SAMPLER_PATHS, CONTROL_PATH, Differences, Book, IntentValues, SamplerValues;
    var a, b := IntentValues(o.intent), IntentValues(e.intent);
    var x, y := SamplerValues(o), SamplerValues(e);
    SizesAgree(o, e);
    var intent, sampler := Differences(INTENT_PATHS, a, b), Differences(SAMPLER_PATHS, x, y);
    var control := if arguments == [] then [ControlRecord()] else [];
    BookConcat(intent + control, sampler);
    BookConcat(intent, control);
    OneRecordBook(arguments);
    forall p: string
      ensures p !in INTENT_PATHS ==> p !in Book(intent)
      ensures p !in SAMPLER_PATHS ==> p !in Book(sampler)
    {
      if p !in INTENT_PATHS {
        OnlyListedPaths(INTENT_PATHS, a, b, p);
      }
      if p !in SAMPLER_PATHS {
        OnlyListedPaths(SAMPLER_PATHS, x, y, p);
      }
    }
    forall i | 0 <= i < |INTENT_PATHS| ensures Explained(Book(intent), INTENT_PATHS[i], a[i], b[i]) {
      DifferencesAreExact(INTENT_PATHS, a, b, i);
    }
    forall i | 0 <= i < |SAMPLER_PATHS| ensures Explained(Book(sampler), SAMPLER_PATHS[i], x[i], y[i]) {
      DifferencesAreExact(SAMPLER_PATHS, x, y, i);
    }
  }

  predicate Explained(book: map<string, Record>, path: string, from: Json, to: Json) {
    && (path in book <==> from != to)
    && (path in book ==> book[path] == Record(path, from, to, to))
  }

  lemma SizesAgree(o: GenerationOptions, e: GenerationOptions)
    ensures |INTENT_PATHS| == |IntentValues(o.intent)| == |IntentValues(e.intent)|
    ensures |SAMPLER_PATHS| == |SamplerValues(o)| == |SamplerValues(e)|
  {
  }

  lemma OneRecordBook(arguments: seq<Field>)
    ensures Book(if arguments == [] then [ControlRecord()] else [])
      == if arguments == [] then map[CONTROL_PATH := ControlRecord()] else map[]
  {
    hide CONTROL_PATH;
    EmptyBook();
    BookSnoc([], ControlRecord());
    assert [] + [ControlRecord()] == [ControlRecord()];
  }

  lemma SamplerPathsAreDistinct()
    ensures Distinct(INTENT_PATHS) && Distinct(SAMPLER_PATHS)
    ensures CONTROL_PATH !in INTENT_PATHS && CONTROL_PATH !in SAMPLER_PATHS
    ensures forall p :: p in INTENT_PATHS ==> p !in SAMPLER_PATHS
  {
    PathsAreDistinct();
    hide MAX_TOKENS, TEMPERATURE, TOP_P, TOP_K, PENALTY, WINDOW, STOP, SEED, PRESERVE, MODE_PATH, EFFORT_PATH,
      BUDGET_PATH, CONTROL_PATH;
    assert SAMPLER_PATHS == [PATHS[2], PATHS[3], PATHS[4], PATHS[7]];
    assert INTENT_PATHS == [PATHS[8], PATHS[9], PATHS[10]];
  }

  lemma RecordsExplain(o: GenerationOptions, e: GenerationOptions, arguments: seq<Field>)
    requires SameRest(o, e)
    ensures var evidence := EvidenceOf(o, Resolution(e, arguments, Records(o, e, arguments)));
      Check(evidence).Ok? && (HasIdleRecord(evidence) <==> arguments == [])
  {
    var evidence := EvidenceOf(o, Resolution(e, arguments, Records(o, e, arguments)));
    GenerationLeaves(o);
    GenerationLeaves(e);
    BookOfRecords(o, e, arguments);
    PathsAreDistinct();
    hide Check, LeafValues, ToDict, Records, Book;
    forall p: string
      ensures evidence.Changed(p) ==> p in Book(evidence.records) && evidence.Matches(Book(evidence.records)[p])
      ensures p in Book(evidence.records) && p != CONTROL_PATH ==> evidence.Changed(p)
    {
      PathIsExplained(o, e, evidence, p);
    }
    assert !evidence.Changed(CONTROL_PATH);
    AcceptedIffExplained(evidence);
  }

  lemma PathIsExplained(o: GenerationOptions, e: GenerationOptions, evidence: Evidence, p: string)
    requires SameRest(o, e) && LeavesAre(evidence.Requested(), o) && LeavesAre(evidence.Resolved(), e)
    requires evidence.effective == evidence.resolved
    requires var book := Book(evidence.records);
      && (forall i :: 0 <= i < |INTENT_PATHS| ==>
            Explained(book, INTENT_PATHS[i], IntentValues(o.intent)[i], IntentValues(e.intent)[i]))
      && (forall i :: 0 <= i < |SAMPLER_PATHS| ==>
            Explained(book, SAMPLER_PATHS[i], SamplerValues(o)[i], SamplerValues(e)[i]))
      && forall q :: q in book ==> q in INTENT_PATHS || q in SAMPLER_PATHS || q == CONTROL_PATH
    ensures evidence.Changed(p) ==> p in Book(evidence.records) && evidence.Matches(Book(evidence.records)[p])
    ensures p in Book(evidence.records) && p != CONTROL_PATH ==> evidence.Changed(p)
  {
    ScalarsAgree(o, e);
    SizesAgree(o, e);
    hide SCALARS, INTENT_PATHS, SAMPLER_PATHS, PRESERVE, CONTROL_PATH, Book, LeafValues, ScalarFields, ValuesOf,
      IntentValues, SamplerValues;
    if p in INTENT_PATHS {
      var i :| 0 <= i < |INTENT_PATHS| && INTENT_PATHS[i] == p;
      assert Explained(Book(evidence.records), p, IntentValues(o.intent)[i], IntentValues(e.intent)[i]);
    } else if p in SAMPLER_PATHS {
      var i :| 0 <= i < |SAMPLER_PATHS| && SAMPLER_PATHS[i] == p;
      assert Explained(Book(evidence.records), p, SamplerValues(o)[i], SamplerValues(e)[i]);
      assert SCALARS[if i == 3 then 7 else i + 2] == p;
    } else if p in SCALARS {
      var k :| 0 <= k < |SCALARS| && SCALARS[k] == p;
    } else if p != PRESERVE {
      assert p !in PATHS;
    }
  }

  /** The sampler's paths are four of the scalars; the other four keep their values. */
  lemma ScalarsAgree(o: GenerationOptions, e: GenerationOptions)
    requires SameRest(o, e)
    ensures var (s, t) := (ValuesOf(ScalarFields(o)), ValuesOf(ScalarFields(e)));
      && |SCALARS| == |s| == |t| == 8 && |SAMPLER_PATHS| == 4
      && SAMPLER_PATHS == [SCALARS[2], SCALARS[3], SCALARS[4], SCALARS[7]]
      && SamplerValues(o) == [s[2], s[3], s[4], s[7]] && SamplerValues(e) == [t[2], t[3], t[4], t[7]]
      && forall k :: 0 <= k < 8 ==> SCALARS[k] in SAMPLER_PATHS || s[k] == t[k]
  {
    hide MAX_TOKENS, TEMPERATURE, TOP_P, TOP_K, PENALTY, WINDOW, STOP, SEED, Texts;
    assert SCALARS[2] in SAMPLER_PATHS && SCALARS[3] in SAMPLER_PATHS && SCALARS[4] in SAMPLER_PATHS
      && SCALARS[7] in SAMPLER_PATHS;
  }

  /**
   The evidence of the resolver is never rejected. Its one idle record, that a template without a thinking
   control was met, is there exactly when nothing was passed to the template.
  */
  lemma EvidenceIsAlwaysAccepted(r: Request, env: Environment, seed: nat)
    ensures Resolve(r, env, seed) == Resolved(r, env, seed)
    ensures Resolve(r, env, seed).Ok? ==>
      (HasIdleRecord(EvidenceOf(r.options, Resolve(r, env, seed).value))
       <==> Resolve(r, env, seed).value.arguments == [])
  {
    hide Check, ToDict, HasIdleRecord, Records, Valid;
    if Resolved(r, env, seed).Ok? {
      var resolution := Resolved(r, env, seed).value;
      RecordsExplain(r.options, resolution.effective, resolution.arguments);
    }
  }

  // ----- what is passed to the engine ----------------------------------------------------------------

  predicate Kept<T(==)>(asked: Option<T>, given: Option<T>) {
    given.Some? && (asked.Some? ==> given == asked)
  }

  /** Every sampler setting is explicit, what was asked for is kept, and the thinking mode is decided. */
  lemma EffectiveOptionsAreExplicit(r: Request, env: Environment, seed: nat)
    requires Resolve(r, env, seed).Ok?
    ensures var (o, e) := (r.options, Resolve(r, env, seed).value.effective);
      && Valid(e) && SameRest(o, e)
      && Kept(o.topP, e.topP) && Kept(o.topK, e.topK) && Kept(o.penalty, e.penalty) && Kept(o.seed, e.seed)
      && e.topK.value >= 1
      && !e.intent.mode.Auto? && (!o.intent.mode.Auto? ==> e.intent == o.intent)
      && (o.intent.effort.Some? ==> e.intent.effort == o.intent.effort)
      && (o.intent.budget.Some? ==> e.intent.budget == o.intent.budget)
  {
    hide Check, ToDict, Records, TemplateArguments, PreservationError, Usable;
    EvidenceIsAlwaysAccepted(r, env, seed);
    DefaultsAreUsable(r, env, seed);
  }

  /** What was left open is taken from the binding, the random seed, and the explicit resolution of AUTO. */
  lemma OpenSettingsGetTheirDefaults(r: Request, env: Environment, seed: nat)
    requires Resolve(r, env, seed).Ok?
    ensures env.defaults.Some?
    ensures var (o, e, d) := (r.options, Resolve(r, env, seed).value.effective, env.defaults.value);
      && (o.topP.None? ==> e.topP == Some(d.topP)) && (o.topK.None? ==> e.topK == Some(d.topK))
      && (o.penalty.None? ==> e.penalty == Some(d.penalty)) && (o.seed.None? ==> e.seed == Some(seed))
      && (o.intent.mode.Auto? ==>
            && r.studio.Some? && e.intent.mode == r.studio.value.mode
            && (o.intent.effort.None? ==> e.intent.effort == r.studio.value.effort)
            && (o.intent.budget.None? ==> e.intent.budget == r.studio.value.budget))
  {
    hide Check, ToDict, Records, TemplateArguments, PreservationError, Usable, Valid;
    EvidenceIsAlwaysAccepted(r, env, seed);
    DefaultsAreUsable(r, env, seed);
  }

  lemma DefaultsAreUsable(r: Request, env: Environment, seed: nat)
    requires Resolved(r, env, seed).Ok?
    ensures env.defaults.Some? && env.defaults.value.topK >= 1
  {
    hide TemplateArguments, PreservationError, Valid, Records;
  }

  /** The argument for one part of the intent, under one of the names that the template may use for it. */
  ghost predicate Passes(arguments: seq<Field>, names: seq<string>, value: Json) {
    exists f :: f in arguments && f.key in names && f.value == value
  }

  /**
   The template is told exactly the resolved intent, in variables that it has; it is told nothing only if
   thinking is off, nothing else is asked for, and it has no thinking control.
  */
  lemma ArgumentsSayTheIntent(i: Intent, variables: set<string>)
    requires TemplateArguments(i, variables).Ok? && !i.mode.Auto?
    ensures var a := TemplateArguments(i, variables).value;
      && (forall f :: f in a ==> f.key in variables)
      && |a| == (if a == [] then 0 else 1 + (if i.effort.Some? then 1 else 0) + (if i.budget.Some? then 1 else 0))
      && (a == [] <==> i == Intent(Off, None, None) && forall n :: n in THINKING_NAMES ==> n !in variables)
      && (a != [] ==>
            && Passes(a, THINKING_NAMES, Bool(i.mode.On?))
            && (i.effort.Some? ==> Passes(a, EFFORT_NAMES, Text(EffortName(i.effort.value))))
            && (i.budget.Some? ==> Passes(a, BUDGET_NAMES, Number(i.budget.value))))
  {
    hide FirstKnown, THINKING_NAMES, EFFORT_NAMES, BUDGET_NAMES, EffortName;
    var a := TemplateArguments(i, variables).value;
    if a != [] {
      var e := if i.effort.Some? then 1 else 0;
      assert a[0] in a;
      if i.effort.Some? {
        assert a[1] in a;
      }
      if i.budget.Some? {
        assert a[1 + e] in a;
      }
    }
  }

  /** Resolving the effective options again changes nothing, whatever seed or AUTO resolution is offered. */
  lemma EffectiveOptionsAreAFixedPoint(
    r: Request, env: Environment, seed: nat, studio: Option<Intent>, otherSeed: nat)
    requires Resolve(r, env, seed).Ok?
    ensures var s := Resolve(r, env, seed).value;
      Resolve(Request(s.effective, studio, r.hasHistory), env, otherSeed)
      == Ok(Resolution(s.effective, s.arguments, if s.arguments == [] then [ControlRecord()] else []))
  {
    var s := Resolve(r, env, seed).value;
    var again := Request(s.effective, studio, r.hasHistory);
    EvidenceIsAlwaysAccepted(r, env, seed);
    EvidenceIsAlwaysAccepted(again, env, otherSeed);
    EffectiveOptionsAreExplicit(r, env, seed);
    SecondPass(r, env, seed, studio, otherSeed);
    NothingToRecord(s.effective, s.arguments);
  }

  predicate AskedOrGiven<T(==)>(value: T, asked: T, given: T) {
    value == asked || value == given
  }

  /** Each setting of `p` is either that of `o` or that of `e`. */
  predicate Between(p: GenerationOptions, o: GenerationOptions, e: GenerationOptions) {
    && SameRest(p, o)
    && AskedOrGiven(p.topP, o.topP, e.topP) && AskedOrGiven(p.topK, o.topK, e.topK)
    && AskedOrGiven(p.penalty, o.penalty, e.penalty) && AskedOrGiven(p.seed, o.seed, e.seed)
    && AskedOrGiven(p.intent, o.intent, e.intent)
  }

  /**
   A default is what an explicit request for it would have given: whoever fills in any of the open settings
   with the effective values gets the same options and tells the template the same.
  */
  lemma FillingInChangesNothing(r: Request, p: GenerationOptions, env: Environment, seed: nat)
    requires Resolve(r, env, seed).Ok? && Between(p, r.options, Resolve(r, env, seed).value.effective)
    ensures var s := Resolve(r.(options := p), env, seed);
      s.Ok? && s.value.effective == Resolve(r, env, seed).value.effective
      && s.value.arguments == Resolve(r, env, seed).value.arguments
  {
    EvidenceIsAlwaysAccepted(r, env, seed);
    EvidenceIsAlwaysAccepted(r.(options := p), env, seed);
    EffectiveOptionsAreExplicit(r, env, seed);
    SameIntent(r.options.intent, p.intent, r.studio);
    hide Resolve, TemplateArguments, Records, Usable, Valid, HasIdleRecord, ResolvedIntent;
  }

  lemma SameIntent(i: Intent, j: Intent, studio: Option<Intent>)
    requires ResolvedIntent(i, studio).Ok? && (j == i || j == ResolvedIntent(i, studio).value)
    ensures ResolvedIntent(j, studio) == ResolvedIntent(i, studio)
  {
  }

  lemma SecondPass(r: Request, env: Environment, seed: nat, studio: Option<Intent>, otherSeed: nat)
    requires Resolved(r, env, seed).Ok? && Valid(Resolved(r, env, seed).value.effective)
    requires var e := Resolved(r, env, seed).value.effective; e.topK.value >= 1 && !e.intent.mode.Auto?
    ensures var s := Resolved(r, env, seed).value;
      Resolved(Request(s.effective, studio, r.hasHistory), env, otherSeed)
      == Ok(Resolution(s.effective, s.arguments, Records(s.effective, s.effective, s.arguments)))
  {
    hide TemplateArguments, Records, Usable, Valid;
  }

  lemma NothingToRecord(o: GenerationOptions, arguments: seq<Field>)
    ensures Records(o, o, arguments) == if arguments == [] then [ControlRecord()] else []
  {
    hide INTENT_PATHS, SAMPLER_PATHS, Differences, IntentValues, SamplerValues, ControlRecord;
    SizesAgree(o, o);
    DifferencesOfEqual(INTENT_PATHS, IntentValues(o.intent));
    DifferencesOfEqual(SAMPLER_PATHS, SamplerValues(o));
  }

  // ----- which requests are resolved -----------------------------------------------------------------

  /** AUTO is decided by whoever sent the request, or by nobody. */
  predicate IsDecided(r: Request) {
    r.options.intent.mode.Auto? ==> r.studio.Some? && !r.studio.value.mode.Auto?
  }

  predicate Thinks(r: Request) {
    r.options.intent.mode.On? || (r.options.intent.mode.Auto? && r.studio.Some? && r.studio.value.mode.On?)
  }

  predicate AsksEffort(r: Request) {
    || r.options.intent.effort.Some?
    || (r.options.intent.mode.Auto? && r.studio.Some? && r.studio.value.effort.Some?)
  }

  /** The budget asked for, by the request itself or with its explicit resolution of AUTO. */
  function BudgetOf(r: Request): Option<int> {
    if r.options.intent.budget.Some? || !r.options.intent.mode.Auto? || r.studio.None? then r.options.intent.budget
    else r.studio.value.budget
  }

  /** The template has a variable for whatever it must be told; an OFF intent may be told to nobody. */
  predicate TemplateCanSay(r: Request, variables: set<string>) {
    && variables != {}
    && ("enable_thinking" in variables || "thinking" in variables
        || !(Thinks(r) || AsksEffort(r) || BudgetOf(r).Some?))
    && (AsksEffort(r) ==> "thinking_effort" in variables || "reasoning_effort" in variables)
    && (BudgetOf(r).Some? ==> "thinking_budget_tokens" in variables || "thinking_budget" in variables)
  }

  /** Reasoning history is preserved on request only, by a template that can, and that reads it. */
  predicate HistoryIsUsed(r: Request, env: Environment) {
    && (r.hasHistory ==> r.options.preserve == Some(true) && env.readsReasoning)
    && (r.options.preserve.Some? ==> "preserve_thinking" in env.variables)
  }

  /** The binding declares defaults that a sampler can use. */
  predicate HasUsableDefaults(env: Environment) {
    && env.defaults.Some?
    && 0.0 <= env.defaults.value.topP <= 1.0 && env.defaults.value.topK >= 1 && env.defaults.value.penalty > 0.0
  }

  /** What was left open gets a value that options can hold. */
  predicate FilledInIsValid(r: Request, env: Environment, seed: nat)
    requires env.defaults.Some?
  {
    && Valid(r.options) && (r.options.topK.None? ==> env.defaults.value.topK <= 1_000_000)
    && (r.options.seed.None? ==> seed <= 0x7FFF_FFFF_FFFF_FFFF)
    && (BudgetOf(r).Some? ==> 0 <= BudgetOf(r).value <= 10_000_000)
  }

  lemma IntentIsResolvedIff(r: Request)
    ensures var i := ResolvedIntent(r.options.intent, r.studio);
      && (i.Ok? <==> IsDecided(r))
      && (i.Ok? ==> !i.value.mode.Auto? && (i.value.mode.On? <==> Thinks(r))
                    && (i.value.effort.Some? <==> AsksEffort(r)) && i.value.budget == BudgetOf(r))
  {
  }

  lemma TemplateIsToldIff(r: Request, variables: set<string>)
    requires IsDecided(r)
    ensures TemplateArguments(ResolvedIntent(r.options.intent, r.studio).value, variables).Ok?
      <==> TemplateCanSay(r, variables)
  {
    IntentIsResolvedIff(r);
    assert "enable_thinking" in THINKING_NAMES && "thinking" in THINKING_NAMES;
    assert "thinking_effort" in EFFORT_NAMES && "reasoning_effort" in EFFORT_NAMES;
    assert "thinking_budget_tokens" in BUDGET_NAMES && "thinking_budget" in BUDGET_NAMES;
    hide ResolvedIntent, FirstKnown, Thinks, AsksEffort, BudgetOf, EffortName;
  }

  lemma HistoryIsUsedIff(r: Request, env: Environment)
    ensures PreservationError(r, env).None? <==> HistoryIsUsed(r, env)
  {
  }

  /** The tests that a request must pass before its options are made. */
  predicate TestsPass(r: Request, env: Environment) {
    && r.options.topK != Some(0) && r.options.window.None? && IsDecided(r) && TemplateCanSay(r, env.variables)
    && HistoryIsUsed(r, env) && HasUsableDefaults(env)
  }

  lemma ResolvedIff(r: Request, env: Environment, seed: nat)
    ensures Resolved(r, env, seed).Ok? <==> TestsPass(r, env) && FilledInIsValid(r, env, seed)
    ensures Resolved(r, env, seed) == Err(InvalidResolution) <==> TestsPass(r, env) && !FilledInIsValid(r, env, seed)
  {
    IntentIsResolvedIff(r);
    HistoryIsUsedIff(r, env);
    if IsDecided(r) {
      TemplateIsToldIff(r, env.variables);
    }
    hide ResolvedIntent, TemplateArguments, PreservationError, Records, TemplateCanSay, HistoryIsUsed, IsDecided,
      BudgetOf;
  }

  /**
   Exactly which generation requests are resolved; and the constructor of the resolved options fails exactly if all
   tests pass and a value that was filled in, or the request itself, is out of range.
  */
  lemma ResolvedIffSupported(r: Request, env: Environment, seed: nat)
    ensures Resolve(r, env, seed).Ok? <==> TestsPass(r, env) && FilledInIsValid(r, env, seed)
    ensures Resolve(r, env, seed) == Err(InvalidResolution) <==> TestsPass(r, env) && !FilledInIsValid(r, env, seed)
  {
    EvidenceIsAlwaysAccepted(r, env, seed);
    ResolvedIff(r, env, seed);
    hide Resolve, Resolved, TestsPass, FilledInIsValid, HasIdleRecord;
  }

  // ----- and why others are not ----------------------------------------------------------------------

  /** A test that a request may fail, and the error that says so. */
  datatype Test = Test(fails: bool, error: GenerationError)

  /** The tests in the order in which they are made. */
  function Tests(r: Request, env: Environment, seed: nat): seq<Test> {
    var v, toSay := env.variables, Thinks(r) || AsksEffort(r) || BudgetOf(r).Some?;
    [Test(r.options.topK == Some(0), TopKZero), Test(r.options.window.Some?, WindowUnsupported),
     Test(!IsDecided(r), UnresolvedAuto), Test(v == {}, NothingToInspect),
     Test(toSay && "enable_thinking" !in v && "thinking" !in v, NoThinkingControl),
     Test(AsksEffort(r) && "thinking_effort" !in v && "reasoning_effort" !in v, NoEffortControl),
     Test(BudgetOf(r).Some? && "thinking_budget_tokens" !in v && "thinking_budget" !in v, NoBudgetControl),
     Test(r.hasHistory && r.options.preserve != Some(true), HistoryNotPreserved),
     Test(r.options.preserve.Some? && "preserve_thinking" !in v, PreservationNotExposed),
     Test(r.hasHistory && !env.readsReasoning, HistoryNotConsumed),
     Test(!HasUsableDefaults(env), EngineUnavailable),
     Test(HasUsableDefaults(env) && !FilledInIsValid(r, env, seed), InvalidResolution)]
  }

  predicate IsFirstFailure(tests: seq<Test>, error: GenerationError) {
    exists i :: 0 <= i < |tests| && tests[i].fails && tests[i].error == error
      && forall j :: 0 <= j < i ==> !tests[j].fails
  }

  lemma FailsFirst(tests: seq<Test>, i: nat)
    requires i < |tests| && tests[i].fails && forall j :: 0 <= j < i ==> !tests[j].fails
    ensures IsFirstFailure(tests, tests[i].error)
  {
  }

  lemma TemplateRefusal(r: Request, env: Environment, seed: nat)
    requires r.options.topK != Some(0) && r.options.window.None? && IsDecided(r)
    requires TemplateArguments(ResolvedIntent(r.options.intent, r.studio).value, env.variables).Err?
    ensures IsFirstFailure(
      Tests(r, env, seed), TemplateArguments(ResolvedIntent(r.options.intent, r.studio).value, env.variables).error)
  {
    IntentIsResolvedIff(r);
    assert "enable_thinking" in THINKING_NAMES && "thinking" in THINKING_NAMES;
    assert "thinking_effort" in EFFORT_NAMES && "reasoning_effort" in EFFORT_NAMES;
    hide ResolvedIntent, FirstKnown, Thinks, AsksEffort, BudgetOf, EffortName, HasUsableDefaults, FilledInIsValid,
      IsDecided, IsFirstFailure;
    var tests := Tests(r, env, seed);
    FailsFirst(tests, if tests[3].fails then 3 else if tests[4].fails then 4 else if tests[5].fails then 5 else 6);
  }

  lemma PreservationRefusal(r: Request, env: Environment, seed: nat)
    requires r.options.topK != Some(0) && r.options.window.None? && IsDecided(r) && TemplateCanSay(r, env.variables)
    requires PreservationError(r, env).Some?
    ensures IsFirstFailure(Tests(r, env, seed), PreservationError(r, env).value)
  {
    hide Thinks, AsksEffort, BudgetOf, HasUsableDefaults, FilledInIsValid, IsDecided, IsFirstFailure;
    var tests := Tests(r, env, seed);
    FailsFirst(tests, if tests[7].fails then 7 else if tests[8].fails then 8 else 9);
  }

  lemma LastRefusal(r: Request, env: Environment, seed: nat)
    requires r.options.topK != Some(0) && r.options.window.None? && IsDecided(r) && TemplateCanSay(r, env.variables)
    requires HistoryIsUsed(r, env) && !(HasUsableDefaults(env) && FilledInIsValid(r, env, seed))
    ensures IsFirstFailure(Tests(r, env, seed), if HasUsableDefaults(env) then InvalidResolution else EngineUnavailable)
  {
    hide Thinks, AsksEffort, BudgetOf, FilledInIsValid, IsDecided, IsFirstFailure;
    FailsFirst(Tests(r, env, seed), if HasUsableDefaults(env) then 11 else 10);
  }

  lemma EarlyRefusal(r: Request, env: Environment, seed: nat)
    requires r.options.topK == Some(0) || r.options.window.Some? || !IsDecided(r)
    ensures IsFirstFailure(
      Tests(r, env, seed),
      if r.options.topK == Some(0) then TopKZero
      else if r.options.window.Some? then WindowUnsupported
      else UnresolvedAuto)
  {
    hide Thinks, AsksEffort, BudgetOf, FilledInIsValid, HasUsableDefaults, IsDecided, IsFirstFailure;
    FailsFirst(Tests(r, env, seed), if r.options.topK == Some(0) then 0 else if r.options.window.Some? then 1 else 2);
  }

  /** A request that is not resolved is told the first test that it fails, in the order of the source. */
  lemma RefusalNamesFirstFailure(r: Request, env: Environment, seed: nat)
    requires Resolve(r, env, seed).Err?
    ensures IsFirstFailure(Tests(r, env, seed), Resolve(r, env, seed).error)
  {
    hide Tests, IsFirstFailure, TemplateArguments, PreservationError, TemplateCanSay, HistoryIsUsed, FilledInIsValid,
      Records, Resolve, BudgetOf;
    EvidenceIsAlwaysAccepted(r, env, seed);
    IntentIsResolvedIff(r);
    HistoryIsUsedIff(r, env);
    ResolvedIff(r, env, seed);
    if r.options.topK == Some(0) || r.options.window.Some? || !IsDecided(r) {
      EarlyRefusal(r, env, seed);
    } else {
      TemplateIsToldIff(r, env.variables);
      if !TemplateCanSay(r, env.variables) {
        TemplateRefusal(r, env, seed);
      } else if !HistoryIsUsed(r, env) {
        PreservationRefusal(r, env, seed);
      } else {
        LastRefusal(r, env, seed);
      }
    }
  }

  // ----- what evidence tells of options ----------------------------------------------------------------

  /** Options are written without loss: two that are written alike are equal. */
  lemma WrittenOptionsDiffer(o: GenerationOptions, p: GenerationOptions)
    ensures ToDict(o) == ToDict(p) <==> o == p
  {
    hide VersionFields, ScalarFields, IntentFields, PreserveFields;
    if ToDict(o) == ToDict(p) {
      EightScalars(o);
      EightScalars(p);
      var n := |VersionFields("runtime-foundation.generation-options.v1")|;
      var f, g := ToDict(o).fields, ToDict(p).fields;
      assert f[n..n + 8] == ScalarFields(o) && g[n..n + 8] == ScalarFields(p);
      assert f[n + 8] == Field(INTENT, Object(IntentFields(o.intent)));
      assert g[n + 8] == Field(INTENT, Object(IntentFields(p.intent)));
      assert f[n + 9..] == PreserveFields(o.preserve) && g[n + 9..] == PreserveFields(p.preserve);
      SameScalars(o, p);
      SameIntents(o.intent, p.intent);
      SamePreserve(o.preserve, p.preserve);
    }
  }

  lemma EightScalars(o: GenerationOptions)
    ensures |ScalarFields(o)| == 8
  {
  }

  lemma SameScalars(o: GenerationOptions, p: GenerationOptions)
    requires ScalarFields(o) == ScalarFields(p)
    ensures o == p.(intent := o.intent, preserve := o.preserve)
  {
    hide MAX_TOKENS, TEMPERATURE, TOP_P, TOP_K, PENALTY, WINDOW, STOP, SEED, Texts;
    var f, g := ScalarFields(o), ScalarFields(p);
    assert f[0].value == g[0].value && f[1].value == g[1].value && f[2].value == g[2].value && f[3].value == g[3].value;
    assert f[4].value == g[4].value && f[5].value == g[5].value && f[6].value == g[6].value && f[7].value == g[7].value;
    SameTexts(o.stop, p.stop);
  }

  lemma SameTexts(a: seq<string>, b: seq<string>)
    ensures Texts(a) == Texts(b) <==> a == b
  {
    if Texts(a) == Texts(b) {
      assert |a| == |Texts(a).items| == |Texts(b).items| == |b|;
      forall i | 0 <= i < |a| ensures a[i] == b[i] {
        assert Texts(a).items[i] == Text(a[i]) && Texts(b).items[i] == Text(b[i]);
      }
    }
  }

  lemma SameIntents(i: Intent, j: Intent)
    requires IntentFields(i) == IntentFields(j)
    ensures i == j
  {
    var f, g := IntentFields(i), IntentFields(j);
    assert f[0].value == g[0].value && f[1].value == g[1].value && f[2].value == g[2].value;
    assert |"OFF"| == 3 && |"AUTO"| == 4 && |"ON"| == 2 && |"LOW"| == 3 && |"MEDIUM"| == 6 && |"HIGH"| == 4;
  }

  lemma SamePreserve(a: Option<bool>, b: Option<bool>)
    requires PreserveFields(a) == PreserveFields(b)
    ensures a == b
  {
    if a.Some? && b.Some? {
      assert PreserveFields(a)[0].value == PreserveFields(b)[0].value;
    }
  }
}

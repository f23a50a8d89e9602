/** Exactly which JSON is read as which adapter lineage, and that a written lineage is read back. */
module LineageTheorems {
  import opened Wrappers
  import opened ExecutionInputs
  import opened ExecutionInputTheorems

  /** The field holds this text, possibly with white space around it. */
  predicate Says(fields: Fields, key: string, text: string) {
    key in fields && fields[key].Text? && Strip(fields[key].s) == text != ""
  }

  predicate SaysLower(fields: Fields, key: string, text: string) {
    key in fields && fields[key].Text? && Strip(fields[key].s) != "" && Lower(Strip(fields[key].s)) == text
  }

  /** `v` describes the target base `t`; a locator is allowed, and must be one. */
  predicate DescribesTarget(v: Value, t: TargetBase) {
    && v.Object? && v.fields.Keys <= TARGET_KEYS
    && ParseIdentity(Get(v.fields, "content_identity", Null)) == Ok(t.identity)
    && (Get(v.fields, "locator", Null).Null? || ParseLocator(v.fields["locator"]).Ok?)
    && Says(v.fields, "artifact_id", t.artifactId) && Says(v.fields, "revision", t.revision)
    && SaysLower(v.fields, "format", t.format) && Says(v.fields, "quantization", t.quantization)
    && Says(v.fields, "model_identity", t.model) && Says(v.fields, "tokenizer_identity", t.tokenizer)
  }

  lemma SaysIff(fields: Fields, key: string, text: string)
    ensures RequiredText(Get(fields, key, Null)) == Ok(text) <==> Says(fields, key, text)
    ensures LowerText(Get(fields, key, Null)) == Ok(text) <==> SaysLower(fields, key, text)
  {
    hide Strip, Lower;
  }

  /** Reading `v` gives this target if and only if `v` describes it. */
  lemma TargetIff(v: Value, t: TargetBase)
    ensures ParseTarget(v) == Ok(t) <==> DescribesTarget(v, t)
  {
    hide ParseIdentity, ParseLocator, RequiredText, LowerText, Says, SaysLower, TARGET_KEYS;
    if v.Object? {
      SaysIff(v.fields, "artifact_id", t.artifactId);
      SaysIff(v.fields, "revision", t.revision);
      SaysIff(v.fields, "format", t.format);
      SaysIff(v.fields, "quantization", t.quantization);
      SaysIff(v.fields, "model_identity", t.model);
      SaysIff(v.fields, "tokenizer_identity", t.tokenizer);
    }
    if v.Null? {
      NullIsNoText();
    }
  }

  lemma NullIsNoText()
    ensures RequiredText(Null).Err?
  {
  }

  // ----- shapes and modules ------------------------------------------------------------------------

  predicate PositiveFactors(f: Factors) {
    f.a.0 > 0 && f.a.1 > 0 && f.b.0 > 0 && f.b.1 > 0
  }

  lemma PairIff(v: Value, p: (int, int))
    ensures ParsePair(v) == Ok(p) <==> v == PairValue(p) && p.0 > 0 && p.1 > 0
  {
    if v.Array? && |v.items| == 2 {
      assert v.items == [v.items[0], v.items[1]];
    }
  }

  lemma FactorsIff(v: Value, f: Factors)
    ensures ParseFactors(v) == Ok(f) <==> v == FactorsValue(f) && PositiveFactors(f)
  {
    hide ParsePair, PairValue;
    assert "lora_a"[5] == 'a' && "lora_b"[5] == 'b';
    if v.Object? && v.fields.Keys == {"lora_a", "lora_b"} {
      PairIff(v.fields["lora_a"], f.a);
      PairIff(v.fields["lora_b"], f.b);
      assert v.fields == map["lora_a" := v.fields["lora_a"], "lora_b" := v.fields["lora_b"]];
    }
    if v == FactorsValue(f) {
      assert v.fields.Keys == {"lora_a", "lora_b"};
    }
  }

  /** The items are the names, possibly with white space around them. */
  predicate ListsNames(items: seq<Value>, names: seq<string>) {
    |items| == |names| && forall i :: 0 <= i < |names| ==> items[i].Text? && Strip(items[i].s) == names[i] != ""
  }

  lemma {:induction false} ModulesIff(items: seq<Value>, names: seq<string>)
    ensures ParseModules(items) == Ok(names) <==> ListsNames(items, names)
  {
    hide Strip;
    if items != [] {
      if names != [] {
        ModulesIff(items[1..], names[1..]);
        assert names == [names[0]] + names[1..];
        if ListsNames(items[1..], names[1..]) && items[0].Text? && Strip(items[0].s) == names[0] != "" {
          assert forall i :: 0 < i < |names| ==> items[i] == items[1..][i - 1] && names[i] == names[1..][i - 1];
        }
      }
    }
  }

  /** There is one entry for each module, and it holds the factors of that module. */
  predicate HoldsFactors(v: Value, names: seq<string>, shapes: map<string, Factors>) {
    && v.Object? && v.fields.Keys == shapes.Keys == (set n | n in names)
    && forall n :: n in shapes ==> v.fields[n] == FactorsValue(shapes[n]) && PositiveFactors(shapes[n])
  }

  // ----- lineages ----------------------------------------------------------------------------------

  const LINEAGE_KEYS: set<string> := {"schema_version", "target_base", "rank", "target_modules", "tensor_shapes"}

  /** `v` describes the lineage `l`. */
  predicate Describes(v: Value, l: Lineage) {
    && v.Object? && v.fields.Keys == LINEAGE_KEYS
    && v.fields["schema_version"] == LINEAGE_VERSION
    && DescribesTarget(v.fields["target_base"], l.target)
    && v.fields["rank"] == Int(l.rank) && l.rank > 0
    && v.fields["target_modules"].Array? && ListsNames(v.fields["target_modules"].items, l.modules)
    && l.modules != [] && NoDuplicates(l.modules)
    && HoldsFactors(v.fields["tensor_shapes"], l.modules, l.shapes)
  }

  lemma ShapesIff(v: Value, names: seq<string>, shapes: map<string, Factors>)
    requires v.Object? && v.fields.Keys == (set n | n in names)
    ensures
      && !(exists n :: n in names && n in v.fields && ParseFactors(v.fields[n]).Err?)
      && shapes == (map n | n in names && n in v.fields && ParseFactors(v.fields[n]).Ok?
                      :: ParseFactors(v.fields[n]).value)
      <==> HoldsFactors(v, names, shapes)
  {
    hide ParseFactors, FactorsValue, PositiveFactors;
    forall n | n in names
      ensures n in v.fields
      ensures ParseFactors(v.fields[n]).Ok? ==>
        var f := ParseFactors(v.fields[n]).value; v.fields[n] == FactorsValue(f) && PositiveFactors(f)
      ensures n in shapes ==>
        (ParseFactors(v.fields[n]) == Ok(shapes[n])
         <==> v.fields[n] == FactorsValue(shapes[n]) && PositiveFactors(shapes[n]))
    {
      if ParseFactors(v.fields[n]).Ok? {
        FactorsIff(v.fields[n], ParseFactors(v.fields[n]).value);
      }
      if n in shapes {
        FactorsIff(v.fields[n], shapes[n]);
      }
    }
  }

  lemma NoTarget()
    ensures ParseTarget(Null).Err?
  {
    hide ParseIdentity, ParseLocator, RequiredText, LowerText, TARGET_KEYS;
    NullIsNoText();
  }

  /** No field may be missing. */
  lemma LineageHasAllFields(v: Value)
    requires ParseLineage(v).Ok?
    ensures v.Object? && v.fields.Keys == LINEAGE_KEYS
  {
    hide ParseTarget, ParseModules, ParseFactors, NoDuplicates;
    NoTarget();
    var fields := if v.Object? then v.fields else map[];
    assert "schema_version" in fields && "target_modules" in fields && "tensor_shapes" in fields;
    assert "rank" in fields && "target_base" in fields;
  }

  /** Reading `v` gives this lineage if and only if `v` describes it. */
  lemma LineageIff(v: Value, l: Lineage)
    ensures ParseLineage(v) == Ok(l) <==> Describes(v, l)
  {
    hide ParseTarget, ParseModules, ParseFactors, DescribesTarget, HoldsFactors, ListsNames, NoDuplicates;
    if ParseLineage(v).Ok? {
      LineageHasAllFields(v);
    }
    if v.Object? && v.fields.Keys == LINEAGE_KEYS {
      assert "schema_version" in v.fields && "target_base" in v.fields && "rank" in v.fields;
      assert "target_modules" in v.fields && "tensor_shapes" in v.fields;
      TargetIff(v.fields["target_base"], l.target);
      if v.fields["target_modules"].Array? {
        ModulesIff(v.fields["target_modules"].items, l.modules);
      }
      if HoldsFactors(v.fields["tensor_shapes"], l.modules, l.shapes) {
        HeldFactorsAreObject(v.fields["tensor_shapes"], l.modules, l.shapes);
      }
      if v.fields["tensor_shapes"].Object? && v.fields["tensor_shapes"].fields.Keys == (set n | n in l.modules) {
        ShapesIff(v.fields["tensor_shapes"], l.modules, l.shapes);
      }
    }
  }

  lemma HeldFactorsAreObject(v: Value, names: seq<string>, shapes: map<string, Factors>)
    requires HoldsFactors(v, names, shapes)
    ensures v.Object? && v.fields.Keys == (set n | n in names)
  {
  }

  // ----- a written lineage ---------------------------------------------------------------------------

  lemma WrittenText(fields: Fields, other: Fields, key: string, text: string)
    requires other.Keys >= {key} && other[key] == Text(text)
    ensures Says(fields, key, text) ==> Says(other, key, text)
    ensures SaysLower(fields, key, text) ==> SaysLower(other, key, text)
  {
  }

  lemma TargetFields(t: TargetBase)
    ensures var f := TargetValue(t).fields;
      && TargetValue(t).Object? && f.Keys == TARGET_KEYS - {"locator"}
      && f["artifact_id"] == Text(t.artifactId) && f["content_identity"] == IdentityValue(t.identity)
      && f["revision"] == Text(t.revision) && f["format"] == Text(t.format)
      && f["quantization"] == Text(t.quantization) && f["model_identity"] == Text(t.model)
      && f["tokenizer_identity"] == Text(t.tokenizer)
  {
    hide IdentityValue;
    var f := TargetValue(t).fields;
    assert |"artifact_id"| == 11 && |"content_identity"| == 16 && |"revision"| == 8 && |"format"| == 6;
    assert |"quantization"| == 12 && |"model_identity"| == 14 && |"tokenizer_identity"| == 18 && |"locator"| == 7;
  }

  /** A target that was read is described by its written form if and only if its identity is stable. */
  lemma WrittenTarget(v: Value, t: TargetBase)
    requires DescribesTarget(v, t)
    ensures DescribesTarget(TargetValue(t), t) <==> ParseIdentity(IdentityValue(t.identity)) == Ok(t.identity)
  {
    hide ParseIdentity, IdentityValue, ParseLocator, Says, SaysLower, TargetValue;
    TargetFields(t);
    var f := TargetValue(t).fields;
    assert "locator" !in f && f.Keys <= TARGET_KEYS && "content_identity" in f;
    WrittenText(v.fields, f, "artifact_id", t.artifactId);
    WrittenText(v.fields, f, "revision", t.revision);
    WrittenText(v.fields, f, "format", t.format);
    WrittenText(v.fields, f, "quantization", t.quantization);
    WrittenText(v.fields, f, "model_identity", t.model);
    WrittenText(v.fields, f, "tokenizer_identity", t.tokenizer);
  }

  lemma WrittenModules(items: seq<Value>, names: seq<string>)
    requires ListsNames(items, names)
    ensures ListsNames(Texts(names), names)
  {
  }

  lemma WrittenFactors(v: Value, names: seq<string>, shapes: map<string, Factors>)
    requires HoldsFactors(v, names, shapes)
    ensures HoldsFactors(Object(AllFactors(shapes)), names, shapes)
  {
    hide FactorsValue, PositiveFactors;
    assert AllFactors(shapes).Keys == shapes.Keys;
  }

  lemma LineageFields(l: Lineage)
    ensures var f := LineageValue(l).fields;
      && LineageValue(l).Object? && f.Keys == LINEAGE_KEYS
      && f["schema_version"] == LINEAGE_VERSION && f["target_base"] == TargetValue(l.target)
      && f["rank"] == Int(l.rank) && f["target_modules"] == Array(Texts(l.modules))
      && f["tensor_shapes"] == Object(AllFactors(l.shapes))
  {
    hide TargetValue, Texts, AllFactors, LINEAGE_VERSION;
    assert |"schema_version"| == 14 && |"target_base"| == 11 && |"rank"| == 4 && |"target_modules"| == 14;
    assert |"tensor_shapes"| == 13 && "schema_version"[0] == 's' && "target_modules"[0] == 't';
  }

  /** Reading a written lineage gives it back, if and only if the identity of its target is stable. */
  lemma LineageAgainIff(v: Value)
    requires ParseLineage(v).Ok?
    ensures var (l, c) := (ParseLineage(v).value, ParseLineage(v).value.target.identity);
      ParseLineage(LineageValue(l)) == Ok(l) <==> ParseIdentity(IdentityValue(c)) == Ok(c)
  {
    hide ParseLineage, ParseIdentity, LineageValue, TargetValue, IdentityValue, DescribesTarget, HoldsFactors,
      ListsNames, NoDuplicates, AllFactors, Texts;
    var l := ParseLineage(v).value;
    LineageIff(v, l);
    LineageIff(LineageValue(l), l);
    LineageFields(l);
    assert "schema_version" in v.fields && "target_base" in v.fields && "rank" in v.fields;
    assert "target_modules" in v.fields && "tensor_shapes" in v.fields;
    WrittenTarget(v.fields["target_base"], l.target);
    WrittenModules(v.fields["target_modules"].items, l.modules);
    WrittenFactors(v.fields["tensor_shapes"], l.modules, l.shapes);
  }
}

/** Requested, resolved and effective settings, and the records that must explain every difference between them. */
module SettingsEvidence {
  import opened Wrappers

  datatype Json =
    | Null | Bool(b: bool) | Number(n: int) | Decimal(r: real) | Text(s: string)
    | List(items: seq<Json>) | Object(fields: seq<Field>)

  /** A dictionary entry; dictionaries keep their order. */
  datatype Field = Field(key: string, value: Json)

  type Leaves = map<string, Json>

  predicate IsVersionKey(key: string) {
    key == "contract_version" || key == "schema_version"
  }

  function PathOf(prefix: string, key: string): string {
    if prefix == "" then key else prefix + "." + key
  }

  /** `_leaf_values`. */
  function LeafValues(v: Json, prefix: string): Leaves
    decreases v
  {
    match v
    case Object(fields) => FieldLeaves(fields, prefix)
    case _ => map[prefix := v]
  }

  function FieldLeaves(fields: seq<Field>, prefix: string): Leaves
    decreases fields
  {
    if fields == [] then map[]
    else Below(fields[0], prefix) + FieldLeaves(fields[1..], prefix)
  }

  function Below(f: Field, prefix: string): Leaves
    decreases f
  {
    if IsVersionKey(f.key) then map[] else LeafValues(f.value, PathOf(prefix, f.key))
  }

  lemma LeavesStep(before: Leaves, fields: seq<Field>, i: nat, prefix: string)
    requires i < |fields|
    ensures before + FieldLeaves(fields[i..], prefix)
         == before + Below(fields[i], prefix) + FieldLeaves(fields[i + 1..], prefix)
  {
    hide Below;
    assert fields[i..][0] == fields[i] && fields[i..][1..] == fields[i + 1..];
  }

  /** The loop of `_leaf_values`, which updates one dictionary with the leaves of each child. */
  method CollectLeaves(v: Json, prefix: string) returns (result: Leaves)
    ensures result == LeafValues(v, prefix)
    decreases v
  {
    if !v.Object? {
      return map[prefix := v];
    }
    result := map[];
    for i := 0 to |v.fields|
      invariant result + FieldLeaves(v.fields[i..], prefix) == FieldLeaves(v.fields, prefix)
    {
      var f := v.fields[i];
      LeavesStep(result, v.fields, i, prefix);
      if !IsVersionKey(f.key) {
        var below := CollectLeaves(f.value, PathOf(prefix, f.key));
        result := result + below;
      }
    }
  }

  const CONTRACT_VERSION: string := "contract_version"
  const SCHEMA_VERSION: string := "schema_version"

  function VersionFields(schema: string): seq<Field> {
    [Field(CONTRACT_VERSION, Text("runtime-foundation.contract.v3")), Field(SCHEMA_VERSION, Text(schema))]
  }

  function Or<T>(value: Option<T>, default: T): T {
    if value.Some? then value.value else default
  }

  function NumberOrNull(value: Option<int>): Json {
    if value.Some? then Number(value.value) else Null
  }

  function TextOrNull(value: Option<string>): Json {
    if value.Some? then Text(value.value) else Null
  }

  /** `values.get(path)`: a missing leaf reads like an explicit null. */
  function Get(leaves: Leaves, path: string): Json {
    if path in leaves then leaves[path] else Null
  }

  datatype Record = Record(path: string, requested: Json, resolved: Json, effective: Json)

  /** `{item.path: item for item in resolutions}`: the last record of a path counts. */
  function Book(records: seq<Record>): map<string, Record> {
    if records == [] then map[]
    else Book(records[..|records| - 1])[records[|records| - 1].path := records[|records| - 1]]
  }

  /** One record for every path whose value changed. */
  function Differences(paths: seq<string>, from: seq<Json>, to: seq<Json>): seq<Record>
    requires |paths| == |from| == |to|
  {
    if paths == [] then []
    else
      var n := |paths| - 1;
      Differences(paths[..n], from[..n], to[..n])
      + (if from[n] != to[n] then [Record(paths[n], from[n], to[n], to[n])] else [])
  }

  datatype Evidence = Evidence(requested: Json, resolved: Json, effective: Json, records: seq<Record>)
  {
    function Requested(): Leaves { LeafValues(requested, "") }
    function Resolved(): Leaves { LeafValues(resolved, "") }
    function Effective(): Leaves { LeafValues(effective, "") }

    predicate Changed(path: string) {
      Get(Requested(), path) != Get(Resolved(), path) || Get(Resolved(), path) != Get(Effective(), path)
    }

    predicate AreObjects() {
      requested.Object? && resolved.Object? && effective.Object?
    }

    /** The record states the three values that the settings have at its path. */
    predicate Matches(r: Record) {
      && r.requested == Get(Requested(), r.path)
      && r.resolved == Get(Resolved(), r.path)
      && r.effective == Get(Effective(), r.path)
    }
  }

  datatype EvidenceError = NotAnObject | UnexplainedChange | WrongRecord

  /** The checks of `SettingsEvidenceV3.__post_init__`. */
  function Check(e: Evidence): Result<(), EvidenceError> {
    var book := Book(e.records);
    var changed := set p | p in e.Requested().Keys + e.Resolved().Keys + e.Effective().Keys && e.Changed(p);
    if !e.AreObjects() then Err(NotAnObject)
    else if !(changed <= book.Keys) then Err(UnexplainedChange)
    else if exists p :: p in changed && p in book && !e.Matches(book[p]) then Err(WrongRecord)
    else Ok(())
  }

  lemma {:induction false} BookKeepsPaths(records: seq<Record>, path: string)
    requires path in Book(records)
    ensures Book(records)[path].path == path && Book(records)[path] in records
  {
    if records[|records| - 1].path != path {
      BookKeepsPaths(records[..|records| - 1], path);
    }
  }

  /** Objects are accepted exactly when every path has one value throughout or a record that states all three. */
  lemma AcceptedIffExplained(e: Evidence)
    ensures Check(e).Ok? <==>
      e.AreObjects() && forall p :: e.Changed(p) ==> p in Book(e.records) && e.Matches(Book(e.records)[p])
  {
    forall p | e.Changed(p)
      ensures p in e.Requested().Keys + e.Resolved().Keys + e.Effective().Keys
    {
    }
  }

  /** Who holds the request and the records of accepted evidence can work out every effective setting. */
  lemma EffectiveFollowsFromRecords(e: Evidence, path: string)
    requires Check(e).Ok?
    ensures Get(e.Effective(), path) ==
      if e.Changed(path) then Book(e.records)[path].effective else Get(e.Requested(), path)
  {
    AcceptedIffExplained(e);
    if e.Changed(path) {
      BookKeepsPaths(e.records, path);
    }
  }

  /** A record about a path that kept its value; the constructor never looks at it. */
  ghost predicate HasIdleRecord(e: Evidence) {
    exists p :: p in Book(e.records) && !e.Changed(p)
  }

  /** If the writer promises that there are none, request and records together determine the effective settings. */
  lemma HonestRecordsDetermineEffective(e: Evidence, f: Evidence, path: string)
    requires Check(e).Ok? && Check(f).Ok? && e.requested == f.requested && e.records == f.records
    requires !HasIdleRecord(e) && !HasIdleRecord(f)
    ensures Get(e.Effective(), path) == Get(f.Effective(), path)
  {
    AcceptedIffExplained(e);
    AcceptedIffExplained(f);
    EffectiveFollowsFromRecords(e, path);
    EffectiveFollowsFromRecords(f, path);
  }

  /** Without the promise they need not: a record of a change that did not happen is accepted. */
  lemma IdleRecordsAreNotChecked() returns (e: Evidence, f: Evidence, path: string)
    ensures Check(e).Ok? && Check(f).Ok? && e.requested == f.requested && e.records == f.records
    ensures Get(e.Effective(), path) != Get(f.Effective(), path)
  {
    path := "seed";
    var one, two := Object([Field(path, Number(1))]), Object([Field(path, Number(2))]);
    var records := [Record(path, Number(1), Number(2), Number(2))];
    e, f := Evidence(one, two, two, records), Evidence(one, one, one, records);
    OneLeaf(path, Number(1));
    OneLeaf(path, Number(2));
    assert Book(records) == map[path := records[0]];
    AcceptedIffExplained(e);
    AcceptedIffExplained(f);
  }

  lemma OneLeaf(path: string, v: Json)
    requires !IsVersionKey(path) && !v.Object?
    ensures LeafValues(Object([Field(path, v)]), "") == map[path := v]
  {
    var f := Field(path, v);
    assert LeafValues(v, path) == map[path := v];
    assert Below(f, "") == map[path := v];
    assert [f][1..] == [];
    assert FieldLeaves([f], "") == Below(f, "") + FieldLeaves([], "") == map[path := v];
  }
}

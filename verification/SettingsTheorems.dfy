/** Leaves of flat dictionaries, and lists of differences as explanations. */
module SettingsTheorems {
  import opened SettingsEvidence

  ghost predicate Distinct(paths: seq<string>) {
    forall i, j :: 0 <= i < j < |paths| ==> paths[i] != paths[j]
  }

  ghost predicate Pairs(leaves: Leaves, paths: seq<string>, values: seq<Json>)
    requires |paths| == |values|
  {
    && (forall p :: p in leaves <==> p in paths)
    && forall i :: 0 <= i < |paths| ==> leaves[paths[i]] == values[i]
  }

  lemma OnePair(p: string, v: Json)
    ensures Pairs(map[p := v], [p], [v])
  {
  }

  lemma PairsMerge(a: Leaves, p: seq<string>, v: seq<Json>, b: Leaves, q: seq<string>, w: seq<Json>)
    requires |p| == |v| && |q| == |w| && Pairs(a, p, v) && Pairs(b, q, w) && Distinct(p + q)
    ensures Pairs(a + b, p + q, v + w)
  {
    forall i | 0 <= i < |p + q| ensures (a + b)[(p + q)[i]] == (v + w)[i] {
      if i < |p| {
        assert (p + q)[i] == p[i];
        assert forall j :: 0 <= j < |q| ==> q[j] == (p + q)[|p| + j];
        assert p[i] !in q;
      }
    }
  }

  lemma LeavesCons(f: Field, rest: seq<Field>, prefix: string)
    ensures FieldLeaves([f] + rest, prefix) == Below(f, prefix) + FieldLeaves(rest, prefix)
  {
    hide Below;
    assert ([f] + rest)[1..] == rest;
  }

  lemma {:induction false} LeavesConcat(a: seq<Field>, b: seq<Field>, prefix: string)
    ensures FieldLeaves(a + b, prefix) == FieldLeaves(a, prefix) + FieldLeaves(b, prefix)
  {
    hide Below, FieldLeaves;
    if a == [] {
      assert a + b == b;
      NoLeaves(prefix);
    } else {
      LeavesConcat(a[1..], b, prefix);
      assert a + b == [a[0]] + (a[1..] + b) && [a[0]] + a[1..] == a;
      LeavesCons(a[0], a[1..] + b, prefix);
      LeavesCons(a[0], a[1..], prefix);
    }
  }

  predicate IsScalar(f: Field) {
    !IsVersionKey(f.key) && !f.value.Object?
  }

  lemma ScalarLeaf(f: Field, prefix: string)
    requires IsScalar(f)
    ensures FieldLeaves([f], prefix) == map[PathOf(prefix, f.key) := f.value]
  {
    hide PathOf;
    assert [f] == [f] + [];
    LeavesCons(f, [], prefix);
    assert Below(f, prefix) == map[PathOf(prefix, f.key) := f.value];
    NoLeaves(prefix);
  }

  lemma NoLeaves(prefix: string)
    ensures FieldLeaves([], prefix) == map[]
  {
  }

  function PathsOf(fs: seq<Field>, prefix: string): seq<string> {
    seq(|fs|, i requires 0 <= i < |fs| => PathOf(prefix, fs[i].key))
  }

  function ValuesOf(fs: seq<Field>): seq<Json> {
    seq(|fs|, i requires 0 <= i < |fs| => fs[i].value)
  }

  /** Scalars with distinct paths become one leaf each. */
  lemma {:induction false} ScalarLeaves(fs: seq<Field>, prefix: string)
    requires (forall f :: f in fs ==> IsScalar(f)) && Distinct(PathsOf(fs, prefix))
    ensures Pairs(FieldLeaves(fs, prefix), PathsOf(fs, prefix), ValuesOf(fs))
  {
    hide IsScalar, PathOf;
    if fs == [] {
      NoLeaves(prefix);
    } else {
      hide FieldLeaves;
      var path, rest := PathOf(prefix, fs[0].key), fs[1..];
      assert PathsOf(fs, prefix) == [path] + PathsOf(rest, prefix);
      assert ValuesOf(fs) == [fs[0].value] + ValuesOf(rest);
      assert forall i :: 0 <= i < |rest| ==> PathsOf(rest, prefix)[i] == PathsOf(fs, prefix)[i + 1];
      ScalarLeaves(rest, prefix);
      ScalarLeaf(fs[0], prefix);
      OnePair(path, fs[0].value);
      assert fs == [fs[0]] + rest;
      LeavesConcat([fs[0]], rest, prefix);
      PairsMerge(FieldLeaves([fs[0]], prefix), [path], [fs[0].value],
                 FieldLeaves(rest, prefix), PathsOf(rest, prefix), ValuesOf(rest));
    }
  }

  lemma VersionLeaves(schema: string)
    ensures FieldLeaves(VersionFields(schema), "") == map[]
  {
    var fs := VersionFields(schema);
    hide FieldLeaves;
    assert fs == [fs[0]] + [fs[1]] && [fs[1]] == [fs[1]] + [];
    LeavesCons(fs[0], [fs[1]], "");
    LeavesCons(fs[1], [], "");
    assert Below(fs[0], "") == map[] && Below(fs[1], "") == map[];
    NoLeaves("");
  }

  // ----- records -------------------------------------------------------------------------------------

  lemma BookSnoc(records: seq<Record>, r: Record)
    ensures Book(records + [r]) == Book(records)[r.path := r]
  {
    assert (records + [r])[..|records|] == records;
  }

  lemma {:induction false} BookConcat(a: seq<Record>, b: seq<Record>)
    ensures Book(a + b) == Book(a) + Book(b)
  {
    if b == [] {
      assert a + b == a;
    } else {
      var n := |b| - 1;
      BookConcat(a, b[..n]);
      assert a + b == a + b[..n] + [b[n]] && b == b[..n] + [b[n]];
      BookSnoc(a + b[..n], b[n]);
      BookSnoc(b[..n], b[n]);
    }
  }

  /** The last path adds its record, if its value differs. */
  lemma BookOfDifferences(paths: seq<string>, from: seq<Json>, to: seq<Json>, before: seq<Record>)
    requires |paths| == |from| == |to| && paths != []
    requires var n := |paths| - 1; before == Differences(paths[..n], from[..n], to[..n])
    ensures var n := |paths| - 1;
      Book(Differences(paths, from, to)) ==
      (if from[n] != to[n] then Book(before)[paths[n] := Record(paths[n], from[n], to[n], to[n])] else Book(before))
  {
    hide Book;
    var n := |paths| - 1;
    if from[n] != to[n] {
      BookSnoc(before, Record(paths[n], from[n], to[n], to[n]));
    } else {
      assert Differences(paths, from, to) == before + [] == before;
    }
  }

  /** A path is recorded exactly when its value differs, with both values. */
  lemma {:induction false} DifferencesAreExact(paths: seq<string>, from: seq<Json>, to: seq<Json>, i: nat)
    requires |paths| == |from| == |to| && Distinct(paths) && i < |paths|
    ensures paths[i] in Book(Differences(paths, from, to)) <==> from[i] != to[i]
    ensures from[i] != to[i] ==>
      Book(Differences(paths, from, to))[paths[i]] == Record(paths[i], from[i], to[i], to[i])
  {
    hide Differences, Book;
    var n := |paths| - 1;
    BookOfDifferences(paths, from, to, Differences(paths[..n], from[..n], to[..n]));
    if i < n {
      DifferencesAreExact(paths[..n], from[..n], to[..n], i);
    } else {
      OnlyListedPaths(paths[..n], from[..n], to[..n], paths[n]);
    }
  }

  lemma {:induction false} OnlyListedPaths(paths: seq<string>, from: seq<Json>, to: seq<Json>, p: string)
    requires |paths| == |from| == |to| && p !in paths
    ensures p !in Book(Differences(paths, from, to))
  {
    if paths != [] {
      hide Differences, Book;
      var n := |paths| - 1;
      BookOfDifferences(paths, from, to, Differences(paths[..n], from[..n], to[..n]));
      OnlyListedPaths(paths[..n], from[..n], to[..n], p);
    }
  }

  lemma {:induction false} DifferencesOfEqual(paths: seq<string>, values: seq<Json>)
    requires |paths| == |values|
    ensures Differences(paths, values, values) == []
  {
    if paths != [] {
      DifferencesOfEqual(paths[..|paths| - 1], values[..|paths| - 1]);
    }
  }


  lemma EmptyBook()
    ensures Book([]) == map[]
  {
  }

  // ----- what request and records say without the effective settings ---------------------------------

  lemma DottedPathIsNoVersionKey(prefix: string, key: string)
    ensures !IsVersionKey(prefix + "." + key)
  {
    var path, i := prefix + "." + key, |prefix|;
    assert path[i] == '.';
    NoDots();
    hide IsVersionKey;
    assert path == CONTRACT_VERSION || path == SCHEMA_VERSION <==> IsVersionKey(path) by { VersionKeysAre(path); }
  }

  lemma VersionKeysAre(path: string)
    ensures IsVersionKey(path) <==> path == CONTRACT_VERSION || path == SCHEMA_VERSION
  {
  }

  lemma NoDots()
    ensures '.' !in CONTRACT_VERSION && '.' !in SCHEMA_VERSION
  {
  }

  /** Leaves are no objects, and the version keys are never among their paths. */
  lemma {:induction false} LeavesArePlain(v: Json, prefix: string, path: string)
    requires !IsVersionKey(prefix)
    ensures path in LeafValues(v, prefix) ==> !IsVersionKey(path) && !LeafValues(v, prefix)[path].Object?
    decreases v
  {
    hide IsVersionKey;
    if v.Object? {
      FieldLeavesArePlain(v.fields, prefix, path);
    }
  }

  lemma {:induction false} FieldLeavesArePlain(fields: seq<Field>, prefix: string, path: string)
    requires !IsVersionKey(prefix)
    ensures path in FieldLeaves(fields, prefix) ==> !IsVersionKey(path) && !FieldLeaves(fields, prefix)[path].Object?
    decreases fields
  {
    hide IsVersionKey;
    if fields == [] {
      NoLeaves(prefix);
    } else {
      var f := fields[0];
      LeavesCons(f, fields[1..], prefix);
      assert [f] + fields[1..] == fields;
      FieldLeavesArePlain(fields[1..], prefix, path);
      if !IsVersionKey(f.key) {
        DottedPathIsNoVersionKey(prefix, f.key);
        LeavesArePlain(f.value, PathOf(prefix, f.key), path);
        assert Below(f, prefix) == LeafValues(f.value, PathOf(prefix, f.key));
      } else {
        assert Below(f, prefix) == map[];
      }
    }
  }

  lemma RootIsNoVersionKey()
    ensures !IsVersionKey("")
  {
  }

  lemma OneMoreLeaf(p: string, v: Json, fields: seq<Field>)
    requires !IsVersionKey(p) && !v.Object?
    ensures LeafValues(Object([Field(p, v)] + fields), "") == map[p := v] + LeafValues(Object(fields), "")
  {
    ScalarLeaf(Field(p, v), "");
    LeavesConcat([Field(p, v)], fields, "");
    hide FieldLeaves, IsVersionKey;
  }

  /** Any plain leaves are those of a flat document. */
  lemma {:induction false} FlatDocument(leaves: Leaves) returns (fields: seq<Field>)
    requires forall p :: p in leaves ==> !IsVersionKey(p) && !leaves[p].Object?
    ensures LeafValues(Object(fields), "") == leaves
    decreases leaves.Keys
  {
    if leaves == map[] {
      fields := [];
      NoLeaves("");
    } else {
      hide IsVersionKey, LeafValues;
      assert leaves.Keys != {};
      var p :| p in leaves;
      fields := FlatDocument(leaves - {p});
      OneMoreLeaf(p, leaves[p], fields);
      fields := [Field(p, leaves[p])] + fields;
      assert map[p := leaves[p]] + (leaves - {p}) == leaves;
    }
  }

  /**
   The record of the path begins with the requested value, leads to another effective value, and both of its
   results could be leaves. All of that is visible in the request and the records.
  */
  predicate MayHaveChanged(requested: Json, records: seq<Record>, path: string) {
    && !IsVersionKey(path) && path in Book(records)
    && var r := Book(records)[path];
       && r.requested == Get(LeafValues(requested, ""), path) && r.effective != r.requested
       && !r.resolved.Object? && !r.effective.Object?
  }

  lemma LeafIsPlain(v: Json, path: string)
    ensures !Get(LeafValues(v, ""), path).Object?
    ensures IsVersionKey(path) ==> Get(LeafValues(v, ""), path) == Null
  {
    RootIsNoVersionKey();
    LeavesArePlain(v, "", path);
  }

  /** Where that is not so, the effective value is the requested one. */
  lemma UnchangeableIsRequested(e: Evidence, path: string)
    requires Check(e).Ok? && !MayHaveChanged(e.requested, e.records, path)
    ensures Get(e.Effective(), path) == Get(e.Requested(), path)
  {
    AcceptedIffExplained(e);
    LeafIsPlain(e.requested, path);
    LeafIsPlain(e.resolved, path);
    LeafIsPlain(e.effective, path);
    hide Check, LeafValues, Book, IsVersionKey;
    if e.Changed(path) {
      BookKeepsPaths(e.records, path);
    }
  }

  /** Where it is so, the setting may have changed or not. */
  lemma ChangeableIsOpen(requested: Json, records: seq<Record>, path: string) returns (e: Evidence, f: Evidence)
    requires requested.Object? && MayHaveChanged(requested, records, path)
    ensures Check(e).Ok? && e.requested == requested && e.records == records
    ensures Check(f).Ok? && f.requested == requested && f.records == records
    ensures Get(e.Effective(), path) != Get(f.Effective(), path)
  {
    var leaves, r := LeafValues(requested, ""), Book(records)[path];
    RootIsNoVersionKey();
    forall p | p in leaves ensures !IsVersionKey(p) && !leaves[p].Object? {
      LeavesArePlain(requested, "", p);
    }
    var resolved := FlatDocument(leaves[path := r.resolved]);
    var effective := FlatDocument(leaves[path := r.effective]);
    e := Evidence(requested, requested, requested, records);
    f := Evidence(requested, Object(resolved), Object(effective), records);
    BookKeepsPaths(records, path);
    AcceptedIffExplained(e);
    AcceptedIffExplained(f);
    hide Check, LeafValues, Book, IsVersionKey;
    assert forall p :: !e.Changed(p);
    assert forall p :: f.Changed(p) ==> p == path;
  }

  ghost predicate Accepts(e: Evidence, requested: Json, records: seq<Record>) {
    Check(e).Ok? && e.requested == requested && e.records == records
  }

  /** Exactly when request and records determine the effective value of a path. */
  lemma RecordsDetermineEffectiveIff(requested: Json, records: seq<Record>, path: string)
    requires requested.Object?
    ensures (forall e, f :: Accepts(e, requested, records) && Accepts(f, requested, records) ==>
              Get(e.Effective(), path) == Get(f.Effective(), path))
       <==> !MayHaveChanged(requested, records, path)
  {
    hide Check, LeafValues, Book, MayHaveChanged;
    if MayHaveChanged(requested, records, path) {
      var e, f := ChangeableIsOpen(requested, records, path);
      assert Accepts(e, requested, records) && Accepts(f, requested, records);
    } else {
      forall e, f | Accepts(e, requested, records) && Accepts(f, requested, records)
        ensures Get(e.Effective(), path) == Get(f.Effective(), path)
      {
        UnchangeableIsRequested(e, path);
        UnchangeableIsRequested(f, path);
      }
    }
  }
}

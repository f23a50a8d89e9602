/**
 Loads of execution inputs while other calls, and writers of the files, run in between. A load takes its
 signatures and verifies contents outside the lock, source by source, and skips a source whose signature
 equals the one kept by the instance that was loaded when it began; the locked half must make up for that.

 A stat signature is modelled by the version of the file: no version number is ever used again.
*/
module LoadedContent {
  import opened Wrappers
  import opened RuntimeState

  /** A base model or adapter: where it is, and the complete content identity that it must have. */
  datatype Source = Source(path: string, expected: string)

  /** The fingerprint covers the identities, not the paths. */
  datatype Input = Input(fingerprint: string, sources: seq<Source>)

  /** A successful content verification: call `call` found source `index` as expected at `version`. */
  datatype Event = Event(call: nat, index: nat, source: Source, version: nat)

  /** What was loaded, and by which call (history; the fields it stands for are in Holding). */
  datatype Record = Record(installer: nat, input: Input, signatures: map<string, nat>)

  /** A call of `load` between its first locked region and `_load_validated`. */
  datatype Pending = Pending(
    input: Input,
    seen: Option<Record>,
    next: nat,
    signed: bool,
    signatures: map<string, nat>,
    unverified: seq<nat>,
    verified: set<nat>)

  datatype World = World(
    core: State,
    disk: map<string, nat>,
    content: seq<string>,
    calls: nat,
    pending: map<nat, Pending>,
    record: Option<Record>,
    log: seq<Event>)

  const INIT_WORLD: World := World(INIT, map[], [], 0, map[], None, [])

  /** The file is there with the content that the source must have. */
  predicate Matches(w: World, s: Source) {
    s.path in w.disk && w.disk[s.path] < |w.content| && w.content[w.disk[s.path]] == s.expected
  }

  // ----- the files -------------------------------------------------------------------------------

  function Write(w: World, path: string, identity: string): World {
    w.(disk := w.disk[path := |w.content|], content := w.content + [identity])
  }

  function Remove(w: World, path: string): World {
    w.(disk := w.disk - {path})
  }

  // ----- the unlocked half of a load ---------------------------------------------------------------

  /** The first locked region: remember the signatures of the same execution input, if it is loaded. */
  function Begin(w: World, input: Input): World {
    var seen := if w.record.Some? && w.record.value.input.fingerprint == input.fingerprint then w.record else None;
    w.(calls := w.calls + 1, pending := w.pending[w.calls := Pending(input, seen, 0, false, map[], [], {})])
  }

  function GiveUp(w: World, id: nat): World {
    w.(pending := w.pending - {id})
  }

  predicate Skips(p: Pending, path: string, signature: nat) {
    p.seen.Some? && path in p.seen.value.signatures && p.seen.value.signatures[path] == signature
  }

  /** `_content_stat_signature` of the next source, and the decision to skip its verification. */
  function Stat(w: World, id: nat): World {
    if id !in w.pending || w.pending[id].signed || w.pending[id].next >= |w.pending[id].input.sources| then w
    else
      var p := w.pending[id];
      var path := p.input.sources[p.next].path;
      if path !in w.disk then GiveUp(w, id)
      else
        var signatures := p.signatures[path := w.disk[path]];
        var q :=
          if Skips(p, path, w.disk[path]) then
            p.(signatures := signatures, unverified := p.unverified + [p.next], next := p.next + 1)
          else p.(signatures := signatures, signed := true);
        w.(pending := w.pending[id := q])
  }

  /** `_verify_complete_content` of the source whose signature was just taken. */
  function Verify(w: World, id: nat): World {
    if id !in w.pending || !w.pending[id].signed || w.pending[id].next >= |w.pending[id].input.sources| then w
    else
      var p := w.pending[id];
      var s := p.input.sources[p.next];
      if !Matches(w, s) then GiveUp(w, id)
      else
        w.(pending := w.pending[id := p.(signed := false, next := p.next + 1, verified := p.verified + {p.next})],
           log := w.log + [Event(id, p.next, s, w.disk[s.path])])
  }

  // ----- the locked half ---------------------------------------------------------------------------

  predicate OwedMatches(w: World, p: Pending) {
    forall k :: 0 <= k < |p.unverified| ==>
      p.unverified[k] < |p.input.sources| && Matches(w, p.input.sources[p.unverified[k]])
  }

  function OwedEvents(w: World, id: nat, p: Pending, n: nat): (r: seq<Event>)
    requires OwedMatches(w, p) && n <= |p.unverified|
    ensures |r| == n
    ensures forall k :: 0 <= k < n ==>
      var (i, source) := (p.unverified[k], p.input.sources[p.unverified[k]]);
      r[k] == Event(id, i, source, w.disk[source.path])
  {
    if n == 0 then []
    else
      var s := p.input.sources[p.unverified[n - 1]];
      OwedEvents(w, id, p, n - 1) + [Event(id, p.unverified[n - 1], s, w.disk[s.path])]
  }

  /** What the locked half does not take from the pending call. */
  datatype LoadRest = LoadRest(
    owner: string, artifact: Artifact, adapter: string, identity: string,
    memoryOk: bool, engine: EngineLoad, newLease: string)

  function CallOf(w: World, p: Pending, rest: LoadRest): LoadCall {
    LoadCall(rest.owner, rest.artifact, Some(p.input.fingerprint), rest.adapter, rest.identity,
             p.signatures, OwedMatches(w, p), rest.memoryOk, rest.engine, rest.newLease)
  }

  /** The answer tells that the owed verifications were made, and succeeded. */
  predicate MadeUp(answer: LoadAnswer) {
    answer.HostMemoryInsufficient? || answer.LoadFailed? || answer.Installed?
  }

  function Finish(w: World, id: nat, rest: LoadRest): (World, Option<LoadAnswer>) {
    if id !in w.pending || w.pending[id].signed || w.pending[id].next != |w.pending[id].input.sources| then (w, None)
    else
      var p := w.pending[id];
      var (core, answer) := Load(w.core, CallOf(w, p, rest));
      var log := if MadeUp(answer) && OwedMatches(w, p) then w.log + OwedEvents(w, id, p, |p.unverified|) else w.log;
      var record := if answer.Installed? then Some(Record(id, p.input, p.signatures)) else w.record;
      (w.(core := core, pending := w.pending - {id}, record := record, log := log), Some(answer))
  }

  // ----- steps and runs ----------------------------------------------------------------------------

  datatype WorldStep =
    | WriteStep(path: string, identity: string)
    | RemoveStep(path: string)
    | BeginStep(input: Input)
    | GiveUpStep(id: nat)
    | StatStep(id: nat)
    | VerifyStep(id: nat)
    | FinishStep(id: nat, rest: LoadRest)
    | CoreStep(step: Step)

  /** Any step of the runtime other than the load of an execution input. */
  ghost function Core(w: World, a: Step): World {
    var core := Next(w.core, a);
    w.(core := core, record := if core.held.input.None? then None else w.record)
  }

  predicate Possible(w: World, a: WorldStep) {
    a.CoreStep? ==>
      && Allowed(w.core, a.step)
      && (a.step.LoadStep? ==> a.step.call.input.None? && a.step.call.signatures == map[])
  }

  ghost function WorldNext(w: World, a: WorldStep): World {
    match a
    case WriteStep(path, identity) => Write(w, path, identity)
    case RemoveStep(path) => Remove(w, path)
    case BeginStep(input) => Begin(w, input)
    case GiveUpStep(id) => GiveUp(w, id)
    case StatStep(id) => Stat(w, id)
    case VerifyStep(id) => Verify(w, id)
    case FinishStep(id, rest) => Finish(w, id, rest).0
    case CoreStep(step) => Core(w, step)
  }

  ghost predicate IsWorldRun(worlds: seq<World>, steps: seq<WorldStep>) {
    && |worlds| == |steps| + 1
    && worlds[0] == INIT_WORLD
    && forall i :: 0 <= i < |steps| ==> Possible(worlds[i], steps[i]) && worlds[i + 1] == WorldNext(worlds[i], steps[i])
  }
}

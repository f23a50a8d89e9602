/**
 The state that RuntimeCore keeps behind its lifecycle lock, and one function for each critical
 section of that lock. `Condition.wait` releases the lock, so the queue wait is split there: one step
 for the arrival (up to the first wait) and one step for every wake-up.

 The last three fields are history: the code has no use for them, the theorems do.
*/
module RuntimeState {
  import opened Wrappers

  datatype Lifecycle = Unloaded | Loading | Loaded | Generating | Unloading | Error

  /** The fields of `ModelArtifactBinding.execution_identity`; its metadata plays no part in any decision. */
  datatype Artifact = Artifact(
    artifactId: string, localPath: string, format: string,
    quantization: Option<string>, artifactHash: Option<string>, revision: Option<string>)

  datatype Priority = Interactive | Background

  /** The lower rank is admitted first. */
  function Rank(p: Priority): nat {
    if p.Interactive? then 0 else 1
  }

  /** What `_begin` reads of a request; `input` is the fingerprint of its execution input. */
  datatype Request = Request(
    id: string, artifactId: string, consumer: string, lease: Option<string>,
    input: Option<string>, priority: Priority)

  /** A `_QueuedRequest` together with the request its thread will retry. */
  datatype Waiter = Waiter(request: Request, sequence: nat, cancelled: bool, ticket: nat)

  datatype ActiveRequest = ActiveRequest(
    request: Request, adapter: string, cancelEvent: bool, timeoutEvent: bool, ticket: nat)

  datatype Admission = Admission(ticket: nat, priority: Priority)

  /** The `_loaded_*` fields and the lease of each consumer. */
  datatype Holding = Holding(
    artifact: Option<Artifact>,
    adapter: Option<string>,
    input: Option<string>,
    signatures: map<string, nat>,
    identity: Option<string>,
    leases: map<string, string>)
  {
    predicate IsLoaded() {
      artifact.Some? && adapter.Some?
    }
  }

  datatype State = State(
    lifecycle: Lifecycle,
    held: Holding,
    active: map<string, ActiveRequest>,
    queued: map<string, Waiter>,
    queueSequence: nat,
    // history: arrivals that passed the first authorization, admissions in order,
    // and the tickets that were cancelled while they waited
    arrivals: nat,
    admissions: seq<Admission>,
    cancelledTickets: set<nat>)

  const INIT: State :=
    State(Unloaded, Holding(None, None, None, map[], None, map[]), map[], map[], 0, 0, [], {})

  // ----- authorization -------------------------------------------------------------------------

  datatype Authorization = Authorized | NotLoaded | InputMismatch | OtherArtifact | NoLease

  function Authorize(held: Holding, r: Request): Authorization {
    if !held.IsLoaded() then NotLoaded
    else if held.input.Some? && r.input != held.input then InputMismatch
    else if held.input.None? && r.input.Some? then InputMismatch
    else if held.artifact.value.artifactId != r.artifactId then OtherArtifact
    else if r.consumer !in held.leases then NoLease
    else if r.lease.Some? && r.lease.value != held.leases[r.consumer] then NoLease
    else Authorized
  }

  // ----- the generation slot -------------------------------------------------------------------

  predicate Before(a: Waiter, b: Waiter) {
    || Rank(a.request.priority) < Rank(b.request.priority)
    || (a.request.priority == b.request.priority && a.sequence < b.sequence)
  }

  /** `id` is the minimum of the queue under (rank, sequence). */
  ghost predicate IsHead(queue: map<string, Waiter>, id: string) {
    id in queue && forall k :: k in queue && k != id ==> Before(queue[id], queue[k])
  }

  datatype Verdict =
    | Admitted
    | KeepsWaiting
    | CancelledInQueue
    | Refused(why: Authorization)
    | Duplicate
    | QueueTimeout

  /** One pass through the loop of `_wait_for_slot`; `expired` is the clock's answer at that moment. */
  ghost function Decide(s: State, id: string, expired: bool): Verdict
    requires id in s.queued
  {
    if s.queued[id].cancelled then CancelledInQueue
    else if Authorize(s.held, s.queued[id].request) != Authorized then Refused(Authorize(s.held, s.queued[id].request))
    else if s.active == map[] && IsHead(s.queued, id) then Admitted
    else if expired then QueueTimeout
    else KeepsWaiting
  }

  function Admit(s: State, r: Request, ticket: nat): State
    requires s.held.adapter.Some?
  {
    s.(lifecycle := Generating,
       active := s.active[r.id := ActiveRequest(r, s.held.adapter.value, false, false, ticket)],
       admissions := s.admissions + [Admission(ticket, r.priority)])
  }

  function Dequeue(s: State, id: string): State {
    s.(queued := s.queued - {id})
  }

  ghost function Wake(s: State, id: string, expired: bool): (State, Verdict) {
    if id !in s.queued then (s, KeepsWaiting)
    else
      var w := s.queued[id];
      var verdict := Decide(s, id, expired);
      if verdict == KeepsWaiting then (s, verdict)
      else if verdict == Admitted then (Admit(Dequeue(s, id), w.request, w.ticket), verdict)
      else (Dequeue(s, id), verdict)
  }

  function Enqueue(s: State, r: Request, ticket: nat): State {
    s.(queueSequence := s.queueSequence + 1,
       queued := s.queued[r.id := Waiter(r, s.queueSequence + 1, false, ticket)])
  }

  ghost function Arrive(s: State, r: Request, expired: bool): (State, Verdict) {
    if Authorize(s.held, r) != Authorized then (s, Refused(Authorize(s.held, r)))
    else if r.id in s.active || r.id in s.queued then (s, Duplicate)
    else
      var s1 := s.(arrivals := s.arrivals + 1);
      if s.active == map[] && s.queued == map[] then (Admit(s1, r, s.arrivals), Admitted)
      else Wake(Enqueue(s1, r, s.arrivals), r.id, expired)
  }

  /** What the locked section of `cancel` finds; an active request is known from then on by its ticket. */
  datatype Found = FoundActive(ticket: nat) | MarkedInQueue | FoundNothing

  function Cancel(s: State, id: string): (State, Found) {
    if id in s.active then (s, FoundActive(s.active[id].ticket))
    else if id in s.queued then
      (s.(queued := s.queued[id := s.queued[id].(cancelled := true)],
          cancelledTickets := s.cancelledTickets + {s.queued[id].ticket}), MarkedInQueue)
    else (s, FoundNothing)
  }

  /** `cancel` and `_request_timeout` set the events later, without the lock; the request may be gone by then. */
  function Signal(s: State, id: string, ticket: nat, timeout: bool): State {
    if id in s.active && s.active[id].ticket == ticket then
      var a := s.active[id];
      s.(active := s.active[id := a.(cancelEvent := true, timeoutEvent := a.timeoutEvent || timeout)])
    else s
  }

  function End(s: State, id: string): State {
    s.(active := s.active - {id},
       lifecycle := if s.lifecycle == Generating && s.held.artifact.Some? then Loaded else s.lifecycle)
  }

  // ----- load and unload -----------------------------------------------------------------------

  datatype EngineLoad = EngineLoaded(effectiveIdentity: string) | EngineLoadFailed

  /**
   What the locked half of `_load_validated` is given: the unlocked half's results (the selected
   adapter, the identity it asks for, the signatures it took, whether the checks it still owes succeed)
   and the answers of the memory guard and of the engine.
  */
  datatype LoadCall = LoadCall(
    owner: string, artifact: Artifact, input: Option<string>, adapter: string, identity: string,
    signatures: map<string, nat>, owedContentMatches: bool, memoryOk: bool,
    engine: EngineLoad, newLease: string)

  datatype LoadAnswer =
    | Reused(lease: string)
    | Installed(lease: string)
    | LoadConflict
    | LifecycleBusy
    | ContentMismatch
    | HostMemoryInsufficient
    | LoadFailed

  predicate SameExecution(held: Holding, c: LoadCall)
    requires held.IsLoaded()
  {
    && (if c.input.Some? then held.input == c.input
        else held.input.None? && held.artifact.value == c.artifact)
    && held.adapter.value == c.adapter
    && held.identity == Some(c.identity)
  }

  function GrantLease(held: Holding, owner: string, lease: string): Holding {
    held.(leases := held.leases[owner := lease])
  }

  function Install(held: Holding, c: LoadCall): Holding
    requires c.engine.EngineLoaded?
  {
    Holding(Some(c.artifact), Some(c.adapter), c.input, c.signatures, Some(c.engine.effectiveIdentity),
            held.leases[c.owner := c.newLease])
  }

  function Load(s: State, c: LoadCall): (State, LoadAnswer) {
    if s.held.IsLoaded() then
      if !SameExecution(s.held, c) then (s, LoadConflict)
      else if c.owner in s.held.leases then (s, Reused(s.held.leases[c.owner]))
      else (s.(held := GrantLease(s.held, c.owner, c.newLease)), Reused(c.newLease))
    else if s.lifecycle == Loading || s.lifecycle == Unloading || s.lifecycle == Generating then (s, LifecycleBusy)
    else if !c.owedContentMatches then (s, ContentMismatch)
    else if !c.memoryOk then (s, HostMemoryInsufficient)
    else if c.engine.EngineLoadFailed? then (s.(lifecycle := Error), LoadFailed)
    else (s.(lifecycle := Loaded, held := Install(s.held, c)), Installed(c.newLease))
  }

  function SelectionFailed(s: State): State {
    s.(lifecycle := Error)
  }

  datatype UnloadAnswer =
    | NothingLoaded(reported: Lifecycle)
    | WrongArtifact
    | NotLeaseholder
    | RequestActive
    | LeaseReleased(reported: Lifecycle)
    | UnloadFailed
    | EngineUnloaded(reported: Lifecycle)

  function RevokeLease(held: Holding, owner: string): Holding {
    held.(leases := held.leases - {owner})
  }

  function Release(held: Holding, owner: string): Holding {
    Holding(None, None, None, map[], None, held.leases - {owner})
  }

  function Unload(s: State, artifactId: Option<string>, owner: string, lease: Option<string>, engineOk: bool)
    : (State, UnloadAnswer)
  {
    if !s.held.IsLoaded() then
      var lifecycle := if s.lifecycle == Error then Unloaded else s.lifecycle;
      (s.(lifecycle := lifecycle), NothingLoaded(lifecycle))
    else if artifactId.Some? && artifactId.value != s.held.artifact.value.artifactId then (s, WrongArtifact)
    else if owner !in s.held.leases || (lease.Some? && lease.value != s.held.leases[owner]) then (s, NotLeaseholder)
    else if s.active != map[] then (s, RequestActive)
    else if |s.held.leases| > 1 then (s.(held := RevokeLease(s.held, owner)), LeaseReleased(Loaded))
    else if !engineOk then (s.(lifecycle := Error), UnloadFailed)
    else (s.(lifecycle := Unloaded, held := Release(s.held, owner)), EngineUnloaded(Unloaded))
  }

  // ----- steps and runs ------------------------------------------------------------------------

  datatype Step =
    | ArriveStep(request: Request, expired: bool)
    | WakeStep(id: string, expired: bool)
    | CancelStep(id: string)
    | SignalStep(id: string, ticket: nat, timeout: bool)
    | EndStep(id: string)
    | LoadStep(call: LoadCall)
    | SelectFailStep
    | UnloadStep(artifactId: Option<string>, owner: string, lease: Option<string>, engineOk: bool)

  ghost function Next(s: State, a: Step): State {
    match a
    case ArriveStep(r, expired) => Arrive(s, r, expired).0
    case WakeStep(id, expired) => Wake(s, id, expired).0
    case CancelStep(id) => Cancel(s, id).0
    case SignalStep(id, ticket, timeout) => Signal(s, id, ticket, timeout)
    case EndStep(id) => End(s, id)
    case LoadStep(c) => Load(s, c).0
    case SelectFailStep => SelectionFailed(s)
    case UnloadStep(artifactId, owner, lease, engineOk) => Unload(s, artifactId, owner, lease, engineOk).0
  }

  /**
   `_end` is called only by the holder of the slot: SlotOwnersTheorems proves that of everybody who is ever
   given the slot. Every other step may be taken in any state.
  */
  predicate Allowed(s: State, a: Step) {
    a.EndStep? ==> a.id in s.active
  }

  /** A run: any interleaving of allowed steps from the empty state, with every state on the way. */
  ghost predicate IsRun(states: seq<State>, steps: seq<Step>) {
    && |states| == |steps| + 1
    && states[0] == INIT
    && forall i :: 0 <= i < |steps| ==> Allowed(states[i], steps[i]) && states[i + 1] == Next(states[i], steps[i])
  }
}

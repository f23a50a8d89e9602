/** The promises of the generation slot and of the lease protocol, over whole runs. */
module SlotTheorems {
  import opened Wrappers
  import opened RuntimeState
  import opened SlotInvariants

  lemma {:induction false} RunKeepsInv(states: seq<State>, steps: seq<Step>, i: nat)
    requires IsRun(states, steps) && i < |states|
    ensures Inv(states[i])
  {
    if i == 0 {
    } else {
      RunKeepsInv(states, steps, i - 1);
      assert Allowed(states[i - 1], steps[i - 1]) && states[i - 1 + 1] == Next(states[i - 1], steps[i - 1]);
      NextKeepsInv(states[i - 1], steps[i - 1]);
    }
  }

  // ----- lifecycle -----------------------------------------------------------------------------

  /** What a caller of `lifecycle_state`, `health` or `unload` may rely on in any reachable state. */
  lemma LifecycleOfReachableStates(states: seq<State>, steps: seq<Step>, i: nat)
    requires IsRun(states, steps) && i < |states|
    ensures var s := states[i];
      && |s.active| <= 1
      && (s.held.IsLoaded() <==> |s.held.leases| > 0)
      && (s.lifecycle == Unloaded ==> !s.held.IsLoaded() && |s.active| == 0)
      && (s.lifecycle == Loaded ==> s.held.IsLoaded() && |s.active| == 0)
      && (s.lifecycle == Generating ==> s.held.IsLoaded() && |s.active| == 1)
      && s.lifecycle !in {Loading, Unloading}
  {
    RunKeepsInv(states, steps, i);
    AtMostOne(states[i].active);
  }

  lemma AtMostOne(active: map<string, ActiveRequest>)
    requires forall a, b :: a in active && b in active ==> a == b
    ensures |active| == (if active == map[] then 0 else 1)
  {
    if active != map[] {
      var a :| a in active;
      assert active.Keys == {a};
      assert |active| == |active.Keys|;
    }
  }

  /** The busy test in the locked half of a load is never the one that answers. */
  lemma LoadIsNeverLifecycleBusy(states: seq<State>, steps: seq<Step>, i: nat, c: LoadCall)
    requires IsRun(states, steps) && i < |states|
    ensures Load(states[i], c).1 != LifecycleBusy
  {
    RunKeepsInv(states, steps, i);
  }

  /**
   The engine is told to unload (with whatever outcome) only by the last leaseholder and only while
   nothing runs. When it obeys, no lease is left; when it fails, nothing changes but the lifecycle.
  */
  lemma EngineUnloadIsLastAndIdle(
    states: seq<State>, steps: seq<Step>, i: nat,
    artifactId: Option<string>, owner: string, lease: Option<string>, engineOk: bool)
    requires IsRun(states, steps) && i < |states|
    ensures var (s, (t, answer)) := (states[i], Unload(states[i], artifactId, owner, lease, engineOk));
      && (answer.EngineUnloaded? || answer.UnloadFailed? ==> s.active == map[] && s.held.leases.Keys == {owner})
      && (answer.EngineUnloaded? ==> !t.held.IsLoaded() && t.held.leases == map[])
      && (answer.UnloadFailed? ==> t == s.(lifecycle := Error))
      && (s.held.IsLoaded() && !t.held.IsLoaded() <==> answer.EngineUnloaded?)
  {
    RunKeepsInv(states, steps, i);
    var s := states[i];
    if owner in s.held.leases {
      LastLease(s.held.leases, owner);
      assert s.held.leases.Keys == (s.held.leases - {owner}).Keys + {owner};
    }
  }

  /** Releasing a shared lease reports LOADED; that is the actual lifecycle iff no failure is pending. */
  lemma SharedReleaseReport(
    states: seq<State>, steps: seq<Step>, i: nat, artifactId: Option<string>, owner: string, lease: Option<string>)
    requires IsRun(states, steps) && i < |states|
    requires Unload(states[i], artifactId, owner, lease, true).1.LeaseReleased?
    ensures var (t, answer) := Unload(states[i], artifactId, owner, lease, true);
      answer.reported == t.lifecycle <==> states[i].lifecycle != Error
  {
    RunKeepsInv(states, steps, i);
  }

  const DEMO_ARTIFACT: Artifact := Artifact("m", "/m", "bin", None, None, None)
  const DEMO_LOAD: LoadCall :=
    LoadCall("c", DEMO_ARTIFACT, None, "mock", "id", map[], true, true, EngineLoaded("id"), "lease")
  const DEMO_REQUEST: Request := Request("r", "m", "c", None, None, Interactive)

  /** ERROR may coexist with a loaded model and with a running request: a failed adapter selection is enough. */
  lemma ErrorWhileGenerating() returns (states: seq<State>, steps: seq<Step>)
    ensures IsRun(states, steps)
    ensures var s := states[|states| - 1]; s.lifecycle == Error && s.held.IsLoaded() && s.active != map[]
  {
    var s1 := Next(INIT, LoadStep(DEMO_LOAD));
    var s2 := Next(s1, ArriveStep(DEMO_REQUEST, false));
    assert "c" in s1.held.leases;
    assert "r" in s2.active;
    var s3 := Next(s2, SelectFailStep);
    states := [INIT, s1, s2, s3];
    steps := [LoadStep(DEMO_LOAD), ArriveStep(DEMO_REQUEST, false), SelectFailStep];
  }

  /** Why `_end` must come from the slot's holder: a stray one reports LOADED while a request still runs. */
  lemma StrayEndBreaksLifecycle(s: State, id: string)
    requires Inv(s) && s.lifecycle == Generating && id !in s.active
    ensures End(s, id).lifecycle == Loaded && End(s, id).active == s.active != map[]
    ensures !Inv(End(s, id))
  {
  }

  const OTHER_LOAD: LoadCall := DEMO_LOAD.(owner := "d", newLease := "other")

  /** And so may leases of two consumers: here the release of one reports LOADED although the lifecycle is ERROR. */
  lemma SharedReleaseInError() returns (states: seq<State>, steps: seq<Step>)
    ensures IsRun(states, steps)
    ensures var (t, answer) := Unload(states[|states| - 1], None, "d", None, true);
      answer == LeaseReleased(Loaded) && t.lifecycle == Error
  {
    var s1 := Next(INIT, LoadStep(DEMO_LOAD));
    var s2 := Next(s1, LoadStep(OTHER_LOAD));
    var s3 := Next(s2, SelectFailStep);
    assert IsRun([INIT, s1, s2, s3], [LoadStep(DEMO_LOAD), LoadStep(OTHER_LOAD), SelectFailStep]);
    assert s3.held.leases == map["c" := "lease"]["d" := "other"];
    hide IsRun, Next;
    assert "c" in s3.held.leases - {"d"};
    SharedRelease(s3, "d");
    states := [INIT, s1, s2, s3];
    steps := [LoadStep(DEMO_LOAD), LoadStep(OTHER_LOAD), SelectFailStep];
  }

  lemma SharedRelease(s: State, owner: string)
    requires s.held.IsLoaded() && s.active == map[] && owner in s.held.leases && s.held.leases - {owner} != map[]
    ensures Unload(s, None, owner, None, true)
      == (s.(held := RevokeLease(s.held, owner)), LeaseReleased(Loaded))
  {
    LastLease(s.held.leases, owner);
  }

  // ----- the model stays put under a running request ---------------------------------------------

  predicate SameModel(h: Holding, k: Holding) {
    && h.artifact == k.artifact && h.adapter == k.adapter && h.input == k.input
    && h.identity == k.identity && h.signatures == k.signatures
  }

  predicate SameLease(h: Holding, k: Holding, consumer: string) {
    consumer in h.leases && consumer in k.leases && h.leases[consumer] == k.leases[consumer]
  }

  /** The request that arrived as number `ticket` is in neither the slot nor the queue, and never comes back. */
  ghost predicate Gone(s: State, ticket: nat) {
    && ticket < s.arrivals
    && (forall a :: a in s.active ==> s.active[a].ticket != ticket)
    && (forall k :: k in s.queued ==> s.queued[k].ticket != ticket)
  }

  ghost predicate Holds(s: State, t: State, id: string)
    requires id in s.active
  {
    && id in t.active
    && t.active[id].request == s.active[id].request && t.active[id].ticket == s.active[id].ticket
    && SameModel(s.held, t.held)
    && SameLease(s.held, t.held, s.active[id].request.consumer)
    && (s.active[id].cancelEvent ==> t.active[id].cancelEvent)
    && (s.active[id].timeoutEvent ==> t.active[id].timeoutEvent)
  }

  /** Nothing enters the slot or the queue but a newcomer, who gets a fresh ticket. */
  ghost predicate NoReturn(s: State, t: State) {
    && s.arrivals <= t.arrivals
    && (forall a :: a in t.active ==> (
          || t.active[a].ticket == s.arrivals
          || (a in s.active && s.active[a].ticket == t.active[a].ticket)
          || (a in s.queued && s.queued[a].ticket == t.active[a].ticket)))
    && (forall k :: k in t.queued ==> (
          || t.queued[k].ticket == s.arrivals
          || (k in s.queued && s.queued[k].ticket == t.queued[k].ticket)))
  }

  lemma WakeReturnsNobody(s: State, id: string, expired: bool)
    requires forall k :: k in s.queued ==> s.queued[k].request.id == k
    ensures NoReturn(s, Wake(s, id, expired).0)
  {
  }

  lemma ArriveReturnsNobody(s: State, r: Request, expired: bool)
    requires forall k :: k in s.queued ==> s.queued[k].request.id == k
    ensures NoReturn(s, Arrive(s, r, expired).0)
  {
    assert forall k :: k in Queueing(s, r).queued ==> Queueing(s, r).queued[k].request.id == k;
    WakeReturnsNobody(Queueing(s, r), r.id, expired);
  }

  lemma NextReturnsNobody(s: State, a: Step)
    requires forall k :: k in s.queued ==> s.queued[k].request.id == k
    ensures NoReturn(s, Next(s, a))
  {
    match a
    case ArriveStep(r, expired) => ArriveReturnsNobody(s, r, expired);
    case WakeStep(id, expired) => WakeReturnsNobody(s, id, expired);
    case _ =>
  }

  lemma GoneIsForever(s: State, a: Step, ticket: nat)
    requires Inv(s) && Allowed(s, a) && Gone(s, ticket)
    ensures Gone(Next(s, a), ticket)
  {
    NextReturnsNobody(s, a);
  }

  /** Once a request has left slot and queue it is in neither ever after. */
  lemma {:induction false} GoneStaysGone(states: seq<State>, steps: seq<Step>, i: nat, j: nat, ticket: nat)
    requires IsRun(states, steps) && i <= j < |states| && Gone(states[i], ticket)
    ensures Gone(states[j], ticket)
    decreases j
  {
    hide Gone, Inv, Next, Allowed;
    if i < j {
      GoneStaysGone(states, steps, i, j - 1, ticket);
      RunKeepsInv(states, steps, j - 1);
      assert Allowed(states[j - 1], steps[j - 1]) && states[j - 1 + 1] == Next(states[j - 1], steps[j - 1]);
      GoneIsForever(states[j - 1], steps[j - 1], ticket);
    }
  }

  lemma BusySlotAdmitsNobody(s: State, a: Step)
    requires s.active != map[] && (a.ArriveStep? || a.WakeStep?)
    ensures Next(s, a).active == s.active && Next(s, a).held == s.held
  {
  }

  lemma BusySlotKeepsModel(s: State, a: Step, id: string)
    requires Inv(s) && id in s.active && (a.LoadStep? || a.UnloadStep?)
    ensures Next(s, a).active == s.active && SameModel(s.held, Next(s, a).held)
    ensures SameLease(s.held, Next(s, a).held, s.active[id].request.consumer)
  {
    AuthorizedHasLease(s.held, s.active[id].request);
  }

  lemma RunningRequestPinsModel(s: State, a: Step, id: string)
    requires Inv(s) && Allowed(s, a) && id in s.active
    ensures Holds(s, Next(s, a), id) || Gone(Next(s, a), s.active[id].ticket)
  {
    AuthorizedHasLease(s.held, s.active[id].request);
    match a
    case ArriveStep(_, _) => BusySlotAdmitsNobody(s, a);
    case WakeStep(_, _) => BusySlotAdmitsNobody(s, a);
    case LoadStep(_) => BusySlotKeepsModel(s, a, id);
    case UnloadStep(_, _, _, _) => BusySlotKeepsModel(s, a, id);
    case EndStep(other) => assert other == id;
    case _ =>
  }

  /**
   From admission to `_end`: whenever the same admitted request is running in two states of a run, the
   loaded artifact, adapter, execution input, load identity and content signatures are the same in both,
   its consumer holds the same lease, and its events have not been taken back.
  */
  lemma {:induction false} ModelIsPinned(states: seq<State>, steps: seq<Step>, i: nat, j: nat, a: string, b: string)
    requires IsRun(states, steps) && i <= j < |states|
    requires a in states[i].active && b in states[j].active
    requires states[i].active[a].ticket == states[j].active[b].ticket
    ensures a == b && Holds(states[i], states[j], a)
  {
    HeldOrGone(states, steps, i, j, a);
    RunKeepsInv(states, steps, j);
  }

  lemma HoldsIsTransitive(s: State, t: State, u: State, id: string)
    requires id in s.active && Holds(s, t, id) && Holds(t, u, id)
    ensures Holds(s, u, id)
  {
  }

  lemma HeldOrGoneNext(first: State, s: State, step: Step, a: string)
    requires a in first.active && Inv(s) && Allowed(s, step)
    requires Holds(first, s, a) || Gone(s, first.active[a].ticket)
    ensures Holds(first, Next(s, step), a) || Gone(Next(s, step), first.active[a].ticket)
  {
    if Holds(first, s, a) {
      RunningRequestPinsModel(s, step, a);
      if Holds(s, Next(s, step), a) {
        HoldsIsTransitive(first, s, Next(s, step), a);
      }
    } else {
      GoneIsForever(s, step, first.active[a].ticket);
    }
  }

  lemma HeldOrGoneAt(states: seq<State>, steps: seq<Step>, first: State, j: nat, a: string)
    requires IsRun(states, steps) && j < |steps| && a in first.active
    requires Holds(first, states[j], a) || Gone(states[j], first.active[a].ticket)
    ensures Holds(first, states[j + 1], a) || Gone(states[j + 1], first.active[a].ticket)
  {
    RunKeepsInv(states, steps, j);
    assert Allowed(states[j], steps[j]) && states[j + 1] == Next(states[j], steps[j]);
    HeldOrGoneNext(first, states[j], steps[j], a);
  }

  lemma {:induction false} HeldOrGone(states: seq<State>, steps: seq<Step>, i: nat, j: nat, a: string)
    requires IsRun(states, steps) && i <= j < |states| && a in states[i].active
    ensures Holds(states[i], states[j], a) || Gone(states[j], states[i].active[a].ticket)
    decreases j
  {
    if i == j {
      RunKeepsInv(states, steps, i);
      AuthorizedHasLease(states[i].held, states[i].active[a].request);
    } else {
      HeldOrGone(states, steps, i, j - 1, a);
      HeldOrGoneAt(states, steps, states[i], j - 1, a);
    }
  }

  lemma AuthorizedHasLease(held: Holding, r: Request)
    requires Authorize(held, r) == Authorized
    ensures r.consumer in held.leases
  {
  }

  // ----- admission order -----------------------------------------------------------------------

  /** Of two admitted requests of one priority, the one that arrived first was admitted first. */
  lemma AdmissionsFollowArrivals(states: seq<State>, steps: seq<Step>, i: nat, m: nat, n: nat)
    requires IsRun(states, steps) && i < |states|
    requires m < n < |states[i].admissions|
    requires states[i].admissions[m].priority == states[i].admissions[n].priority
    ensures states[i].admissions[m].ticket < states[i].admissions[n].ticket
  {
    RunKeepsInv(states, steps, i);
  }

  /** A request cancelled while it waited is never admitted, neither before nor after. */
  lemma CancelledIsNeverAdmitted(states: seq<State>, steps: seq<Step>, i: nat, m: nat)
    requires IsRun(states, steps) && i < |states| && m < |states[i].admissions|
    ensures states[i].admissions[m].ticket !in states[i].cancelledTickets
  {
    RunKeepsInv(states, steps, i);
  }

  /** `w` must wait behind the admitted `x`: lower priority, or same priority and later arrival. */
  predicate MayWait(x: Admission, w: Waiter) {
    || Rank(x.priority) < Rank(w.request.priority)
    || (x.priority == w.request.priority && x.ticket < w.ticket)
  }

  /** The step admitted one request, into a free slot, and left waiting only those it may pass. */
  ghost predicate AdmittedHead(s: State, t: State) {
    && |t.admissions| == |s.admissions| + 1 && s.admissions < t.admissions
    && s.active == map[] && t.held == s.held && s.held.IsLoaded() && t.lifecycle == Generating
    && forall k :: k in t.queued ==> k in s.queued && MayWait(t.admissions[|s.admissions|], t.queued[k])
  }

  lemma WakeAdmitsHead(s: State, id: string, expired: bool)
    requires Inv(s) && Wake(s, id, expired).0.admissions != s.admissions
    ensures AdmittedHead(s, Wake(s, id, expired).0)
    ensures id !in Wake(s, id, expired).0.queued
  {
    HeadIsFirst(s, id);
  }

  lemma ArriveAdmitsHead(s: State, r: Request, expired: bool)
    requires Inv(s) && Arrive(s, r, expired).0.admissions != s.admissions
    ensures AdmittedHead(s, Arrive(s, r, expired).0)
  {
    if s.active != map[] || s.queued != map[] {
      EnqueueKeepsInv(s, r);
      WakeAdmitsHead(Queueing(s, r), r.id, expired);
    }
  }

  /**
   Any step admits at most one request, only into a free slot with a model loaded, and everyone left
   waiting has a lower priority or arrived later. In particular no background request is admitted while
   an interactive one waits, and a newcomer overtakes only waiters of lower priority.
  */
  lemma AdmissionTakesTheHead(states: seq<State>, steps: seq<Step>, i: nat, a: Step)
    requires IsRun(states, steps) && i < |states| && Allowed(states[i], a)
    requires Next(states[i], a).admissions != states[i].admissions
    ensures AdmittedHead(states[i], Next(states[i], a))
  {
    RunKeepsInv(states, steps, i);
    match a
    case ArriveStep(r, expired) => ArriveAdmitsHead(states[i], r, expired);
    case WakeStep(id, expired) => WakeAdmitsHead(states[i], id, expired);
    case _ =>
  }

  /** A background request is only ever admitted while no interactive one waits. */
  lemma InteractiveGoesFirst(states: seq<State>, steps: seq<Step>, i: nat, a: Step, k: string)
    requires IsRun(states, steps) && i < |states| && Allowed(states[i], a)
    requires var (before, after) := (states[i].admissions, Next(states[i], a).admissions);
      before < after && after[|before|].priority == Background
    requires k in Next(states[i], a).queued
    ensures Next(states[i], a).queued[k].request.priority == Background
  {
    AdmissionTakesTheHead(states, steps, i, a);
  }

  lemma HeadIsFirst(s: State, id: string)
    requires Inv(s) && id in s.queued && IsHead(s.queued, id)
    ensures forall k :: k in s.queued && k != id ==>
      MayWait(Admission(s.queued[id].ticket, s.queued[id].request.priority), s.queued[k])
  {
  }

  /**
   A newcomer that is admitted at its arrival, on the fast path or by its first pass through the waiting loop,
   overtakes nobody but waiters of strictly lower priority.
  */
  lemma NewcomerOvertakesOnlyLowerPriority(states: seq<State>, steps: seq<Step>, i: nat, r: Request, expired: bool)
    requires IsRun(states, steps) && i < |states| && Arrive(states[i], r, expired).1 == Admitted
    ensures states[i].active == map[]
    ensures forall k :: k in states[i].queued ==> Rank(r.priority) < Rank(states[i].queued[k].request.priority)
  {
    RunKeepsInv(states, steps, i);
    hide IsRun, Inv, Arrive, Queueing, IsHead;
    var s := states[i];
    AdmittedAtArrival(s, r, expired);
    if s.queued != map[] {
      EnqueueKeepsInv(s, r);
      HeadIsFirst(Queueing(s, r), r.id);
      NewcomerIsLast(s, r);
    }
  }

  lemma AdmittedAtArrival(s: State, r: Request, expired: bool)
    requires Arrive(s, r, expired).1 == Admitted
    ensures s.active == map[] && r.id !in s.active && r.id !in s.queued
    ensures s.queued != map[] ==> r.id in Queueing(s, r).queued && IsHead(Queueing(s, r).queued, r.id)
  {
    hide IsHead, Authorize;
  }

  lemma NewcomerIsLast(s: State, r: Request)
    requires Inv(s) && r.id !in s.queued
    ensures Queueing(s, r).queued[r.id].ticket == s.arrivals && Queueing(s, r).queued[r.id].request == r
    ensures forall k :: k in s.queued ==>
      && k != r.id && k in Queueing(s, r).queued
      && Queueing(s, r).queued[k] == s.queued[k] && s.queued[k].ticket < s.arrivals
  {
  }

  // ----- the queue drains ------------------------------------------------------------------------

  function Measure(s: State): nat {
    2 * |s.queued| + |s.active|
  }

  predicate IsDrainStep(a: Step) {
    a.WakeStep? || a.EndStep?
  }

  lemma RemoveShrinks<V>(m: map<string, V>, k: string)
    requires k in m
    ensures |m - {k}| == |m| - 1
  {
    assert m.Keys == (m - {k}).Keys + {k};
    assert |m.Keys| == |(m - {k}).Keys| + 1;
  }

  lemma WakeShrinks(s: State, id: string, expired: bool)
    requires Wake(s, id, expired).0 != s
    ensures Measure(Wake(s, id, expired).0) < Measure(s)
  {
    RemoveShrinks(s.queued, id);
    if Decide(s, id, expired) == Admitted {
      assert |Wake(s, id, expired).0.active| == 1;
    }
  }

  /** A wake-up or an end that changes anything strictly lowers the measure. */
  lemma DrainStepShrinks(s: State, a: Step)
    requires Allowed(s, a) && IsDrainStep(a) && Next(s, a) != s
    ensures Measure(Next(s, a)) < Measure(s)
  {
    match a
    case WakeStep(id, expired) => WakeShrinks(s, id, expired);
    case EndStep(id) => RemoveShrinks(s.active, id);
  }

  /** A run of drain steps from `states[0]` in which every step changes something. */
  ghost predicate IsDrain(states: seq<State>, steps: seq<Step>) {
    && |states| == |steps| + 1
    && forall i :: 0 <= i < |steps| ==>
      && IsDrainStep(steps[i]) && Allowed(states[i], steps[i])
      && states[i + 1] == Next(states[i], steps[i]) && states[i + 1] != states[i]
  }

  lemma {:induction false} DrainLowersMeasure(states: seq<State>, steps: seq<Step>, i: nat)
    requires IsDrain(states, steps) && Inv(states[0]) && i <= |steps|
    ensures Inv(states[i]) && Measure(states[i]) + i <= Measure(states[0])
  {
    if i > 0 {
      DrainLowersMeasure(states, steps, i - 1);
      assert states[i - 1 + 1] == Next(states[i - 1], steps[i - 1]);
      DrainStepShrinks(states[i - 1], steps[i - 1]);
      NextKeepsInv(states[i - 1], steps[i - 1]);
    }
  }

  /** With no new arrivals, wake-ups and ends can change the state only so often. */
  lemma DrainingTerminates(states: seq<State>, steps: seq<Step>)
    requires IsDrain(states, steps) && Inv(states[0])
    ensures |steps| <= Measure(states[0])
  {
    DrainLowersMeasure(states, steps, |steps|);
  }

  lemma {:induction false} HeadAmong(queue: map<string, Waiter>, keys: set<string>) returns (id: string)
    requires keys != {} && keys <= queue.Keys
    requires DistinctSequences(queue)
    ensures id in keys && forall k :: k in keys && k != id ==> Before(queue[id], queue[k])
    decreases keys
  {
    var k :| k in keys;
    if keys == {k} {
      id := k;
    } else {
      var j := HeadAmong(queue, keys - {k});
      id := if Before(queue[j], queue[k]) then j else k;
    }
  }

  /**
   With the slot free and somebody waiting, there is a head, and its wake-up removes it from the queue:
   it is admitted unless it was cancelled or is no longer authorized.
  */
  lemma HeadWakeMoves(s: State, expired: bool) returns (id: string)
    requires Inv(s) && s.active == map[] && s.queued != map[]
    ensures IsHead(s.queued, id)
    ensures var (t, verdict) := Wake(s, id, expired);
      && t.queued == s.queued - {id}
      && verdict in {Admitted, CancelledInQueue, Refused(Authorize(s.held, s.queued[id].request))}
      && (verdict == Admitted <==> id in t.active)
      && (verdict == Admitted <==>
            !s.queued[id].cancelled && Authorize(s.held, s.queued[id].request) == Authorized)
  {
    assert s.queued.Keys != {};
    id := HeadAmong(s.queued, s.queued.Keys);
  }

  /** While anybody runs or waits, some end or wake-up changes the state; no timeout is needed. */
  lemma BusyCanMove(s: State) returns (a: Step)
    requires Inv(s) && (s.active != map[] || s.queued != map[])
    ensures IsDrainStep(a) && Allowed(s, a) && Next(s, a) != s
    ensures a.WakeStep? ==> !a.expired
  {
    if s.active != map[] {
      var id :| id in s.active;
      a := EndStep(id);
      assert id !in Next(s, a).active;
    } else {
      var id := HeadWakeMoves(s, false);
      a := WakeStep(id, false);
      assert id !in Next(s, a).queued;
    }
  }

  /**
   The queue drains: a run of state-changing wake-ups and ends that cannot be continued leaves nobody
   running and nobody waiting, and by DrainingTerminates every such run stops.
  */
  lemma MaximalDrainEmptiesQueue(states: seq<State>, steps: seq<Step>)
    requires IsDrain(states, steps) && Inv(states[0])
    requires forall a :: IsDrainStep(a) && Allowed(states[|steps|], a) ==>
                           Next(states[|steps|], a) == states[|steps|]
    ensures states[|steps|].active == map[] && states[|steps|].queued == map[]
  {
    var last := states[|steps|];
    DrainLowersMeasure(states, steps, |steps|);
    if last.active != map[] || last.queued != map[] {
      var a := BusyCanMove(last);
      assert false;
    }
  }
}

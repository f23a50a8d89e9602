/**
 What each call of the runtime answers, and what it leaves behind, in every state that keeps the invariant
 (by SlotTheorems.RunKeepsInv, in every reachable state). The conditions are those that a caller can see: the
 model and leases that are held, who runs, and who waits.
*/
module SlotAnswers {
  import opened Wrappers
  import opened RuntimeState
  import opened SlotInvariants
  import opened SlotTheorems

  // ----- authorization -----------------------------------------------------------------------------

  /** The consumer has a lease, and presents no other one. */
  predicate HoldsLease(held: Holding, consumer: string, lease: Option<string>) {
    consumer in held.leases && lease in {None, Some(held.leases[consumer])}
  }

  /** The request is for what is loaded: this artifact with this execution input, or both without one. */
  predicate IsForLoaded(held: Holding, r: Request) {
    held.IsLoaded() && r.input == held.input && r.artifactId == held.artifact.value.artifactId
  }

  /** Exactly who may generate. */
  lemma AuthorizedIff(held: Holding, r: Request)
    ensures Authorize(held, r) == Authorized <==> IsForLoaded(held, r) && HoldsLease(held, r.consumer, r.lease)
  {
  }

  /** And why others may not: what is loaded is looked at first, the lease last. */
  lemma RefusalReason(held: Holding, r: Request)
    ensures Authorize(held, r) == NotLoaded <==> !held.IsLoaded()
    ensures Authorize(held, r) == InputMismatch <==> held.IsLoaded() && r.input != held.input
    ensures Authorize(held, r) == OtherArtifact <==>
      held.IsLoaded() && r.input == held.input && r.artifactId != held.artifact.value.artifactId
    ensures Authorize(held, r) == NoLease <==> IsForLoaded(held, r) && !HoldsLease(held, r.consumer, r.lease)
  {
  }

  // ----- arrivals ----------------------------------------------------------------------------------

  /** Nobody runs, and whoever waits has a lower priority. */
  ghost predicate MayPassAll(s: State, priority: Priority) {
    s.active == map[] && forall k :: k in s.queued ==> Rank(priority) < Rank(s.queued[k].request.priority)
  }

  /** `r` was put behind all who waited, and nothing else happened. */
  ghost predicate JoinedQueue(s: State, t: State, r: Request) {
    && r.id in t.queued
    && var w := t.queued[r.id];
       && w.request == r && w.ticket == s.arrivals && !w.cancelled
       && (forall k :: k in s.queued ==> s.queued[k].sequence < w.sequence)
       && t == s.(queued := s.queued[r.id := w], queueSequence := w.sequence, arrivals := s.arrivals + 1)
  }

  /** `r` has the slot, and nobody else was touched. */
  ghost predicate TookSlot(s: State, t: State, r: Request, ticket: nat) {
    && t.lifecycle == Generating && t.held == s.held && s.held.adapter.Some?
    && t.active == map[r.id := ActiveRequest(r, s.held.adapter.value, false, false, ticket)]
    && t.admissions == s.admissions + [Admission(ticket, r.priority)]
    && t.queued == s.queued - {r.id} && t.cancelledTickets == s.cancelledTickets
  }

  lemma TurnedAwayAtOnce(s: State, r: Request, expired: bool)
    requires Inv(s)
    ensures var (t, verdict) := Arrive(s, r, expired);
      && (verdict == Duplicate <==> Authorize(s.held, r) == Authorized && (r.id in s.active || r.id in s.queued))
      && (verdict.Refused? <==> Authorize(s.held, r) != Authorized)
      && (verdict.Refused? ==> verdict.why == Authorize(s.held, r))
      && (verdict.Refused? || verdict == Duplicate ==> t == s)
  {
    hide Authorize, IsHead;
  }

  // ----- waiting -----------------------------------------------------------------------------------

  /** Everybody else who waits has a lower priority, or the same priority and a later ticket. */
  ghost predicate IsNext(s: State, id: string)
    requires id in s.queued
  {
    forall k :: k in s.queued && k != id ==>
      MayWait(Admission(s.queued[id].ticket, s.queued[id].request.priority), s.queued[k])
  }

  lemma HeadIsNext(s: State, id: string)
    requires Inv(s) && id in s.queued
    ensures IsHead(s.queued, id) <==> IsNext(s, id)
  {
    hide HoldingInv, LifecycleInv, SlotInv, ApartInv, OrderInv, CancelInv;
  }

  /**
   A wake-up of somebody who waits: it leaves if it was cancelled or has lost its authorization, it runs if
   nobody does and it is next, and otherwise it waits until its time is over. Nobody else is touched.
  */
  lemma WaiterLeavesOrRuns(s: State, id: string, expired: bool)
    requires Inv(s) && id in s.queued
    ensures var ((t, verdict), w) := (Wake(s, id, expired), s.queued[id]);
      && (verdict == CancelledInQueue <==> w.cancelled)
      && (verdict.Refused? <==> !w.cancelled && Authorize(s.held, w.request) != Authorized)
      && (verdict == Admitted <==>
            !w.cancelled && Authorize(s.held, w.request) == Authorized && s.active == map[] && IsNext(s, id))
      && (verdict == KeepsWaiting <==>
            && !expired && !w.cancelled && Authorize(s.held, w.request) == Authorized
            && !(s.active == map[] && IsNext(s, id)))
      && verdict != Duplicate && t.arrivals == s.arrivals && t.queueSequence == s.queueSequence
      && (verdict == KeepsWaiting ==> t == s)
      && (verdict == Admitted ==> TookSlot(s, t, w.request, w.ticket))
      && (verdict !in {KeepsWaiting, Admitted} ==> t == s.(queued := s.queued - {id}))
  {
    HeadIsNext(s, id);
    hide IsHead, IsNext, Authorize, HoldingInv, LifecycleInv, ApartInv, OrderInv, CancelInv;
    AuthorizedIff(s.held, s.queued[id].request);
  }

  lemma NewcomerIsNextIff(s: State, r: Request)
    requires Inv(s) && r.id !in s.queued
    ensures IsNext(Queueing(s, r), r.id)
      <==> forall k :: k in s.queued ==> Rank(r.priority) < Rank(s.queued[k].request.priority)
  {
    NewcomerIsLast(s, r);
    hide Inv, Queueing;
    var t := Queueing(s, r);
    assert forall k :: k in s.queued ==> k in t.queued && t.queued[k] == s.queued[k];
    assert t.queued.Keys == s.queued.Keys + {r.id};
  }

  lemma QueueingPutsBehind(s: State, r: Request)
    requires Inv(s) && r.id !in s.queued
    ensures JoinedQueue(s, Queueing(s, r), r)
    ensures Queueing(s, r).(queued := Queueing(s, r).queued - {r.id})
      == s.(queueSequence := Queueing(s, r).queueSequence, arrivals := s.arrivals + 1)
  {
    hide HoldingInv, LifecycleInv, SlotInv, ApartInv, OrderInv, CancelInv;
    assert Queueing(s, r).queued - {r.id} == s.queued;
  }

  lemma FastPath(s: State, r: Request, expired: bool)
    requires Inv(s) && Authorize(s.held, r) == Authorized && s.active == map[] && s.queued == map[]
    ensures var (t, verdict) := Arrive(s, r, expired);
      && verdict == Admitted && TookSlot(s, t, r, s.arrivals)
      && t.arrivals == s.arrivals + 1 && t.queueSequence == s.queueSequence
  {
  }

  lemma SlowPath(s: State, r: Request, expired: bool)
    requires Authorize(s.held, r) == Authorized && r.id !in s.active && r.id !in s.queued
    requires s.active != map[] || s.queued != map[]
    ensures Arrive(s, r, expired) == Wake(Queueing(s, r), r.id, expired)
  {
    hide Wake, Authorize;
  }

  /**
   The answer to any other authorized newcomer. It is admitted exactly if it may pass everybody; otherwise it
   joins the queue and waits, unless its time is already over.
  */
  lemma NewcomerWaitsOrRuns(s: State, r: Request, expired: bool)
    requires Inv(s) && Authorize(s.held, r) == Authorized && r.id !in s.active && r.id !in s.queued
    ensures var (t, verdict) := Arrive(s, r, expired);
      && verdict == (if MayPassAll(s, r.priority) then Admitted else if expired then QueueTimeout else KeepsWaiting)
      && t.arrivals == s.arrivals + 1
      && (verdict == Admitted ==> TookSlot(s, t, r, s.arrivals))
      && (verdict == Admitted && s.queued == map[] ==> t.queueSequence == s.queueSequence)
      && (verdict == KeepsWaiting ==> JoinedQueue(s, t, r))
      && (verdict == QueueTimeout ==> t == s.(queueSequence := t.queueSequence, arrivals := t.arrivals))
  {
    hide Inv, Arrive, Wake, Authorize, IsNext;
    if s.active == map[] && s.queued == map[] {
      FastPath(s, r, expired);
    } else {
      SlowPath(s, r, expired);
      EnqueueKeepsInv(s, r);
      NewcomerIsNextIff(s, r);
      QueueingPutsBehind(s, r);
      WaiterLeavesOrRuns(Queueing(s, r), r.id, expired);
      TookFromQueue(s, Queueing(s, r), Wake(Queueing(s, r), r.id, expired).0, r);
    }
  }

  /** Whoever joined the queue and took the slot at once might as well not have queued. */
  lemma TookFromQueue(s: State, u: State, t: State, r: Request)
    requires JoinedQueue(s, u, r) && r.id !in s.queued
    ensures TookSlot(u, t, r, s.arrivals) ==> TookSlot(s, t, r, s.arrivals)
  {
    assert u.queued - {r.id} == s.queued - {r.id};
  }

  /** In particular somebody who finds the slot taken always waits, and is not turned away. */
  lemma BusySlotMeansWaiting(states: seq<State>, steps: seq<Step>, i: nat, r: Request)
    requires IsRun(states, steps) && i < |states| && states[i].active != map[]
    requires Authorize(states[i].held, r) == Authorized && r.id !in states[i].active && r.id !in states[i].queued
    ensures var (t, verdict) := Arrive(states[i], r, false);
      verdict == KeepsWaiting && JoinedQueue(states[i], t, r)
  {
    RunKeepsInv(states, steps, i);
    NewcomerWaitsOrRuns(states[i], r, false);
  }

  /** Of two newcomers to an idle runtime the first runs and the second waits; it runs when the first has ended. */
  lemma SecondWaitsForFirst(s: State, first: Request, second: Request)
    requires Inv(s) && s.active == map[] && s.queued == map[] && first.id != second.id
    requires Authorize(s.held, first) == Authorized && Authorize(s.held, second) == Authorized
    ensures var (s1, v1) := Arrive(s, first, false);
      var (s2, v2) := Arrive(s1, second, false);
      var (s3, v3) := Wake(End(s2, first.id), second.id, false);
      && (v1, v2, v3) == (Admitted, KeepsWaiting, Admitted)
      && s2.active.Keys == {first.id} && s2.queued.Keys == {second.id}
      && s3.active.Keys == {second.id} && s3.queued == map[]
      && s3.active[second.id].ticket == s2.queued[second.id].ticket
  {
    hide Inv, Arrive, Wake, Authorize, IsHead;
    NewcomerWaitsOrRuns(s, first, false);
    ArriveKeepsInv(s, first, false);
    var s1 := Arrive(s, first, false).0;
    NewcomerWaitsOrRuns(s1, second, false);
    ArriveKeepsInv(s1, second, false);
    var s2 := Arrive(s1, second, false).0;
    EndKeepsInv(s2, first.id);
    WaiterLeavesOrRuns(End(s2, first.id), second.id, false);
  }

  const SECOND_REQUEST: Request := DEMO_REQUEST.(id := "r2")

  lemma DemoIsLoaded()
    ensures var s := Load(INIT, DEMO_LOAD).0;
      && Inv(s) && s.active == map[] && s.queued == map[]
      && Authorize(s.held, DEMO_REQUEST) == Authorized && Authorize(s.held, SECOND_REQUEST) == Authorized
  {
    InitKeepsInv();
    LoadKeepsInv(INIT, DEMO_LOAD);
    assert Load(INIT, DEMO_LOAD).0.held.leases == map["c" := "lease"];
  }

  /** So there is a run in which somebody finds the slot taken, waits, and is admitted. */
  lemma SomebodyWaitsAndRuns() returns (states: seq<State>, steps: seq<Step>)
    ensures IsRun(states, steps) && |steps| == 5
    ensures "r" in states[3].active && "r2" in states[3].queued && "r2" in states[5].active
    ensures states[5].active["r2"].ticket == states[3].queued["r2"].ticket
  {
    hide Arrive, Wake, End, Load, Inv, Authorize, INIT;
    DemoIsLoaded();
    var s1 := Load(INIT, DEMO_LOAD).0;
    SecondWaitsForFirst(s1, DEMO_REQUEST, SECOND_REQUEST);
    var s2 := Arrive(s1, DEMO_REQUEST, false).0;
    var s3 := Arrive(s2, SECOND_REQUEST, false).0;
    var s4 := End(s3, "r");
    states := [INIT, s1, s2, s3, s4, Wake(s4, "r2", false).0];
    steps := [LoadStep(DEMO_LOAD), ArriveStep(DEMO_REQUEST, false), ArriveStep(SECOND_REQUEST, false),
              EndStep("r"), WakeStep("r2", false)];
  }

  lemma InitKeepsInv()
    ensures Inv(INIT)
  {
  }

  // ----- cancelling --------------------------------------------------------------------------------

  /**
   What `cancel` finds. A waiter is marked, whatever happens then: its next wake-up, on any clock, takes it out
   of the queue and tells it that it was cancelled.
  */
  lemma CancelledWaiterLeaves(s: State, id: string, expired: bool)
    requires Inv(s)
    ensures var (t, found) := Cancel(s, id);
      && (found.FoundActive? <==> id in s.active)
      && (found == MarkedInQueue <==> id in s.queued)
      && (found.FoundActive? ==> t == s && found.ticket == s.active[id].ticket)
      && (found == FoundNothing ==> t == s)
      && (found == MarkedInQueue ==>
            && t.cancelledTickets == s.cancelledTickets + {s.queued[id].ticket}
            && t.held == s.held && t.active == s.active && t.queued - {id} == s.queued - {id}
            && Wake(t, id, expired) == (t.(queued := s.queued - {id}), CancelledInQueue))
  {
    hide HoldingInv, LifecycleInv, SlotInv, QueueInv, OrderInv, CancelInv;
    if id in s.queued {
      var t := Cancel(s, id).0;
      assert t.queued - {id} == s.queued - {id};
    }
  }

  /**
   The events of the request that was found, if it is still there, are set, and nothing else is. That they stay set
   while the request runs is part of ModelIsPinned.
  */
  lemma SignalSets(s: State, id: string, ticket: nat, timeout: bool)
    requires Inv(s) && (id in s.active ==> s.active[id].ticket == ticket)
    ensures var t := Signal(s, id, ticket, timeout);
      && t == s.(active := t.active) && t.active.Keys == s.active.Keys
      && (id in s.active ==>
            && t.active[id].cancelEvent && t.active[id].timeoutEvent == (s.active[id].timeoutEvent || timeout)
            && t.active[id].request == s.active[id].request && t.active[id].ticket == ticket)
  {
  }

  lemma SignalLeavesOthers(s: State, id: string, ticket: nat, timeout: bool)
    requires id in s.active ==> s.active[id].ticket != ticket
    ensures Signal(s, id, ticket, timeout) == s
  {
  }

  // ----- ending ------------------------------------------------------------------------------------

  /** The end of the request that runs frees the slot; an error that came up meanwhile stays. */
  lemma EndFreesSlot(s: State, id: string)
    requires Inv(s) && id in s.active
    ensures End(s, id) == s.(active := map[], lifecycle := if s.lifecycle == Error then Error else Loaded)
  {
    assert s.active - {id} == map[];
  }

  // ----- loading -----------------------------------------------------------------------------------

  /** The call names the loaded model: adapter, load identity, and execution input, or else artifact. */
  predicate AsksForLoaded(held: Holding, c: LoadCall) {
    && held.adapter == Some(c.adapter) && held.identity == Some(c.identity)
    && held.input == c.input && (c.input.None? ==> held.artifact == Some(c.artifact))
  }

  /**
   While a model is loaded a load is answered by reuse exactly if it asks for that model, and is a conflict that
   changes nothing otherwise. Reuse keeps the model, and the owner's lease if it has one.
  */
  lemma ReusedIffSame(s: State, c: LoadCall)
    requires Inv(s) && s.held.IsLoaded()
    ensures var (t, answer) := Load(s, c);
      && (answer.Reused? <==> AsksForLoaded(s.held, c))
      && (!answer.Reused? ==> answer == LoadConflict && t == s)
      && (answer.Reused? ==>
            && t == s.(held := t.held) && SameModel(s.held, t.held)
            && t.held.leases.Keys == s.held.leases.Keys + {c.owner}
            && t.held.leases[c.owner] == answer.lease
            && (c.owner !in s.held.leases ==> answer.lease == c.newLease)
            && forall o :: o in s.held.leases ==> t.held.leases[o] == s.held.leases[o])
  {
    hide LifecycleInv, SlotInv, QueueInv, ApartInv, OrderInv, CancelInv;
  }

  /** What a load leaves that found nothing loaded and went through. */
  predicate HoldsModelOf(held: Holding, c: LoadCall) {
    && c.engine.EngineLoaded?
    && held.artifact == Some(c.artifact) && held.adapter == Some(c.adapter) && held.input == c.input
    && held.signatures == c.signatures && held.identity == Some(c.engine.effectiveIdentity)
    && held.leases == map[c.owner := c.newLease]
  }

  /**
   While nothing is loaded: a load goes through exactly if the owed contents match, the memory suffices and the
   engine loads. Only a failing engine leaves a trace, the lifecycle ERROR.
  */
  lemma InstalledIff(s: State, c: LoadCall)
    requires Inv(s) && !s.held.IsLoaded()
    ensures var (t, answer) := Load(s, c);
      && (answer.Installed? <==> c.owedContentMatches && c.memoryOk && c.engine.EngineLoaded?)
      && (answer == ContentMismatch <==> !c.owedContentMatches)
      && (answer == HostMemoryInsufficient <==> c.owedContentMatches && !c.memoryOk)
      && (answer == LoadFailed <==> c.owedContentMatches && c.memoryOk && c.engine.EngineLoadFailed?)
      && (answer.Installed? ==>
            answer.lease == c.newLease && HoldsModelOf(t.held, c) && t == s.(lifecycle := Loaded, held := t.held))
      && (!answer.Installed? ==> t == s.(lifecycle := if answer == LoadFailed then Error else s.lifecycle))
  {
    hide QueueInv, ApartInv, OrderInv, CancelInv;
  }

  // ----- unloading ---------------------------------------------------------------------------------

  /**
   While a model is loaded, an unload gets through to a lease or to the engine exactly if it names this model or
   none, presents the owner's lease or none, and nobody generates. It goes to the engine exactly for the last lease.
  */
  lemma UnloadIff(s: State, artifactId: Option<string>, owner: string, lease: Option<string>, engineOk: bool)
    requires Inv(s) && s.held.IsLoaded()
    ensures var (t, answer) := Unload(s, artifactId, owner, lease, engineOk);
      var named := artifactId in {None, Some(s.held.artifact.value.artifactId)};
      var (held, last) := (HoldsLease(s.held, owner, lease), s.held.leases.Keys == {owner});
      && (answer == WrongArtifact <==> !named)
      && (answer == NotLeaseholder <==> named && !held)
      && (answer == RequestActive <==> named && held && s.active != map[])
      && (answer.LeaseReleased? <==> named && held && s.active == map[] && !last)
      && (answer == UnloadFailed <==> named && held && s.active == map[] && last && !engineOk)
      && (answer.EngineUnloaded? <==> named && held && s.active == map[] && last && engineOk)
      && (answer in {WrongArtifact, NotLeaseholder, RequestActive} ==> t == s)
      && (answer.LeaseReleased? ==>
            && t == s.(held := t.held) && SameModel(s.held, t.held) && t.held.leases == s.held.leases - {owner})
      && (answer == UnloadFailed ==> t == s.(lifecycle := Error))
      && (answer.EngineUnloaded? ==>
            t == s.(lifecycle := Unloaded, held := INIT.held) && answer.reported == Unloaded)
  {
    hide LifecycleInv, SlotInv, QueueInv, ApartInv, OrderInv, CancelInv;
    if owner in s.held.leases {
      LastLease(s.held.leases, owner);
      assert s.held.leases.Keys == (s.held.leases - {owner}).Keys + {owner};
    }
  }

  /** An unload that finds nothing loaded only clears an error, and reports the lifecycle that it leaves. */
  lemma NothingToUnload(s: State, artifactId: Option<string>, owner: string, lease: Option<string>, engineOk: bool)
    requires Inv(s) && !s.held.IsLoaded()
    ensures Unload(s, artifactId, owner, lease, engineOk) == (s.(lifecycle := Unloaded), NothingLoaded(Unloaded))
  {
  }
}

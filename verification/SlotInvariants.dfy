/**
 What every critical section of RuntimeCore keeps, whatever the interleaving. Each part of the
 invariant takes just the fields it speaks of.
*/
module SlotInvariants {
  import opened Wrappers
  import opened RuntimeState

  /** The `_loaded_*` fields are set and cleared together, and a model is loaded iff somebody holds a lease. */
  predicate HoldingInv(held: Holding) {
    && held.artifact.Some? == held.adapter.Some? == held.identity.Some?
    && (held.artifact.None? ==> held.input.None? && held.signatures == map[])
    && (held.artifact.Some? <==> held.leases != map[])
  }

  predicate LifecycleInv(lifecycle: Lifecycle, loaded: bool, idle: bool) {
    && lifecycle !in {Loading, Unloading}
    && (lifecycle == Unloaded ==> !loaded)
    && (lifecycle == Loaded ==> loaded && idle)
    && (lifecycle == Generating ==> loaded && !idle)
    && (!idle ==> lifecycle in {Generating, Error})
  }

  /** At most one request is active, and it would still be authorized now. */
  ghost predicate SlotInv(active: map<string, ActiveRequest>, held: Holding, arrivals: nat) {
    && (forall a, b :: a in active && b in active ==> a == b)
    && (forall a :: a in active ==>
          && active[a].request.id == a
          && active[a].ticket < arrivals
          && Some(active[a].adapter) == held.adapter
          && Authorize(held, active[a].request) == Authorized)
  }

  ghost predicate QueueInv(queue: map<string, Waiter>, last: nat, arrivals: nat) {
    && (forall k :: k in queue ==>
          queue[k].request.id == k && queue[k].sequence <= last && queue[k].ticket < arrivals)
    && (forall j, k :: j in queue && k in queue && j != k ==>
          && queue[j].sequence != queue[k].sequence
          && (queue[j].sequence < queue[k].sequence ==> queue[j].ticket < queue[k].ticket))
  }

  ghost predicate DistinctSequences(queue: map<string, Waiter>) {
    forall j, k :: j in queue && k in queue && j != k ==> queue[j].sequence != queue[k].sequence
  }

  /** An id is never both active and queued, and neither is a ticket. */
  ghost predicate ApartInv(active: map<string, ActiveRequest>, queue: map<string, Waiter>) {
    forall a, k :: a in active && k in queue ==> a != k && active[a].ticket != queue[k].ticket
  }

  /** Within a priority, admissions follow arrival, and nobody waiting arrived before an admitted peer. */
  ghost predicate OrderInv(admissions: seq<Admission>, queue: map<string, Waiter>, arrivals: nat) {
    && (forall i :: 0 <= i < |admissions| ==> admissions[i].ticket < arrivals)
    && (forall i, j :: 0 <= i < j < |admissions| && admissions[i].priority == admissions[j].priority ==>
          admissions[i].ticket < admissions[j].ticket)
    && (forall i, k :: 0 <= i < |admissions| && k in queue ==>
          && admissions[i].ticket != queue[k].ticket
          && (admissions[i].priority == queue[k].request.priority ==> admissions[i].ticket < queue[k].ticket))
  }

  ghost predicate CancelInv(
    cancelled: set<nat>, admissions: seq<Admission>, queue: map<string, Waiter>, arrivals: nat)
  {
    && (forall t :: t in cancelled ==> t < arrivals)
    && (forall k :: k in queue ==> (queue[k].cancelled <==> queue[k].ticket in cancelled))
    && (forall i :: 0 <= i < |admissions| ==> admissions[i].ticket !in cancelled)
  }

  ghost predicate Inv(s: State) {
    && HoldingInv(s.held)
    && LifecycleInv(s.lifecycle, s.held.IsLoaded(), s.active == map[])
    && SlotInv(s.active, s.held, s.arrivals)
    && QueueInv(s.queued, s.queueSequence, s.arrivals)
    && ApartInv(s.active, s.queued)
    && OrderInv(s.admissions, s.queued, s.arrivals)
    && CancelInv(s.cancelledTickets, s.admissions, s.queued, s.arrivals)
  }

  lemma SequencesDiffer(s: State)
    requires Inv(s)
    ensures DistinctSequences(s.queued)
  {
  }

  // ----- preservation, one lemma for each critical section --------------------------------------

  lemma AdmitKeepsInv(s: State, r: Request, ticket: nat)
    requires Inv(s) && s.active == map[] && Authorize(s.held, r) == Authorized
    requires ticket < s.arrivals && ticket !in s.cancelledTickets
    requires r.id !in s.queued
    requires forall k :: k in s.queued ==>
                           s.queued[k].ticket != ticket
                           && (s.queued[k].request.priority == r.priority ==> ticket < s.queued[k].ticket)
    requires forall i :: 0 <= i < |s.admissions| && s.admissions[i].priority == r.priority ==>
                           s.admissions[i].ticket < ticket
    ensures Inv(Admit(s, r, ticket))
  {
    assert r.id in Admit(s, r, ticket).active;
  }

  lemma DequeueKeepsInv(s: State, id: string)
    requires Inv(s)
    ensures Inv(Dequeue(s, id))
  {
  }

  lemma EnqueueKeepsQueueInv(queue: map<string, Waiter>, last: nat, arrivals: nat, w: Waiter)
    requires QueueInv(queue, last, arrivals)
    requires w.request.id !in queue && w.sequence == last + 1 && w.ticket == arrivals
    ensures QueueInv(queue[w.request.id := w], last + 1, arrivals + 1)
  {
  }

  lemma EnqueueKeepsHistory(s: State, w: Waiter)
    requires Inv(s) && w.request.id !in s.queued && w.ticket == s.arrivals && !w.cancelled
    ensures OrderInv(s.admissions, s.queued[w.request.id := w], s.arrivals + 1)
    ensures CancelInv(s.cancelledTickets, s.admissions, s.queued[w.request.id := w], s.arrivals + 1)
  {
  }

  function Queueing(s: State, r: Request): State {
    Enqueue(s.(arrivals := s.arrivals + 1), r, s.arrivals)
  }

  lemma EnqueueKeepsInv(s: State, r: Request)
    requires Inv(s) && r.id !in s.active && r.id !in s.queued
    ensures Inv(Queueing(s, r))
  {
    hide QueueInv, OrderInv, CancelInv, LifecycleInv, HoldingInv;
    var w := Waiter(r, s.queueSequence + 1, false, s.arrivals);
    EnqueueKeepsQueueInv(s.queued, s.queueSequence, s.arrivals, w);
    EnqueueKeepsHistory(s, w);
  }

  lemma AdmitAtOnceKeepsInv(s: State, r: Request)
    requires Inv(s) && s.active == map[] && s.queued == map[] && Authorize(s.held, r) == Authorized
    ensures Inv(Admit(s.(arrivals := s.arrivals + 1), r, s.arrivals))
  {
    AdmitKeepsInv(s.(arrivals := s.arrivals + 1), r, s.arrivals);
  }

  lemma WakeKeepsInv(s: State, id: string, expired: bool)
    requires Inv(s)
    ensures Inv(Wake(s, id, expired).0)
  {
    hide LifecycleInv, HoldingInv, SlotInv, ApartInv;
    if id in s.queued {
      DequeueKeepsInv(s, id);
      if Decide(s, id, expired) == Admitted {
        AdmitKeepsInv(Dequeue(s, id), s.queued[id].request, s.queued[id].ticket);
      }
    }
  }

  lemma ArriveKeepsInv(s: State, r: Request, expired: bool)
    requires Inv(s)
    ensures Inv(Arrive(s, r, expired).0)
  {
    if Authorize(s.held, r) != Authorized || r.id in s.active || r.id in s.queued {
    } else if s.active == map[] && s.queued == map[] {
      AdmitAtOnceKeepsInv(s, r);
    } else {
      EnqueueKeepsInv(s, r);
      WakeKeepsInv(Queueing(s, r), r.id, expired);
    }
  }

  lemma MarkKeepsQueue(s: State, id: string)
    requires Inv(s) && id in s.queued
    ensures var queue := s.queued[id := s.queued[id].(cancelled := true)];
      && QueueInv(queue, s.queueSequence, s.arrivals)
      && OrderInv(s.admissions, queue, s.arrivals)
      && ApartInv(s.active, queue)
  {
    hide LifecycleInv, HoldingInv, SlotInv, CancelInv;
  }

  lemma MarkKeepsCancelInv(s: State, id: string)
    requires Inv(s) && id in s.queued
    ensures CancelInv(s.cancelledTickets + {s.queued[id].ticket}, s.admissions,
                      s.queued[id := s.queued[id].(cancelled := true)], s.arrivals)
  {
    hide LifecycleInv, HoldingInv, SlotInv, ApartInv;
  }

  lemma CancelKeepsInv(s: State, id: string)
    requires Inv(s)
    ensures Inv(Cancel(s, id).0)
  {
    hide LifecycleInv, HoldingInv, SlotInv, ApartInv, CancelInv, OrderInv, QueueInv;
    if id !in s.active && id in s.queued {
      MarkKeepsQueue(s, id);
      MarkKeepsCancelInv(s, id);
    }
  }

  lemma FlagKeepsSlotInv(s: State, id: string, flagged: ActiveRequest)
    requires Inv(s) && id in s.active
    requires flagged.request == s.active[id].request && flagged.adapter == s.active[id].adapter
    requires flagged.ticket == s.active[id].ticket
    ensures Inv(s.(active := s.active[id := flagged]))
  {
    assert id in s.active[id := flagged];
  }

  lemma SignalKeepsInv(s: State, id: string, ticket: nat, timeout: bool)
    requires Inv(s)
    ensures Inv(Signal(s, id, ticket, timeout))
  {
    if id in s.active && s.active[id].ticket == ticket {
      FlagKeepsSlotInv(s, id, Signal(s, id, ticket, timeout).active[id]);
    }
  }

  lemma EndKeepsInv(s: State, id: string)
    requires Inv(s) && id in s.active
    ensures Inv(End(s, id))
  {
  }

  lemma GrantLeaseKeepsInv(s: State, owner: string, lease: string)
    requires Inv(s) && s.held.IsLoaded() && owner !in s.held.leases
    ensures Inv(s.(held := GrantLease(s.held, owner, lease)))
  {
    assert owner in GrantLease(s.held, owner, lease).leases;
  }

  lemma LoadKeepsInv(s: State, c: LoadCall)
    requires Inv(s)
    ensures Inv(Load(s, c).0)
  {
    if s.held.IsLoaded() {
      if c.owner !in s.held.leases {
        GrantLeaseKeepsInv(s, c.owner, c.newLease);
      }
    } else if c.engine.EngineLoaded? {
      assert c.owner in Install(s.held, c).leases;
    }
  }

  lemma UnloadKeepsInv(s: State, artifactId: Option<string>, owner: string, lease: Option<string>, engineOk: bool)
    requires Inv(s)
    ensures Inv(Unload(s, artifactId, owner, lease, engineOk).0)
  {
    if owner in s.held.leases {
      LastLease(s.held.leases, owner);
      assert HoldingInv(Release(s.held, owner)) <== |s.held.leases| <= 1;
      assert HoldingInv(RevokeLease(s.held, owner)) <== |s.held.leases| > 1;
    }
  }

  lemma LastLease(leases: map<string, string>, owner: string)
    requires owner in leases
    ensures |leases| > 1 <==> leases - {owner} != map[]
  {
    var rest := leases - {owner};
    assert leases.Keys == rest.Keys + {owner};
    assert |leases.Keys| == |rest.Keys| + 1;
    assert rest == map[] <==> rest.Keys == {};
  }

  lemma NextKeepsInv(s: State, a: Step)
    requires Inv(s) && Allowed(s, a)
    ensures Inv(Next(s, a))
  {
    match a
    case ArriveStep(r, expired) => ArriveKeepsInv(s, r, expired);
    case WakeStep(id, expired) => WakeKeepsInv(s, id, expired);
    case CancelStep(id) => CancelKeepsInv(s, id);
    case SignalStep(id, ticket, timeout) => SignalKeepsInv(s, id, ticket, timeout);
    case EndStep(id) => EndKeepsInv(s, id);
    case LoadStep(c) => LoadKeepsInv(s, c);
    case SelectFailStep =>
    case UnloadStep(artifactId, owner, lease, engineOk) => UnloadKeepsInv(s, artifactId, owner, lease, engineOk);
  }
}

/**
 RuntimeCore's lifecycle lock. Every method is one critical section, so it runs without interference;
 it changes the fields step by step as the code does and is proved to make exactly the transition that
 RuntimeState gives for it.
*/
module RuntimeCoreLock {
  import opened Wrappers
  import opened RuntimeState
  import opened SlotInvariants

  class RuntimeCore {
    var lifecycle: Lifecycle
    var loadedArtifact: Option<Artifact>
    var loadedAdapter: Option<string>
    var loadedInput: Option<string>
    var contentSignatures: map<string, nat>
    var loadIdentity: Option<string>
    var leases: map<string, string>
    var active: map<string, ActiveRequest>
    var queued: map<string, Waiter>
    var queueSequence: nat
    // history; the tickets that requests carry are numbered by `arrivals`
    var arrivals: nat
    ghost var admissions: seq<Admission>
    ghost var cancelledTickets: set<nat>

    ghost function Held(): Holding
      reads this
    {
      Holding(loadedArtifact, loadedAdapter, loadedInput, contentSignatures, loadIdentity, leases)
    }

    ghost function Snapshot(): State
      reads this
    {
      State(lifecycle, Held(), active, queued, queueSequence, arrivals, admissions, cancelledTickets)
    }

    ghost predicate Valid()
      reads this
    {
      Inv(Snapshot())
    }

    constructor ()
      ensures Valid() && Snapshot() == INIT
    {
      lifecycle, active, queued, queueSequence := Unloaded, map[], map[], 0;
      loadedArtifact, loadedAdapter, loadedInput, contentSignatures, loadIdentity := None, None, None, map[], None;
      leases, arrivals, admissions, cancelledTickets := map[], 0, [], {};
    }

    method AuthorizeRequest(r: Request) returns (answer: Authorization)
      ensures answer == Authorize(Held(), r)
    {
      if loadedArtifact.None? || loadedAdapter.None? {
        return NotLoaded;
      }
      if loadedInput.Some? {
        if r.input.None? || r.input.value != loadedInput.value {
          return InputMismatch;
        }
      } else if r.input.Some? {
        return InputMismatch;
      }
      if loadedArtifact.value.artifactId != r.artifactId {
        return OtherArtifact;
      }
      if r.consumer !in leases || (r.lease.Some? && r.lease.value != leases[r.consumer]) {
        return NoLease;
      }
      return Authorized;
    }

    /** The minimum of the queue under (rank, sequence). */
    static method QueueHead(queue: map<string, Waiter>) returns (head: string)
      requires queue != map[]
      requires DistinctSequences(queue)
      ensures IsHead(queue, head)
    {
      var rest := queue.Keys;
      assert rest != {};
      head :| head in rest;
      rest := rest - {head};
      while rest != {}
        invariant rest <= queue.Keys && head in queue
        invariant forall k :: k in queue && k !in rest && k != head ==> Before(queue[head], queue[k])
        decreases rest
      {
        var k :| k in rest;
        rest := rest - {k};
        if k != head && Before(queue[k], queue[head]) {
          head := k;
        }
      }
    }

    /** The tail of `_begin`: the second authorization, which cannot fail, and the slot's new owner. */
    method Occupy(r: Request, ticket: nat)
      requires active == map[] && Authorize(Held(), r) == Authorized
      modifies this
      ensures Snapshot() == Admit(old(Snapshot()), r, ticket)
    {
      var again := AuthorizeRequest(r);
      assert again == Authorized;
      lifecycle := Generating;
      active := active[r.id := ActiveRequest(r, loadedAdapter.value, false, false, ticket)];
      admissions := admissions + [Admission(ticket, r.priority)];
    }

    /** One pass through the waiting loop, by the thread of a queued request. */
    method WakeUp(id: string, expired: bool) returns (verdict: Verdict)
      requires Valid() && id in queued
      modifies this
      ensures Valid() && (Snapshot(), verdict) == Wake(old(Snapshot()), id, expired)
    {
      hide Inv;
      WakeKeepsInv(Snapshot(), id, expired);
      SequencesDiffer(Snapshot());
      var entry := queued[id];
      if entry.cancelled {
        queued := queued - {id};
        return CancelledInQueue;
      }
      var allowed := AuthorizeRequest(entry.request);
      if allowed != Authorized {
        queued := queued - {id};
        return Refused(allowed);
      }
      var head := QueueHead(queued);
      if active == map[] && head == id {
        queued := queued - {id};
        Occupy(entry.request, entry.ticket);
        return Admitted;
      }
      if expired {
        queued := queued - {id};
        return QueueTimeout;
      }
      return KeepsWaiting;
    }

    /** `_begin` up to its admission, its refusal, or its first wait. */
    method Begin(r: Request, expired: bool) returns (verdict: Verdict)
      requires Valid()
      modifies this
      ensures Valid() && (Snapshot(), verdict) == Arrive(old(Snapshot()), r, expired)
    {
      hide Inv, Wake, Admit, Authorize;
      ArriveKeepsInv(Snapshot(), r, expired);
      var allowed := AuthorizeRequest(r);
      if allowed != Authorized {
        return Refused(allowed);
      }
      if r.id in active || r.id in queued {
        return Duplicate;
      }
      EnqueueKeepsInv(Snapshot(), r);
      var ticket := arrivals;
      arrivals := arrivals + 1;
      if active == map[] && queued == map[] {
        Occupy(r, ticket);
        return Admitted;
      }
      queueSequence := queueSequence + 1;
      queued := queued[r.id := Waiter(r, queueSequence, false, ticket)];
      verdict := WakeUp(r.id, expired);
    }

    /** The locked section of `cancel`. */
    method CancelRequest(id: string) returns (found: Found)
      requires Valid()
      modifies `queued, `cancelledTickets
      ensures Valid() && (Snapshot(), found) == Cancel(old(Snapshot()), id)
    {
      hide Inv;
      CancelKeepsInv(Snapshot(), id);
      if id !in active && id in queued {
        cancelledTickets := cancelledTickets + {queued[id].ticket};
        queued := queued[id := queued[id].(cancelled := true)];
        return MarkedInQueue;
      }
      if id !in active {
        return FoundNothing;
      }
      return FoundActive(active[id].ticket);
    }

    /** The locked section of `_request_timeout`. */
    method FindTimedOut(id: string) returns (ticket: Option<nat>)
      ensures ticket == if id in active then Some(active[id].ticket) else None
    {
      if id !in active {
        return None;
      }
      return Some(active[id].ticket);
    }

    /** What both do to the request that they found, after they gave up the lock: its events are set. */
    method SetEvents(id: string, ticket: nat, timeout: bool)
      requires Valid()
      modifies `active
      ensures Valid() && Snapshot() == Signal(old(Snapshot()), id, ticket, timeout)
    {
      hide Inv;
      SignalKeepsInv(Snapshot(), id, ticket, timeout);
      if id in active && active[id].ticket == ticket {
        var request := active[id];
        if timeout {
          request := request.(timeoutEvent := true);
        }
        active := active[id := request.(cancelEvent := true)];
      }
    }

    /** `_end`, called by the holder of the slot. */
    method EndRequest(id: string)
      requires Valid() && id in active
      modifies this
      ensures Valid() && Snapshot() == End(old(Snapshot()), id)
    {
      hide Inv;
      EndKeepsInv(Snapshot(), id);
      active := active - {id};
      if lifecycle == Generating && loadedArtifact.Some? {
        lifecycle := Loaded;
      }
    }

    method AdapterSelectionFailed()
      requires Valid()
      modifies this
      ensures Valid() && Snapshot() == SelectionFailed(old(Snapshot()))
    {
      lifecycle := Error;
    }

    /** The engine loads, and on success the model and its first lease are recorded. */
    method InstallModel(c: LoadCall) returns (answer: LoadAnswer)
      modifies `lifecycle, `loadedArtifact, `loadedAdapter, `loadedInput, `contentSignatures, `loadIdentity, `leases
      ensures answer == if c.engine.EngineLoaded? then Installed(c.newLease) else LoadFailed
      ensures lifecycle == if c.engine.EngineLoaded? then Loaded else Error
      ensures Held() == if c.engine.EngineLoaded? then Install(old(Held()), c) else old(Held())
    {
      lifecycle := Loading;
      if c.engine.EngineLoadFailed? {
        lifecycle := Error;
        return LoadFailed;
      }
      loadedArtifact := Some(c.artifact);
      loadedInput := c.input;
      contentSignatures := c.signatures;
      loadedAdapter := Some(c.adapter);
      loadIdentity := Some(c.engine.effectiveIdentity);
      leases := leases[c.owner := c.newLease];
      lifecycle := Loaded;
      return Installed(leases[c.owner]);
    }

    /** The locked half of `_load_validated`; the engine runs inside it, with the lifecycle at LOADING. */
    method LoadValidated(c: LoadCall) returns (answer: LoadAnswer)
      requires Valid()
      modifies this
      ensures Valid() && (Snapshot(), answer) == Load(old(Snapshot()), c)
    {
      hide Inv;
      LoadKeepsInv(Snapshot(), c);
      if loadedArtifact.Some? && loadedAdapter.Some? {
        var sameBinding;
        if c.input.Some? && loadedInput.Some? {
          sameBinding := loadedInput.value == c.input.value;
        } else {
          sameBinding := c.input.None? && loadedInput.None? && loadedArtifact.value == c.artifact;
        }
        if sameBinding && loadedAdapter.value == c.adapter && loadIdentity == Some(c.identity) {
          if c.owner !in leases {
            leases := leases[c.owner := c.newLease];
          }
          return Reused(leases[c.owner]);
        }
        return LoadConflict;
      }
      if lifecycle == Loading || lifecycle == Unloading || lifecycle == Generating {
        return LifecycleBusy;
      }
      if !c.owedContentMatches {
        return ContentMismatch;
      }
      if !c.memoryOk {
        return HostMemoryInsufficient;
      }
      answer := InstallModel(c);
    }

    /** The last lease goes: the engine unloads, and on success every trace of the model is cleared. */
    method UnloadLast(owner: string, engineOk: bool) returns (answer: UnloadAnswer)
      modifies `lifecycle, `loadedArtifact, `loadedAdapter, `loadedInput, `contentSignatures, `loadIdentity, `leases
      ensures answer == if engineOk then EngineUnloaded(Unloaded) else UnloadFailed
      ensures lifecycle == if engineOk then Unloaded else Error
      ensures Held() == if engineOk then Release(old(Held()), owner) else old(Held())
    {
      lifecycle := Unloading;
      if !engineOk {
        lifecycle := Error;
        return UnloadFailed;
      }
      leases := leases - {owner};
      loadedArtifact, loadedAdapter, loadedInput, contentSignatures, loadIdentity := None, None, None, map[], None;
      lifecycle := Unloaded;
      return EngineUnloaded(lifecycle);
    }

    method UnloadModel(artifactId: Option<string>, owner: string, lease: Option<string>, engineOk: bool)
      returns (answer: UnloadAnswer)
      requires Valid()
      modifies this
      ensures Valid() && (Snapshot(), answer) == Unload(old(Snapshot()), artifactId, owner, lease, engineOk)
    {
      hide Inv, Release;
      UnloadKeepsInv(Snapshot(), artifactId, owner, lease, engineOk);
      if loadedArtifact.None? || loadedAdapter.None? {
        if lifecycle == Error {
          lifecycle := Unloaded;
        }
        return NothingLoaded(lifecycle);
      }
      if artifactId.Some? && artifactId.value != loadedArtifact.value.artifactId {
        return WrongArtifact;
      }
      if owner !in leases || (lease.Some? && lease.value != leases[owner]) {
        return NotLeaseholder;
      }
      if active != map[] {
        return RequestActive;
      }
      if |leases| > 1 {
        leases := leases - {owner};
        return LeaseReleased(Loaded);
      }
      answer := UnloadLast(owner, engineOk);
    }
  }
}

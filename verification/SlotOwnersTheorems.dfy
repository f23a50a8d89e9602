/** Slot conservation: every admission is matched by exactly one removal, made by its own owner. */
module SlotOwnersTheorems {
  import opened Wrappers
  import opened RuntimeState
  import opened SlotInvariants
  import opened SlotTheorems
  import opened SlotOwners
  import Gen = StreamIterators
  import Res = ReservedStream
  import Calls = GenerateCalls

  // ----- one owner -----------------------------------------------------------------------------------

  /** So many advances exhaust any stream of the plan. */
  function Budget(plan: Plan): nat {
    if plan.StreamPlan? then |plan.script| + 3 else 0
  }

  /** The generator that the plan calls for, before it is first advanced. */
  function Generator(plan: Plan): (it: Gen.Iterator)
    requires plan.StreamPlan?
    ensures Gen.Sound(it)
  {
    Gen.Fresh(plan.contract, plan.setup, plan.script)
  }

  ghost predicate WorkInv(plan: Plan, w: Work) {
    match w
    case Streaming(stream, advances) =>
      && plan.StreamPlan? && Res.Inv(stream) && Res.Delivers(stream, Generator(plan))
      && (!stream.consumed ==> advances == 0) && |stream.delivered| <= advances
      && (stream.generator.place == Gen.Finished || Gen.Remaining(stream.generator) + advances <= Budget(plan))
    case Calling(call) =>
      && plan.GeneratePlan?
      && call == if call.returned then Calls.Return(Calls.Begun(plan.plan)) else Calls.Begun(plan.plan)
  }

  /** The owner is done with the slot. */
  predicate IsOver(w: Work) {
    match w
    case Streaming(stream, _) => Gen.Released(stream.generator)
    case Calling(call) => call.returned
  }

  lemma OverIffEnded(plan: Plan, w: Work)
    requires WorkInv(plan, w)
    ensures Ends(w) == if IsOver(w) then 1 else 0
  {
    if w.Streaming? {
      Gen.SoundReleasesOnce(w.stream.generator);
    }
  }

  lemma StartKeeps(plan: Plan)
    ensures WorkInv(plan, Start(plan)) && Ends(Start(plan)) == 0
  {
    if plan.StreamPlan? {
      Res.OpenKeepsInv(Gen.Fresh(plan.contract, plan.setup, plan.script));
    }
  }

  lemma AdvancedIsConsumed(s: Res.Stream, a: Res.Step)
    requires Res.Inv(s) && Res.Enabled(s, a)
    ensures s.consumed ==> Res.Next(s, a).consumed
    ensures a.GeneratorReturns? ==> s.consumed
    ensures |Res.Next(s, a).delivered| <= |s.delivered| + if a.GeneratorReturns? then 1 else 0
  {
  }

  lemma MoveKeeps(plan: Plan, w: Work, a: Res.Step)
    requires w.Streaming? && WorkInv(plan, w) && Res.Enabled(w.stream, a)
    ensures WorkInv(plan, Moved(w, a)) && Ends(w) <= Ends(Moved(w, a)) <= 1
  {
    var t := Moved(w, a);
    AdvancedIsConsumed(w.stream, a);
    Res.DeliveryGoesOn(w.stream, a, Generator(plan));
    hide Res.Inv, Gen.Resume, Res.Delivers;
    Res.NextKeepsInv(w.stream, a);
    Res.GeneratorGoesOn(w.stream, a);
    OverIffEnded(plan, w);
    assert WorkInv(plan, t);
    OverIffEnded(plan, t);
  }

  lemma ReturnKeeps(plan: Plan, call: Calls.Call)
    requires WorkInv(plan, Calling(call)) && !call.returned
    ensures WorkInv(plan, Calling(Calls.Return(call))) && Calls.Return(call).ends == 1
  {
  }

  // ----- the invariant -------------------------------------------------------------------------------

  /** Somebody is active under this ticket. */
  ghost predicate IsActive(active: map<string, ActiveRequest>, ticket: nat) {
    exists a :: a in active && active[a].ticket == ticket
  }

  /** The request of that owner is the active one. */
  predicate Occupies(active: map<string, ActiveRequest>, ticket: nat, owner: Owner) {
    owner.id in active && active[owner.id].ticket == ticket
  }

  ghost predicate NoRepeats(s: seq<nat>) {
    forall i, j :: 0 <= i < j < |s| ==> s[i] != s[j]
  }

  /** Owners that are not done are the active entries, by ticket; the others have been removed, each once. */
  ghost predicate OwnersInv(
    active: map<string, ActiveRequest>, owners: map<nat, Owner>, removed: seq<nat>, arrivals: nat)
  {
    && (forall t :: t in owners ==> t < arrivals && WorkInv(owners[t].plan, owners[t].work))
    && (forall t :: t in owners ==> (Occupies(active, t, owners[t]) <==> !IsOver(owners[t].work)))
    && (forall t :: t in owners ==> (t in removed <==> IsOver(owners[t].work)))
    && (forall t :: t in removed ==> t in owners)
    && (forall a :: a in active ==> active[a].ticket in owners && owners[active[a].ticket].id == a)
    && NoRepeats(removed)
  }

  /** Exactly the admitted tickets have owners, and nobody who waits has one. */
  ghost predicate TicketsInv(admissions: seq<Admission>, queue: map<string, Waiter>, owners: map<nat, Owner>) {
    && (forall i :: 0 <= i < |admissions| ==> admissions[i].ticket in owners)
    && (forall t :: t in owners ==> exists i :: 0 <= i < |admissions| && admissions[i].ticket == t)
    && (forall k :: k in queue ==> queue[k].ticket !in owners)
  }

  ghost predicate SysInv(s: Sys) {
    && Inv(s.core)
    && OwnersInv(s.core.active, s.owners, s.removed, s.core.arrivals)
    && TicketsInv(s.core.admissions, s.core.queued, s.owners)
    && |s.core.admissions| == |s.removed| + |s.core.active|
  }

  // ----- steps of the runtime --------------------------------------------------------------------------

  /** The same requests are active, under the same tickets. */
  ghost predicate SameSlot(a: map<string, ActiveRequest>, b: map<string, ActiveRequest>) {
    a.Keys == b.Keys && forall id :: id in a ==> a[id].ticket == b[id].ticket
  }

  /** One request, the last admitted, has taken the free slot. */
  ghost predicate Entered(s: State, t: State, id: string) {
    && s.active == map[] && t.active.Keys == {id} && |t.admissions| == |s.admissions| + 1
    && t.active[id].ticket == t.admissions[|s.admissions|].ticket
    && (t.active[id].ticket == s.arrivals || (id in s.queued && s.queued[id].ticket == t.active[id].ticket))
  }

  lemma WakeEnters(s: State, id: string, expired: bool)
    requires Inv(s)
    ensures var t := Wake(s, id, expired).0;
      && s.admissions <= t.admissions
      && (if t.admissions == s.admissions then t.active == s.active
          else Entered(s, t, id) && id in s.queued && s.queued[id].ticket == t.active[id].ticket)
  {
    hide HoldingInv, LifecycleInv, OrderInv, CancelInv, IsHead;
  }

  lemma ArriveEnters(s: State, r: Request, expired: bool)
    requires Inv(s)
    ensures var t := Arrive(s, r, expired).0;
      && s.admissions <= t.admissions
      && (if t.admissions == s.admissions then t.active == s.active else Entered(s, t, r.id))
  {
    hide HoldingInv, LifecycleInv, OrderInv, CancelInv, IsHead, Wake;
    if Authorize(s.held, r) == Authorized && r.id !in s.active && r.id !in s.queued
      && (s.active != map[] || s.queued != map[])
    {
      EnqueueKeepsInv(s, r);
      WakeEnters(Queueing(s, r), r.id, expired);
    }
  }

  /** A step other than an end either keeps the slot or fills it. */
  lemma SlotIsKeptOrFilled(s: State, a: Step)
    requires Inv(s) && !a.EndStep?
    ensures var t := Next(s, a);
      && s.admissions <= t.admissions
      && (if t.admissions == s.admissions then SameSlot(s.active, t.active) else Entered(s, t, Candidate(a)))
  {
    hide Inv, Wake, Arrive;
    match a
    case ArriveStep(r, expired) => ArriveEnters(s, r, expired);
    case WakeStep(id, expired) => WakeEnters(s, id, expired);
    case _ =>
  }

  lemma SameSlotSameSize(a: map<string, ActiveRequest>, b: map<string, ActiveRequest>)
    requires SameSlot(a, b)
    ensures |a| == |b|
  {
    assert |a| == |a.Keys| && |b| == |b.Keys|;
  }

  lemma OneKey(a: map<string, ActiveRequest>, id: string)
    requires a.Keys == {id}
    ensures |a| == 1
  {
    assert |a| == |a.Keys|;
  }

  lemma KeptSlotKeepsOwners(
    a: map<string, ActiveRequest>, b: map<string, ActiveRequest>, owners: map<nat, Owner>, removed: seq<nat>,
    m: nat, n: nat)
    requires OwnersInv(a, owners, removed, m) && SameSlot(a, b) && m <= n
    ensures OwnersInv(b, owners, removed, n)
  {
    hide WorkInv, IsOver, NoRepeats;
    assert forall t :: t in owners ==> Occupies(b, t, owners[t]) == Occupies(a, t, owners[t]);
  }

  lemma FilledSlotKeepsOwners(
    b: map<string, ActiveRequest>, owners: map<nat, Owner>, removed: seq<nat>, m: nat, n: nat, id: string, plan: Plan)
    requires OwnersInv(map[], owners, removed, m) && m <= n && b.Keys == {id}
    requires b[id].ticket !in owners && b[id].ticket < n
    ensures OwnersInv(b, owners[b[id].ticket := Owner(id, plan, Start(plan))], removed, n)
  {
    StartKeeps(plan);
    OverIffEnded(plan, Start(plan));
    hide WorkInv, Start, Ends, NoRepeats;
    var ticket := b[id].ticket;
    forall t | t in owners ensures !Occupies(b, t, owners[t]) && IsOver(owners[t].work) {
      assert !Occupies(map[], t, owners[t]);
    }
  }

  /** Who waits now waited before, or has just arrived. */
  ghost predicate OldOrNew(s: State, t: State) {
    forall k :: k in t.queued ==> (
      || t.queued[k].ticket == s.arrivals
      || (k in s.queued && s.queued[k].ticket == t.queued[k].ticket))
  }

  lemma WaitersStay(s: State, a: Step, t: State)
    requires Inv(s) && t == Next(s, a)
    ensures s.arrivals <= t.arrivals && OldOrNew(s, t)
  {
    hide Next;
    NextReturnsNobody(s, a);
  }

  lemma KeepingStepKeeps(s: Sys, t: State)
    requires SysInv(s) && Inv(t) && t.admissions == s.core.admissions && SameSlot(s.core.active, t.active)
    requires s.core.arrivals <= t.arrivals && OldOrNew(s.core, t)
    ensures SysInv(s.(core := t))
  {
    KeptSlotKeepsOwners(s.core.active, t.active, s.owners, s.removed, s.core.arrivals, t.arrivals);
    SameSlotSameSize(s.core.active, t.active);
    KeptTickets(s, t);
    hide Inv, OwnersInv, TicketsInv;
  }

  lemma FillingStepKeeps(s: Sys, t: State, id: string, plan: Plan)
    requires SysInv(s) && Inv(t) && Entered(s.core, t, id) && s.core.admissions <= t.admissions
    requires s.core.arrivals <= t.arrivals && OldOrNew(s.core, t)
    ensures SysInv(s.(core := t, owners := s.owners[t.active[id].ticket := Owner(id, plan, Start(plan))]))
  {
    NewTicket(s, t, id);
    FilledSlotKeepsOwners(t.active, s.owners, s.removed, s.core.arrivals, t.arrivals, id, plan);
    OneKey(t.active, id);
    FilledTickets(s, t, id, plan);
    hide Inv, OwnersInv, TicketsInv, Start;
  }

  lemma RunOf(s: Sys, a: Step, plan: Plan, t: State)
    requires t == Next(s.core, a)
    ensures t.admissions == s.core.admissions ==> Run(s, a, plan) == s.(core := t)
    ensures var id := Candidate(a);
      Entered(s.core, t, id) ==>
        Run(s, a, plan) == s.(core := t, owners := s.owners[t.active[id].ticket := Owner(id, plan, Start(plan))])
  {
    hide Next, Start, Candidate;
  }

  lemma RuntimeStepKeeps(s: Sys, a: Step, plan: Plan)
    requires SysInv(s) && !a.EndStep?
    ensures SysInv(Run(s, a, plan))
  {
    assert Inv(s.core);
    hide Next, Start, SysInv, Inv, SameSlot, OldOrNew, Entered, Candidate, Run;
    var t := Next(s.core, a);
    NextKeepsInv(s.core, a);
    SlotIsKeptOrFilled(s.core, a);
    WaitersStay(s.core, a, t);
    RunOf(s, a, plan, t);
    if t.admissions == s.core.admissions {
      KeepingStepKeeps(s, t);
    } else {
      FillingStepKeeps(s, t, Candidate(a), plan);
    }
  }

  lemma KeptTickets(s: Sys, t: State)
    requires SysInv(s) && t.admissions == s.core.admissions
    requires OldOrNew(s.core, t)
    ensures TicketsInv(t.admissions, t.queued, s.owners)
  {
    hide Inv, NoRepeats, WorkInv, IsOver, Occupies;
  }

  lemma NewTicket(s: Sys, t: State, id: string)
    requires SysInv(s) && Inv(t) && Entered(s.core, t, id)
    ensures t.active[id].ticket !in s.owners && t.active[id].ticket < t.arrivals
  {
    hide HoldingInv, LifecycleInv, QueueInv, ApartInv, OrderInv, CancelInv, NoRepeats, WorkInv, IsOver, Occupies;
    if id in s.core.queued && s.core.queued[id].ticket == t.active[id].ticket {
      assert s.core.queued[id].ticket !in s.owners;
    }
  }

  lemma FilledTickets(s: Sys, t: State, id: string, plan: Plan)
    requires SysInv(s) && Inv(t) && Entered(s.core, t, id) && s.core.admissions <= t.admissions && OldOrNew(s.core, t)
    ensures TicketsInv(t.admissions, t.queued, s.owners[t.active[id].ticket := Owner(id, plan, Start(plan))])
  {
    var ticket := t.active[id].ticket;
    assert forall k :: k in t.queued ==> t.queued[k].ticket != ticket;
    assert forall k :: k in t.queued ==> t.queued[k].ticket !in s.owners;
    hide SysInv, Inv, Start;
    OneMoreTicket(s.core.admissions, t.admissions, s.core.queued, s.owners, Owner(id, plan, Start(plan)));
  }

  lemma OneMoreTicket(
    before: seq<Admission>, after: seq<Admission>, queue: map<string, Waiter>, owners: map<nat, Owner>, owner: Owner)
    requires TicketsInv(before, queue, owners) && before <= after && |after| == |before| + 1
    ensures TicketsInv(after, map[], owners[after[|before|].ticket := owner])
  {
    var n := |before|;
    assert forall i :: 0 <= i < n ==> after[i] == before[i];
    forall u | u in owners || u == after[n].ticket ensures exists i :: 0 <= i < |after| && after[i].ticket == u {
      if u != after[n].ticket {
        var i :| 0 <= i < n && before[i].ticket == u;
        assert after[i].ticket == u;
      }
    }
  }

  // ----- steps of the owners ---------------------------------------------------------------------------

  lemma OneEndCall(s: Sys, id: string)
    requires id in s.core.active
    ensures EndCalls(s, id, 0) == s
    ensures EndCalls(s, id, 1) == s.(core := End(s.core, id), removed := s.removed + [s.core.active[id].ticket])
  {
    assert EndCalls(s, id, 1 - 1) == s;
  }

  lemma UnfinishedOccupies(s: Sys, ticket: nat)
    requires SysInv(s) && ticket in s.owners && Ends(s.owners[ticket].work) < 1
    ensures Occupies(s.core.active, ticket, s.owners[ticket])
  {
    hide Inv, TicketsInv, NoRepeats, Ends, Occupies;
    var owner := s.owners[ticket];
    assert WorkInv(owner.plan, owner.work);
    hide WorkInv, IsOver;
    OverIffEnded(owner.plan, owner.work);
  }

  /** An owner that is not done occupies the slot, so the end that it may call is its own. */
  lemma OwnerEndsItsOwnRequest(s: Sys, ticket: nat, w: Work)
    requires SysInv(s) && ticket in s.owners
    requires WorkInv(s.owners[ticket].plan, w) && Ends(s.owners[ticket].work) < Ends(w) <= 1
    ensures var id := s.owners[ticket].id;
      && Allowed(s.core, EndStep(id)) && s.core.active[id].ticket == ticket
      && Use(s, ticket, w).core == End(s.core, id) && Use(s, ticket, w).removed == s.removed + [ticket]
  {
    hide SysInv, WorkInv, IsOver, Ends, End, EndCalls;
    var owner := s.owners[ticket];
    UnfinishedOccupies(s, ticket);
    OneEndCall(s.(owners := s.owners[ticket := owner.(work := w)]), owner.id);
  }

  lemma QuietUseKeepsOwners(
    active: map<string, ActiveRequest>, owners: map<nat, Owner>, removed: seq<nat>, n: nat, ticket: nat, w: Work)
    requires OwnersInv(active, owners, removed, n) && ticket in owners && WorkInv(owners[ticket].plan, w)
    requires IsOver(owners[ticket].work) == IsOver(w)
    ensures OwnersInv(active, owners[ticket := owners[ticket].(work := w)], removed, n)
  {
    hide WorkInv, IsOver, NoRepeats;
  }

  lemma QuietUseKeeps(s: Sys, ticket: nat, w: Work)
    requires SysInv(s) && ticket in s.owners && WorkInv(s.owners[ticket].plan, w)
    requires Ends(s.owners[ticket].work) == Ends(w)
    ensures SysInv(Use(s, ticket, w)) && Use(s, ticket, w).core == s.core && Use(s, ticket, w).removed == s.removed
  {
    var owner := s.owners[ticket];
    OverIffEnded(owner.plan, owner.work);
    OverIffEnded(owner.plan, w);
    QuietUseKeepsOwners(s.core.active, s.owners, s.removed, s.core.arrivals, ticket, w);
    SameTickets(s.core.admissions, s.core.queued, s.owners, ticket, owner.(work := w));
    hide Inv, OwnersInv, TicketsInv, Ends;
  }

  lemma SameTickets(
    admissions: seq<Admission>, queue: map<string, Waiter>, owners: map<nat, Owner>, ticket: nat, owner: Owner)
    requires TicketsInv(admissions, queue, owners) && ticket in owners
    ensures TicketsInv(admissions, queue, owners[ticket := owner])
  {
  }

  lemma EndingUseKeepsOwners(
    active: map<string, ActiveRequest>, owners: map<nat, Owner>, removed: seq<nat>, n: nat, ticket: nat, w: Work)
    requires OwnersInv(active, owners, removed, n) && (forall a, b :: a in active && b in active ==> a == b)
    requires ticket in owners && Occupies(active, ticket, owners[ticket])
    requires WorkInv(owners[ticket].plan, w) && IsOver(w)
    ensures OwnersInv(
      active - {owners[ticket].id}, owners[ticket := owners[ticket].(work := w)], removed + [ticket], n)
  {
    hide WorkInv, IsOver;
    var id := owners[ticket].id;
    assert active - {id} == map[];
    assert ticket !in removed;
    forall t | t in owners && t != ticket ensures !Occupies(active, t, owners[t]) {
      if owners[t].id in active {
        assert owners[t].id == id;
      }
    }
  }

  lemma OneActive(s: State)
    requires Inv(s)
    ensures forall a, b :: a in s.active && b in s.active ==> a == b
  {
  }

  lemma EndingUseKeeps(s: Sys, ticket: nat, w: Work)
    requires SysInv(s) && ticket in s.owners
    requires WorkInv(s.owners[ticket].plan, w) && Ends(s.owners[ticket].work) < Ends(w) <= 1
    ensures SysInv(Use(s, ticket, w))
  {
    var owner := s.owners[ticket];
    OwnerEndsItsOwnRequest(s, ticket, w);
    OverIffEnded(owner.plan, owner.work);
    OverIffEnded(owner.plan, w);
    EndKeepsInv(s.core, owner.id);
    OneActive(s.core);
    EndingUseKeepsOwners(s.core.active, s.owners, s.removed, s.core.arrivals, ticket, w);
    RemoveShrinks(s.core.active, owner.id);
    UseOwners(s, ticket, w);
    SameTickets(s.core.admissions, s.core.queued, s.owners, ticket, owner.(work := w));
    hide Inv, WorkInv, IsOver, Ends, OwnersInv, TicketsInv, Use;
  }

  lemma UseOwners(s: Sys, ticket: nat, w: Work)
    requires ticket in s.owners
    ensures Use(s, ticket, w).owners == s.owners[ticket := s.owners[ticket].(work := w)]
  {
    var calls := if Ends(w) > Ends(s.owners[ticket].work) then Ends(w) - Ends(s.owners[ticket].work) else 0;
    EndCallsLeaveOwners(
      s.(owners := s.owners[ticket := s.owners[ticket].(work := w)]), s.owners[ticket].id, calls);
  }

  lemma {:induction false} EndCallsLeaveOwners(s: Sys, id: string, n: nat)
    ensures EndCalls(s, id, n).owners == s.owners
  {
    if n > 0 {
      EndCallsLeaveOwners(s, id, n - 1);
    }
  }

  lemma UseKeeps(s: Sys, ticket: nat, w: Work)
    requires SysInv(s) && ticket in s.owners && WorkInv(s.owners[ticket].plan, w)
    requires Ends(s.owners[ticket].work) <= Ends(w) <= 1
    ensures SysInv(Use(s, ticket, w))
  {
    hide SysInv, WorkInv, Ends, Use;
    if Ends(s.owners[ticket].work) < Ends(w) {
      EndingUseKeeps(s, ticket, w);
    } else {
      QuietUseKeeps(s, ticket, w);
    }
  }

  /** The owner's work after its step; it never ends the request twice. */
  function NextWork(s: Sys, a: SysStep): Work
    requires !a.RuntimeStep? && Possible(s, a)
  {
    match a
    case StreamStep(ticket, move) => Moved(s.owners[ticket].work, move)
    case CallReturns(ticket) => Calling(Calls.Return(s.owners[ticket].work.call))
  }

  lemma NextWorkKeeps(s: Sys, a: SysStep)
    requires SysInv(s) && !a.RuntimeStep? && Possible(s, a)
    ensures var (owner, w) := (s.owners[a.ticket], NextWork(s, a));
      && WorkInv(owner.plan, w) && Ends(owner.work) <= Ends(w) <= 1 && SysNext(s, a) == Use(s, a.ticket, w)
  {
    assert WorkInv(s.owners[a.ticket].plan, s.owners[a.ticket].work);
    hide SysInv, WorkInv, Use;
    match a
    case StreamStep(ticket, move) => MoveKeeps(s.owners[ticket].plan, s.owners[ticket].work, move);
    case CallReturns(ticket) =>
      OverIffEnded(s.owners[ticket].plan, s.owners[ticket].work);
      ReturnKeeps(s.owners[ticket].plan, s.owners[ticket].work.call);
  }

  lemma SysNextKeeps(s: Sys, a: SysStep)
    requires SysInv(s) && Possible(s, a)
    ensures SysInv(SysNext(s, a))
  {
    hide SysInv, Run, Use, WorkInv, Ends;
    match a
    case RuntimeStep(step, plan) => RuntimeStepKeeps(s, step, plan);
    case StreamStep(ticket, _) =>
      NextWorkKeeps(s, a);
      UseKeeps(s, ticket, NextWork(s, a));
    case CallReturns(ticket) =>
      NextWorkKeeps(s, a);
      UseKeeps(s, ticket, NextWork(s, a));
  }

  lemma InitKeeps()
    ensures SysInv(INIT_SYS)
  {
  }

  lemma {:induction false} SysRunKeepsInv(states: seq<Sys>, steps: seq<SysStep>, i: nat)
    requires IsSysRun(states, steps) && i < |states|
    ensures SysInv(states[i])
  {
    hide SysInv, SysNext, Possible, INIT_SYS;
    if i == 0 {
      InitKeeps();
    } else {
      SysRunKeepsInv(states, steps, i - 1);
      assert Possible(states[i - 1], steps[i - 1]) && states[i - 1 + 1] == SysNext(states[i - 1], steps[i - 1]);
      SysNextKeeps(states[i - 1], steps[i - 1]);
    }
  }

  // ----- the theorems ------------------------------------------------------------------------------------

  /**
   In every run, a step of an owner either leaves the runtime alone, or makes one call of `_end`; the runtime
   allows it, and the entry that it removes carries the owner's own ticket.
  */
  lemma EndsAreAllowed(states: seq<Sys>, steps: seq<SysStep>, i: nat)
    requires IsSysRun(states, steps) && i < |steps| && !steps[i].RuntimeStep? && Possible(states[i], steps[i])
    ensures EndsAtMostItself(states[i], steps[i].ticket, NextWork(states[i], steps[i]), states[i + 1])
  {
    var s, a := states[i], steps[i];
    SysRunKeepsInv(states, steps, i);
    assert states[i + 1] == SysNext(s, a);
    NextWorkKeeps(s, a);
    hide IsSysRun, SysInv, SysNext, NextWork, EndsAtMostItself, Use, WorkInv, Ends;
    UseEnds(s, a.ticket, NextWork(s, a));
  }

  /** What the step of an owner to the work `w` does to the runtime. */
  ghost predicate EndsAtMostItself(s: Sys, ticket: nat, w: Work, t: Sys) {
    && ticket in s.owners
    && var (owner, id) := (s.owners[ticket], s.owners[ticket].id);
       if Ends(w) == Ends(owner.work) then t.core == s.core && t.removed == s.removed
       else
         && Ends(w) == Ends(owner.work) + 1
         && Allowed(s.core, EndStep(id)) && s.core.active[id].ticket == ticket
         && t.core == Next(s.core, EndStep(id)) && t.removed == s.removed + [ticket]
  }

  lemma UseEnds(s: Sys, ticket: nat, w: Work)
    requires SysInv(s) && ticket in s.owners && WorkInv(s.owners[ticket].plan, w)
    requires Ends(s.owners[ticket].work) <= Ends(w) <= 1
    ensures EndsAtMostItself(s, ticket, w, Use(s, ticket, w))
  {
    EndIsNext(s.core, s.owners[ticket].id);
    hide SysInv, WorkInv, Ends, Use, End, Next;
    if Ends(w) > Ends(s.owners[ticket].work) {
      OwnerEndsItsOwnRequest(s, ticket, w);
    } else {
      QuietUseKeeps(s, ticket, w);
    }
  }

  lemma EndIsNext(s: State, id: string)
    ensures Next(s, EndStep(id)) == End(s, id)
  {
  }

  /** So the runtime under its owners makes a run of RuntimeState, and every theorem about those runs applies to it. */
  lemma {:induction false} OwnersRunTheRuntime(states: seq<Sys>, steps: seq<SysStep>, i: nat)
    returns (cores: seq<State>, moves: seq<Step>)
    requires IsSysRun(states, steps) && i < |states|
    ensures |cores| == |moves| + 1 && IsRun(cores, moves) && cores[|moves|] == states[i].core
  {
    hide SysInv, Next, Use, NextWork;
    if i == 0 {
      cores, moves := [INIT], [];
    } else {
      cores, moves := OwnersRunTheRuntime(states, steps, i - 1);
      var s, a := states[i - 1], steps[i - 1];
      assert Possible(s, a) && states[i - 1 + 1] == SysNext(s, a);
      if a.RuntimeStep? {
        cores, moves := cores + [Next(s.core, a.step)], moves + [a.step];
      } else {
        EndsAreAllowed(states, steps, i - 1);
        if states[i].core != s.core {
          var id := s.owners[a.ticket].id;
          cores, moves := cores + [Next(s.core, EndStep(id))], moves + [EndStep(id)];
        }
      }
    }
  }

  /**
   Conservation: in every reachable state each admission has been matched by one removal, except that of the
   request that is active now; a ticket is removed at most once, and only if it was admitted.
  */
  lemma SlotIsConserved(states: seq<Sys>, steps: seq<SysStep>, i: nat, ticket: nat)
    requires IsSysRun(states, steps) && i < |states|
    ensures var s := states[i];
      && |s.core.admissions| == |s.removed| + |s.core.active| && |s.core.active| <= 1 && NoRepeats(s.removed)
      && ((exists j :: 0 <= j < |s.core.admissions| && s.core.admissions[j].ticket == ticket) <==>
          ticket in s.removed || IsActive(s.core.active, ticket))
      && !(ticket in s.removed && IsActive(s.core.active, ticket))
  {
    SysRunKeepsInv(states, steps, i);
    hide IsSysRun, WorkInv, IsOver, NoRepeats, HoldingInv, LifecycleInv, QueueInv, ApartInv, OrderInv, CancelInv;
    var s := states[i];
    AtMostOne(s.core.active);
    if ticket in s.owners {
      assert Occupies(s.core.active, ticket, s.owners[ticket]) <==> ticket !in s.removed;
    }
  }

  /** The owner has nothing left to do, or has been advanced as often as its adapter can answer. */
  ghost predicate HasRunOut(owner: Owner) {
    match owner.work
    case Calling(call) => call.returned
    case Streaming(stream, advances) =>
      (stream.closed && Res.Quiet(stream)) || advances >= Budget(owner.plan)
  }

  /**
   Every path ends in the one removal: an admitted ticket has been removed as soon as its call has returned, its
   stream is closed and nobody is inside it any more, or its stream was read to the end.
  */
  lemma AdmittedIsRemovedOnce(states: seq<Sys>, steps: seq<SysStep>, i: nat, ticket: nat)
    requires IsSysRun(states, steps) && i < |states| && ticket in states[i].owners
    ensures ticket in states[i].removed <==> IsOver(states[i].owners[ticket].work)
    ensures HasRunOut(states[i].owners[ticket]) ==> ticket in states[i].removed && NoRepeats(states[i].removed)
  {
    SysRunKeepsInv(states, steps, i);
    hide IsSysRun, NoRepeats, Inv, TicketsInv;
    var owner := states[i].owners[ticket];
    assert WorkInv(owner.plan, owner.work);
    if owner.work.Streaming? && HasRunOut(owner) {
      QuietStreamIsOver(owner.work.stream);
    }
  }

  lemma QuietStreamIsOver(stream: Res.Stream)
    requires Res.Inv(stream)
    ensures stream.closed && Res.Quiet(stream) ==> Gen.Released(stream.generator)
    ensures Gen.Remaining(stream.generator) == 0 ==> Gen.Released(stream.generator)
  {
    if stream.closed && Res.Quiet(stream) {
      assert Res.NoCloserMust(stream);
    }
  }

  /** The reader who gets the event that ends its stream finds the slot already free of its request. */
  lemma ClosingEventFindsSlotFree(states: seq<Sys>, steps: seq<SysStep>, i: nat, ticket: nat)
    requires IsSysRun(states, steps) && i < |steps| && steps[i] == StreamStep(ticket, Res.GeneratorReturns)
    requires Possible(states[i], steps[i])
    requires var g := states[i].owners[ticket].work.stream.generator;
      && Gen.Resume(g).1.Some?
      && match g.contract
         case V3 => Gen.Resume(Gen.Resume(g).0).1.None?
         case V1 => Gen.Resume(g).1.value.kind in {Gen.Completed, Gen.Failed}
    ensures ticket in states[i + 1].removed && !IsActive(states[i + 1].core.active, ticket)
  {
    EndsAreAllowed(states, steps, i);
    SysRunKeepsInv(states, steps, i);
    SysRunKeepsInv(states, steps, i + 1);
    hide IsSysRun;
    ClosingEventEnds(states[i], ticket);
    RemovedIsNotActive(states[i + 1], ticket);
  }

  lemma ClosingEventEnds(s: Sys, ticket: nat)
    requires SysInv(s) && Possible(s, StreamStep(ticket, Res.GeneratorReturns))
    requires var g := s.owners[ticket].work.stream.generator;
      && Gen.Resume(g).1.Some?
      && match g.contract
         case V3 => Gen.Resume(Gen.Resume(g).0).1.None?
         case V1 => Gen.Resume(g).1.value.kind in {Gen.Completed, Gen.Failed}
    ensures Ends(s.owners[ticket].work) == 0 && Ends(NextWork(s, StreamStep(ticket, Res.GeneratorReturns))) == 1
  {
    assert WorkInv(s.owners[ticket].plan, s.owners[ticket].work);
    hide Inv, OwnersInv, TicketsInv, Gen.Resume;
    Gen.TerminalEventComesAfterRelease(s.owners[ticket].work.stream.generator);
  }

  lemma RemovedIsNotActive(s: Sys, ticket: nat)
    requires SysInv(s) && ticket in s.removed
    ensures !IsActive(s.core.active, ticket)
  {
    hide Inv, NoRepeats, WorkInv, IsOver, TicketsInv;
    assert !Occupies(s.core.active, ticket, s.owners[ticket]);
  }

  /**
   A request whose stream nobody has read or closed can be cancelled, or time out, at any moment: the three steps of
   `release_if_unconsumed` free its slot, whatever its adapter does.
  */
  lemma UnreadStreamIsReleased(s: Sys, ticket: nat, closer: nat) returns (s1: Sys, s2: Sys, s3: Sys)
    requires SysInv(s) && ticket in s.owners && s.owners[ticket].work.Streaming?
    requires var stream := s.owners[ticket].work.stream; !stream.consumed && !stream.closed && closer !in stream.closers
    ensures Takes(s, StreamStep(ticket, Res.CloserEnters(closer, Res.ByRelease)), s1)
    ensures Takes(s1, StreamStep(ticket, Res.CloserClosing(closer)), s2)
    ensures Takes(s2, StreamStep(ticket, Res.CloserClosed(closer)), s3)
    ensures ticket in s3.removed && !IsActive(s3.core.active, ticket)
  {
    hide SysInv, SysNext, IsActive;
    s1 := CloserStep(s, StreamStep(ticket, Res.CloserEnters(closer, Res.ByRelease)));
    s2 := CloserStep(s1, StreamStep(ticket, Res.CloserClosing(closer)));
    s3 := CloserStep(s2, StreamStep(ticket, Res.CloserClosed(closer)));
    OverIsRemoved(s3, ticket);
    RemovedIsNotActive(s3, ticket);
  }

  ghost predicate Takes(s: Sys, a: SysStep, t: Sys) {
    Possible(s, a) && t == SysNext(s, a)
  }

  lemma OverIsRemoved(s: Sys, ticket: nat)
    requires SysInv(s) && ticket in s.owners && IsOver(s.owners[ticket].work)
    ensures ticket in s.removed
  {
  }

  lemma CloserStep(s: Sys, a: SysStep) returns (t: Sys)
    requires SysInv(s) && a.StreamStep? && !a.move.GeneratorReturns? && Possible(s, a)
    ensures Takes(s, a, t) && SysInv(t) && a.ticket in t.owners
    ensures t.owners[a.ticket].work.Streaming?
    ensures t.owners[a.ticket].work.stream == Res.Next(s.owners[a.ticket].work.stream, a.move)
  {
    t := SysNext(s, a);
    SysNextKeeps(s, a);
    UseOwners(s, a.ticket, Moved(s.owners[a.ticket].work, a.move));
  }

  // ----- an owner over a run -------------------------------------------------------------------------

  /** A step leaves an owner alone, or it is the owner's own. */
  lemma OwnerGoesOn(s: Sys, a: SysStep, ticket: nat)
    requires SysInv(s) && Possible(s, a) && ticket in s.owners
    ensures var t := SysNext(s, a);
      && ticket in t.owners
      && (if !a.RuntimeStep? && a.ticket == ticket then t.owners[ticket] == s.owners[ticket].(work := NextWork(s, a))
          else t.owners[ticket] == s.owners[ticket])
  {
    hide SysInv, Use, Run, Next, Moved;
    if a.RuntimeStep? {
      RunKeepsOwners(s, a.step, a.plan, ticket);
    } else {
      UseOwners(s, a.ticket, NextWork(s, a));
    }
  }

  lemma RunKeepsOwners(s: Sys, a: Step, plan: Plan, ticket: nat)
    requires SysInv(s) && !a.EndStep? && ticket in s.owners
    ensures ticket in Run(s, a, plan).owners && Run(s, a, plan).owners[ticket] == s.owners[ticket]
  {
    assert Inv(s.core);
    hide Next, Start, SysInv, Inv, SameSlot, Entered, Candidate, Run;
    var t := Next(s.core, a);
    NextKeepsInv(s.core, a);
    SlotIsKeptOrFilled(s.core, a);
    RunOf(s, a, plan, t);
    if t.admissions != s.core.admissions {
      NewTicket(s, t, Candidate(a));
    }
  }

  /** The owner's stream was released unread by that closer. */
  ghost predicate WasReleased(s: Sys, ticket: nat, closer: nat) {
    && ticket in s.owners && s.owners[ticket].work.Streaming?
    && Res.ReleasedBy(s.owners[ticket].work.stream, closer)
  }

  lemma ReleasedGoesOn(s: Sys, a: SysStep, ticket: nat, closer: nat)
    requires SysInv(s) && Possible(s, a) && WasReleased(s, ticket, closer)
    ensures WasReleased(SysNext(s, a), ticket, closer)
  {
    OwnerGoesOn(s, a, ticket);
    assert WorkInv(s.owners[ticket].plan, s.owners[ticket].work);
    hide SysInv, SysNext, Res.Inv, Res.ReleasedBy;
    if a.StreamStep? && a.ticket == ticket {
      Res.ReleaseGoesOn(s.owners[ticket].work.stream, a.move, closer);
    }
  }

  /** Nobody ever got anything from the stream, and the request is gone when the closer is done. */
  ghost predicate IsUnread(s: Sys, ticket: nat, closer: nat) {
    && ticket in s.owners && s.owners[ticket].work.Streaming? && closer in s.owners[ticket].work.stream.closers
    && s.owners[ticket].work.stream.closed
    && s.owners[ticket].work.advances == 0 && s.owners[ticket].work.stream.delivered == []
    && (s.owners[ticket].work.stream.closers[closer] == Res.Done ==> ticket in s.removed)
  }

  lemma ReleasedIsUnread(s: Sys, ticket: nat, closer: nat)
    requires SysInv(s) && WasReleased(s, ticket, closer)
    ensures IsUnread(s, ticket, closer)
  {
    assert WorkInv(s.owners[ticket].plan, s.owners[ticket].work);
    hide Inv, TicketsInv, NoRepeats;
    if s.owners[ticket].work.stream.closers[closer] == Res.Done {
      assert IsOver(s.owners[ticket].work);
    }
  }

  /** `release_if_unconsumed` enters a stream that nobody has read or closed. */
  ghost predicate Releases(s: Sys, a: SysStep, ticket: nat, closer: nat) {
    && a == StreamStep(ticket, Res.CloserEnters(closer, Res.ByRelease)) && Possible(s, a)
    && !s.owners[ticket].work.stream.consumed && !s.owners[ticket].work.stream.closed
  }

  lemma ReleaseIsBegun(s: Sys, a: SysStep, ticket: nat, closer: nat)
    requires SysInv(s) && Releases(s, a, ticket, closer)
    ensures WasReleased(SysNext(s, a), ticket, closer)
  {
    hide SysInv, SysNext, Res.ReleasedBy;
    OwnerGoesOn(s, a, ticket);
    Res.ReleaseBegins(s.owners[ticket].work.stream, closer);
  }

  lemma LengthOfSysRun(states: seq<Sys>, steps: seq<SysStep>)
    requires IsSysRun(states, steps)
    ensures |states| == |steps| + 1
  {
  }

  lemma StepOfSysRun(states: seq<Sys>, steps: seq<SysStep>, i: nat)
    requires IsSysRun(states, steps) && i < |steps|
    ensures SysInv(states[i]) && Possible(states[i], steps[i]) && states[i + 1] == SysNext(states[i], steps[i])
  {
    hide SysInv, SysNext, Possible;
    SysRunKeepsInv(states, steps, i);
  }

  lemma {:induction false} ReleasedStaysReleased(
    states: seq<Sys>, steps: seq<SysStep>, i: nat, j: nat, ticket: nat, closer: nat)
    requires IsSysRun(states, steps) && |states| == |steps| + 1
    requires i < j <= |steps| && Releases(states[i], steps[i], ticket, closer)
    ensures WasReleased(states[j], ticket, closer)
    decreases j
  {
    hide *;
    StepOfSysRun(states, steps, j - 1);
    if i == j - 1 {
      ReleaseIsBegun(states[i], steps[i], ticket, closer);
    } else {
      ReleasedStaysReleased(states, steps, i, j - 1, ticket, closer);
      ReleasedGoesOn(states[j - 1], steps[j - 1], ticket, closer);
    }
  }

  /**
   What the answer `released_unread_stream` says is true for ever: if `release_if_unconsumed` found the stream of a
   cancelled or timed-out request unread, no reader ever gets anything from it, and when the release returns the
   request has been removed.
  */
  lemma ReleasedStreamIsNeverRead(
    states: seq<Sys>, steps: seq<SysStep>, i: nat, j: nat, ticket: nat, closer: nat)
    requires IsSysRun(states, steps) && i < j < |states| && Releases(states[i], steps[i], ticket, closer)
    ensures IsUnread(states[j], ticket, closer)
  {
    hide *;
    LengthOfSysRun(states, steps);
    SysRunKeepsInv(states, steps, j);
    ReleasedStaysReleased(states, steps, i, j, ticket, closer);
    ReleasedIsUnread(states[j], ticket, closer);
  }

  /** A call that has returned gave the answer, saved the trace and ended the request as GenerateCalls specifies. */
  lemma ReturnedCallIsDone(states: seq<Sys>, steps: seq<SysStep>, i: nat, ticket: nat)
    requires IsSysRun(states, steps) && i < |states| && ticket in states[i].owners
    requires var work := states[i].owners[ticket].work; work.Calling? && work.call.returned
    ensures Calls.IsDone(states[i].owners[ticket].work.call) && ticket in states[i].removed
  {
    SysRunKeepsInv(states, steps, i);
    var owner := states[i].owners[ticket];
    assert WorkInv(owner.plan, owner.work);
    OverIsRemoved(states[i], ticket);
    hide SysInv, Calls.IsDone, Calls.Return, IsSysRun;
    Calls.ReturnKeepsPlan(Calls.Begun(owner.plan.plan));
    Calls.DoneIffReturned(owner.work.call);
  }

  /**
   The reader of an admitted stream gets the first events of the stream that StreamIterators describes, and all of
   them if the generator has ended and nobody closed it.
  */
  lemma ReaderGetsThePlan(states: seq<Sys>, steps: seq<SysStep>, i: nat, ticket: nat)
    requires IsSysRun(states, steps) && i < |states| && ticket in states[i].owners
    requires states[i].owners[ticket].work.Streaming?
    ensures var (plan, stream) := (states[i].owners[ticket].plan, states[i].owners[ticket].work.stream);
      && plan.StreamPlan? && stream.delivered <= Gen.ReadAll(Generator(plan))
      && (stream.closeCalls == 0 && stream.generator.place == Gen.Finished ==>
            stream.delivered == Gen.ReadAll(Generator(plan)))
  {
    SysRunKeepsInv(states, steps, i);
    var owner := states[i].owners[ticket];
    assert WorkInv(owner.plan, owner.work);
    hide SysInv, IsSysRun, Generator;
    if owner.work.stream.generator.place == Gen.Finished {
      assert Gen.ReadAll(owner.work.stream.generator) == [];
    }
  }
}

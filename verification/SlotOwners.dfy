/**
 The runtime together with those who hold its slot. Every admission hands the slot to a stream that was
 reserved for it, or to one of the two calls that generate a whole answer; from then on only that owner
 calls `_end`. Tickets tell the owners apart, ids may be used again.
*/
module SlotOwners {
  import opened Wrappers
  import opened RuntimeState
  import Gen = StreamIterators
  import Res = ReservedStream
  import Calls = GenerateCalls

  datatype Plan =
    | StreamPlan(contract: Gen.Contract, setup: Gen.Setup, script: seq<Gen.Pull>)
    | GeneratePlan(plan: Calls.CallPlan)

  /** `advances` counts how often the generator has been advanced (history). */
  datatype Work = Streaming(stream: Res.Stream, advances: nat) | Calling(call: Calls.Call)

  datatype Owner = Owner(id: string, plan: Plan, work: Work)

  /** `removed` lists the tickets of the requests that `_end` took out of `_active` (history). */
  datatype Sys = Sys(core: State, owners: map<nat, Owner>, removed: seq<nat>)

  const INIT_SYS: Sys := Sys(INIT, map[], [])

  function Start(plan: Plan): Work {
    match plan
    case StreamPlan(contract, setup, script) => Streaming(Res.Open(Gen.Fresh(contract, setup, script)), 0)
    case GeneratePlan(p) => Calling(Calls.Begun(p))
  }

  /** How often the owner has called `_end`. */
  function Ends(w: Work): nat {
    match w
    case Streaming(stream, _) => stream.generator.ends
    case Calling(call) => call.ends
  }

  /** `n` calls of `_end`, each of which may or may not find the id. */
  function EndCalls(s: Sys, id: string, n: nat): Sys {
    if n == 0 then s
    else
      var t := EndCalls(s, id, n - 1);
      t.(core := End(t.core, id),
         removed := if id in t.core.active then t.removed + [t.core.active[id].ticket] else t.removed)
  }

  /** An owner goes on; as often as that calls `_end`, the runtime makes the transition. */
  function Use(s: Sys, ticket: nat, w: Work): Sys
    requires ticket in s.owners
  {
    var owner := s.owners[ticket];
    var calls := if Ends(w) > Ends(owner.work) then Ends(w) - Ends(owner.work) else 0;
    EndCalls(s.(owners := s.owners[ticket := owner.(work := w)]), owner.id, calls)
  }

  datatype SysStep =
    | RuntimeStep(step: Step, plan: Plan)
    | StreamStep(ticket: nat, move: Res.Step)
    | CallReturns(ticket: nat)

  /** The request that an arrival or a wake-up may admit. */
  function Candidate(a: Step): string {
    match a
    case ArriveStep(r, _) => r.id
    case WakeStep(id, _) => id
    case _ => ""
  }

  /** Any step of the runtime but an end; if it admits somebody, `plan` says what for. */
  ghost function Run(s: Sys, a: Step, plan: Plan): Sys {
    var core := Next(s.core, a);
    if |core.admissions| > |s.core.admissions| then
      var ticket := core.admissions[|core.admissions| - 1].ticket;
      s.(core := core, owners := s.owners[ticket := Owner(Candidate(a), plan, Start(plan))])
    else s.(core := core)
  }

  function Moved(w: Work, a: Res.Step): Work
    requires w.Streaming?
  {
    Streaming(Res.Next(w.stream, a), if a.GeneratorReturns? then w.advances + 1 else w.advances)
  }

  predicate Possible(s: Sys, a: SysStep) {
    match a
    case RuntimeStep(step, _) => !step.EndStep?
    case StreamStep(ticket, move) =>
      ticket in s.owners && s.owners[ticket].work.Streaming? && Res.Enabled(s.owners[ticket].work.stream, move)
    case CallReturns(ticket) =>
      ticket in s.owners && s.owners[ticket].work.Calling? && !s.owners[ticket].work.call.returned
  }

  ghost function SysNext(s: Sys, a: SysStep): Sys
    requires Possible(s, a)
  {
    match a
    case RuntimeStep(step, plan) => Run(s, step, plan)
    case StreamStep(ticket, move) => Use(s, ticket, Moved(s.owners[ticket].work, move))
    case CallReturns(ticket) => Use(s, ticket, Calling(Calls.Return(s.owners[ticket].work.call)))
  }

  /** Any interleaving of the runtime's steps with those of every owner. */
  ghost predicate IsSysRun(states: seq<Sys>, steps: seq<SysStep>) {
    && |states| == |steps| + 1
    && states[0] == INIT_SYS
    && forall i :: 0 <= i < |steps| ==> Possible(states[i], steps[i]) && states[i + 1] == SysNext(states[i], steps[i])
  }
}

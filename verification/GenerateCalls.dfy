/** `generate` and `generate_v3`: one `try`, two `except` clauses, and a `finally` that frees the slot. */
module GenerateCalls {
  import opened Wrappers
  import opened StreamIterators

  /** `Interrupt` is what no `except` clause here catches, such as KeyboardInterrupt. */
  datatype Raised = Foundation(code: Code) | Foreign | Interrupt

  /** What each part of the `try` block raises, if anything, and what the two events are at each test. */
  datatype CallPlan = CallPlan(
    contract: Contract,
    resolves: Option<Raised>, timedOut: bool, prepares: Option<Raised>,
    engine: Option<Raised>, timedOutAfter: bool, builds: Option<Raised>,
    timedOutLater: bool, cancelled: bool)

  datatype Status = StillRunning | HasCompleted | WasCancelled | HasFailed | WasAbandoned

  /** A call between `_begin` and its return; `saved` is the status under which its trace was saved. */
  datatype Call = Call(
    plan: CallPlan, returned: bool, status: Status, answer: Result<(), Raised>,
    ends: nat, saves: nat, saved: Option<Status>)

  function Begun(plan: CallPlan): Call {
    Call(plan, false, StillRunning, Ok(()), 0, 0, None)
  }

  // ----- what a call is to do ----------------------------------------------------------------------

  /** `_raise_if_timed_out`. */
  function Timer(fired: bool): Option<Raised> {
    if fired then Some(Foundation(TimeoutCode)) else None
  }

  /** The places where the `try` block can be left, in order; `generate_v3` prepares while it resolves. */
  function Points(p: CallPlan): seq<Option<Raised>> {
    [p.resolves, Timer(p.timedOut)] + (if p.contract == V1 then [p.prepares] else [])
    + [p.engine, Timer(p.timedOutAfter), p.builds]
  }

  /** Point `i` is where the `try` block is left. */
  predicate LeavesAt(p: CallPlan, i: nat) {
    i < |Points(p)| && Points(p)[i].Some? && forall j :: 0 <= j < i ==> Points(p)[j].None?
  }

  predicate RunsThrough(p: CallPlan) {
    forall i :: 0 <= i < |Points(p)| ==> Points(p)[i].None?
  }

  /** A timeout that has fired by then takes the place of a Foundation error, and of nothing else. */
  function Reported(raised: Raised, timedOut: bool): Raised {
    match raised
    case Foundation(code) => Foundation(if timedOut then TimeoutCode else code)
    case Foreign => Foundation(OtherCode)
    case Interrupt => Interrupt
  }

  function ErrorOf(raised: Raised): Status {
    if raised == Foundation(CancelledCode) then WasCancelled else HasFailed
  }

  /** What `generate_v3` writes for a call that was interrupted while it ran; `generate` leaves it running. */
  function Interrupted(p: CallPlan): Status {
    if p.contract == V1 then StillRunning
    else if p.timedOutLater then HasFailed else if p.cancelled then WasCancelled else WasAbandoned
  }

  /** The status of a call whose `try` block was left at point `i`. */
  function StatusAfter(p: CallPlan, i: nat): Status
    requires LeavesAt(p, i)
  {
    var raised := Points(p)[i].value;
    if !raised.Interrupt? then ErrorOf(Reported(raised, p.timedOutLater))
    else if i == |Points(p)| - 1 then HasCompleted
    else Interrupted(p)
  }

  /** The call has done all it had to do: one answer, one saved trace, and one `_end`. */
  ghost predicate IsDone(c: Call) {
    && c.returned && c.ends == c.saves == 1 && c.saved == Some(c.status)
    && (RunsThrough(c.plan) ==> c.answer == Ok(()) && c.status == HasCompleted)
    && forall i: nat :: LeavesAt(c.plan, i) ==>
         c.answer == Err(Reported(Points(c.plan)[i].value, c.plan.timedOutLater)) && c.status == StatusAfter(c.plan, i)
  }

  lemma PointsOf(p: CallPlan)
    ensures var q := Points(p);
      && |q| == (if p.contract == V1 then 6 else 5)
      && q[0] == p.resolves && q[1] == Timer(p.timedOut) && q[|q| - 3] == p.engine
      && q[|q| - 2] == Timer(p.timedOutAfter) && q[|q| - 1] == p.builds
      && (p.contract == V1 ==> q[2] == p.prepares)
  {
  }

  // ----- the call as one transition ------------------------------------------------------------------

  /** The first point that is left, or the number of points. */
  function First(points: seq<Option<Raised>>): (i: nat)
    ensures i <= |points| && (i < |points| ==> points[i].Some?)
    ensures forall j :: 0 <= j < i ==> points[j].None?
  {
    if points == [] || points[0].Some? then 0 else 1 + First(points[1..])
  }

  /** Whatever the `try` block did, the `finally` clause saves the trace and ends the request. */
  function Return(c: Call): Call {
    var i := First(Points(c.plan));
    var through := i == |Points(c.plan)|;
    var status := if through then HasCompleted else StatusAfter(c.plan, i);
    var answer := if through then Ok(()) else Err(Reported(Points(c.plan)[i].value, c.plan.timedOutLater));
    c.(returned := true, status := status, answer := answer,
       ends := c.ends + 1, saves := c.saves + 1, saved := Some(status))
  }

  lemma ReturnKeepsPlan(c: Call)
    ensures Return(c).plan == c.plan && Return(c).returned
  {
  }

  lemma LeavesOnce(p: CallPlan)
    ensures forall i: nat :: LeavesAt(p, i) ==> i == First(Points(p))
    ensures RunsThrough(p) <==> First(Points(p)) == |Points(p)|
  {
  }

  /** The transition does what a call has to do, and that determines it. */
  lemma DoneIffReturned(c: Call)
    ensures IsDone(c) <==> c == Return(Begun(c.plan))
  {
    LeavesOnce(c.plan);
    var i := First(Points(c.plan));
    hide Points, StatusAfter, Reported;
    if i < |Points(c.plan)| {
      assert LeavesAt(c.plan, i);
    }
  }

  // ----- what the caller and the trace store see -----------------------------------------------------

  /** A result comes back exactly if no part failed and neither test found the timeout. */
  lemma OkIffNothingFailed(c: Call)
    requires IsDone(c)
    ensures var p := c.plan;
      c.answer.Ok? <==>
        && p.resolves.None? && (p.contract == V1 ==> p.prepares.None?) && p.engine.None? && p.builds.None?
        && !p.timedOut && !p.timedOutAfter
  {
    PointsOf(c.plan);
    LeavesOnce(c.plan);
    var i := First(Points(c.plan));
    hide Points, First, StatusAfter;
    if i < |Points(c.plan)| {
      assert LeavesAt(c.plan, i);
    }
    assert c.answer.Ok? <==> RunsThrough(c.plan);
  }

  /** A timeout is reported exactly if a Foundation error left the `try` block and was one, or came too late. */
  lemma TimeoutIffLateError(c: Call)
    requires IsDone(c)
    ensures c.answer == Err(Foundation(TimeoutCode)) <==>
      exists i: nat, code :: LeavesAt(c.plan, i)
        && Points(c.plan)[i] == Some(Foundation(code)) && (code == TimeoutCode || c.plan.timedOutLater)
  {
    LeavesOnce(c.plan);
    var i := First(Points(c.plan));
    hide Points, StatusAfter, First;
    if i < |Points(c.plan)| {
      assert LeavesAt(c.plan, i);
    }
  }

  /** A foreign exception is wrapped and an interrupt passes, whatever the timer does. */
  lemma OtherExceptions(c: Call, i: nat)
    requires IsDone(c) && LeavesAt(c.plan, i)
    ensures Points(c.plan)[i] == Some(Foreign) ==> c.answer == Err(Foundation(OtherCode))
    ensures Points(c.plan)[i] == Some(Interrupt) <==> c.answer == Err(Interrupt)
  {
  }

  /** The saved trace tells what the caller was told. */
  lemma SavedStatusIsAnswer(c: Call)
    requires IsDone(c)
    ensures c.answer.Ok? ==> c.saved == Some(HasCompleted)
    ensures forall code :: c.answer == Err(Foundation(code)) ==>
      c.saved == Some(if code == CancelledCode then WasCancelled else HasFailed)
  {
    LeavesOnce(c.plan);
    var i := First(Points(c.plan));
    hide Points, First;
    if i < |Points(c.plan)| {
      assert LeavesAt(c.plan, i);
    }
  }

  /** A trace is saved as still running exactly if `generate` was interrupted before it had its result. */
  lemma RunningIsSavedIff(c: Call)
    requires IsDone(c)
    ensures c.saved == Some(StillRunning) <==>
      && c.plan.contract == V1
      && (exists i: nat :: i < |Points(c.plan)| - 1 && LeavesAt(c.plan, i) && Points(c.plan)[i] == Some(Interrupt))
  {
    LeavesOnce(c.plan);
    var i := First(Points(c.plan));
    hide Points, First;
    if i < |Points(c.plan)| {
      assert LeavesAt(c.plan, i);
    }
  }

  predicate WasInterrupted(p: CallPlan) {
    exists i: nat :: i < |Points(p)| - 1 && LeavesAt(p, i) && Points(p)[i] == Some(Interrupt)
  }

  /** A call of `generate_v3` is saved as abandoned exactly if it was interrupted and neither event was set. */
  lemma InterruptedStatusIff(c: Call)
    requires IsDone(c) && c.plan.contract == V3
    ensures c.saved == Some(WasAbandoned) <==>
      WasInterrupted(c.plan) && !c.plan.timedOutLater && !c.plan.cancelled
    ensures c.saved == Some(WasCancelled) <==>
      || c.answer == Err(Foundation(CancelledCode))
      || (WasInterrupted(c.plan) && !c.plan.timedOutLater && c.plan.cancelled)
  {
    LeavesOnce(c.plan);
    var i := First(Points(c.plan));
    hide Points, First;
    if i < |Points(c.plan)| {
      assert LeavesAt(c.plan, i);
    }
  }

  // ----- the calls themselves ------------------------------------------------------------------------

  class Generation {
    const plan: CallPlan
    var returned: bool
    var status: Status
    var answer: Result<(), Raised>
    var ends: nat
    var saves: nat
    var saved: Option<Status>

    ghost function State(): Call
      reads this
    {
      Call(plan, returned, status, answer, ends, saves, saved)
    }

    constructor (plan: CallPlan)
      ensures State() == Begun(plan)
    {
      this.plan := plan;
      returned, status, answer, ends, saves, saved := false, StillRunning, Ok(()), 0, 0, None;
    }

    /** The `try` block: None if it reaches its `return`. The status is set before the result is built. */
    method Try() returns (raised: Option<Raised>)
      requires status == StillRunning
      modifies `status
      ensures if raised.None? then RunsThrough(plan)
        else exists i: nat :: LeavesAt(plan, i) && Points(plan)[i] == raised
      ensures status == if First(Points(plan)) >= |Points(plan)| - 1 then HasCompleted else StillRunning
    {
      PointsOf(plan);
      LeavesOnce(plan);
      hide Points, First;
      if plan.resolves.Some? {
        assert LeavesAt(plan, 0);
        return plan.resolves;
      }
      if plan.timedOut {
        assert LeavesAt(plan, 1);
        return Some(Foundation(TimeoutCode));
      }
      if plan.contract == V1 && plan.prepares.Some? {
        assert LeavesAt(plan, 2);
        return plan.prepares;
      }
      if plan.engine.Some? {
        assert LeavesAt(plan, |Points(plan)| - 3);
        return plan.engine;
      }
      if plan.timedOutAfter {
        assert LeavesAt(plan, |Points(plan)| - 2);
        return Some(Foundation(TimeoutCode));
      }
      status := HasCompleted;
      if plan.builds.Some? {
        assert LeavesAt(plan, |Points(plan)| - 1);
        return plan.builds;
      }
      return None;
    }

    /** The `except` clauses: what is raised instead, or on. */
    method HandleException(raised: Raised) returns (reported: Raised)
      modifies `status
      ensures reported == Reported(raised, plan.timedOutLater)
      ensures status == if raised.Interrupt? then old(status) else ErrorOf(reported)
    {
      match raised
      case Foundation(code) =>
        reported := raised;
        if plan.timedOutLater && code != TimeoutCode {
          reported := Foundation(TimeoutCode);
        }
        status := if reported.code == CancelledCode then WasCancelled else HasFailed;
      case Foreign =>
        status := HasFailed;
        reported := Foundation(OtherCode);
      case Interrupt =>
        reported := Interrupt;
    }

    /** The `finally` clause. */
    method RunFinally()
      modifies `status, `ends, `saves, `saved
      ensures status == if old(status) == StillRunning then Interrupted(plan) else old(status)
      ensures saved == Some(status) && saves == old(saves) + 1 && ends == old(ends) + 1
    {
      if plan.contract == V3 && status == StillRunning {
        status := if plan.timedOutLater then HasFailed else if plan.cancelled then WasCancelled else WasAbandoned;
      }
      saved := Some(status);
      saves := saves + 1;
      ends := ends + 1;
    }

    method Run()
      requires State() == Begun(plan)
      modifies this
      ensures IsDone(State()) && State() == Return(Begun(plan))
    {
      var raised := Try();
      if raised.Some? {
        var reported := HandleException(raised.value);
        answer := Err(reported);
      }
      RunFinally();
      returned := true;
      LeavesOnce(plan);
      hide Points, First, Return;
      DoneIffReturned(State());
    }
  }
}

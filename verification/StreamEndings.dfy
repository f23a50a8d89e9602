/** Which event closes a stream and what it says, from what the adapter did and when the timeout fired. */
module StreamEndings {
  import opened Wrappers
  import opened StreamIterators

  /** The adapter's answers after which nothing is passed on. */
  predicate EndsStream(contract: Contract, p: Pull) {
    match p.what
    case Event(e) =>
      || e.kind == Failed
      || (e.kind == Completed && (contract == V3 ==> e.hasResult))
      || (contract == V3 && p.timedOut)
    case _ => true
  }

  /** The first of them; an adapter whose script has run out is exhausted. */
  function Ending(contract: Contract, script: seq<Pull>): (p: Pull)
    ensures EndsStream(contract, p)
  {
    if script == [] then Pull(Exhausted, false, false)
    else if EndsStream(contract, script[0]) then script[0]
    else Ending(contract, script[1..])
  }

  /** A v1 adapter may end without a word, as long as no timeout has fired. */
  predicate IsSilent(contract: Contract, p: Pull) {
    contract == V1 && p.what.Exhausted? && !p.timedOut
  }

  /** The generation is complete and came in time. */
  predicate Completes(contract: Contract, p: Pull) {
    p.what.Event? && p.what.event.kind == Completed && !p.timedOut && (contract == V3 ==> p.what.event.hasResult)
  }

  /** A Foundation error: the adapter's own event or exception, or the complaint that no terminal event came. */
  predicate IsFoundationError(p: Pull) {
    p.what != Raises(None)
  }

  /**
   A test found the timeout: the first is made unless the adapter raised, the second when a Foundation error is
   handled. The v1 stream hands an error event on without the second one.
  */
  predicate TimeoutIsFound(contract: Contract, p: Pull) {
    || (p.timedOut && !p.what.Raises?)
    || (p.timedOutLater && IsFoundationError(p) && (contract == V1 ==> p.what.Raises?))
  }

  /** What an error event says if no timeout was found. */
  function OwnCode(p: Pull): Code {
    match p.what
    case Event(e) => e.code
    case Raises(code) => if code.Some? then code.value else OtherCode
    case Exhausted => OtherCode
  }

  /** A v1 stream hands on the adapter's own terminal event, except a completed one that came too late. */
  predicate IsHandedOn(contract: Contract, p: Pull) {
    contract == V1 && p.what.Event? && (p.what.event.kind == Completed ==> !p.timedOut)
  }

  /** `out` is the event that `p` calls for. */
  predicate Closes(contract: Contract, p: Pull, out: Out) {
    && out.kind == (if Completes(contract, p) then Completed else Failed)
    && out.code == (if Completes(contract, p) then None
                    else Some(if TimeoutIsFound(contract, p) then TimeoutCode else OwnCode(p)))
    && (if IsHandedOn(contract, p) then out.done == p.what.event.done && out.text == p.what.event.text
        else out.done && out.text == "")
  }

  lemma {:induction false} EndingIsNotSkipped(contract: Contract, script: seq<Pull>)
    ensures Ending(contract, AfterSkipped(contract, script)) == Ending(contract, script)
  {
    if script != [] && Skips(contract, script[0]) {
      EndingIsNotSkipped(contract, script[1..]);
    }
  }

  lemma StepCloses(it: Iterator)
    requires it.place == AtEvent && Sound(it)
    ensures var (script, (it1, out)) := (AfterSkipped(it.contract, it.script), Resume(it));
      var p := Ending(it.contract, script);
      if it1.place == AtEvent then
        && script != [] && it1.script == script[1..] && it1.contract == it.contract && out.Some? && Sound(it1)
        && p == Ending(it.contract, it1.script) && out.value.kind != Failed
      else
        && (out.None? <==> IsSilent(it.contract, p))
        && (out.Some? ==> Closes(it.contract, p, out.value) && it1.place == AtTerminal)
  {
    hide AfterSkipped;
  }

  /** The last event of a stream, if it has a closing one. */
  lemma {:induction false} LastCloses(it: Iterator)
    requires it.place == AtEvent && Sound(it)
    ensures var (outs, p) := (ReadAll(it), Ending(it.contract, it.script));
      !IsSilent(it.contract, p) ==> outs != [] && Closes(it.contract, p, outs[|outs| - 1])
    decreases |it.script|
  {
    EndingIsNotSkipped(it.contract, it.script);
    StepCloses(it);
    ReadOn(it);
    hide Resume, Ending, AfterSkipped, ReadAll, Closes, IsSilent, Sound;
    if Resume(it).0.place == AtEvent {
      LastCloses(Resume(it).0);
    }
  }

  /** The code under which a failed preparation is reported. */
  predicate IsPreparationCode(setup: Setup, code: Code) {
    match setup.fails
    case None => code == TimeoutCode
    case Some(None) => code == OtherCode
    case Some(Some(own)) => code == if setup.timedOutLater then TimeoutCode else own
  }

  predicate IsPrepared(setup: Setup) {
    setup.fails.None? && !setup.timedOut
  }

  /**
   How a fully read stream ends. After a failed preparation there is one error event and nothing else; otherwise
   the last event is the one that the ending of the script calls for, unless a v1 adapter ends in silence.
  */
  lemma ClosingEvent(contract: Contract, setup: Setup, script: seq<Pull>)
    ensures var (outs, p) := (ReadAll(Fresh(contract, setup, script)), Ending(contract, script));
      if IsPrepared(setup) then
        outs != [] && (!IsSilent(contract, p) ==> |outs| > 1 && Closes(contract, p, outs[|outs| - 1]))
      else
        exists code :: IsPreparationCode(setup, code) && outs == [Out(Failed, 1, true, "", Some(code))]
  {
    var it := Fresh(contract, setup, script);
    ReadOn(it);
    if IsPrepared(setup) {
      var it1 := Resume(it).0;
      assert it1.place == AtEvent && it1.script == script && it1.contract == contract;
      LastCloses(it1);
    } else {
      var code := Resume(it).1.value.code.value;
      assert IsPreparationCode(setup, code);
    }
  }

  /** In particular a v3 stream says "completed" exactly if a completed event with a result came in time. */
  lemma CompletedIffResultInTime(setup: Setup, script: seq<Pull>)
    ensures var outs := ReadAll(Fresh(V3, setup, script));
      outs != [] && (outs[|outs| - 1].kind == Completed <==> IsPrepared(setup) && Completes(V3, Ending(V3, script)))
  {
    ClosingEvent(V3, setup, script);
  }

  /** And a v1 stream has no closing event exactly if its adapter ends in silence. */
  lemma {:induction false} SilenceIff(script: seq<Pull>)
    ensures IsSilent(V1, Ending(V1, script)) <==> EndsInSilence(script)
  {
    if script != [] && !EndsStream(V1, script[0]) {
      SilenceIff(script[1..]);
    }
  }
}

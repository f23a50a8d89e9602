/**
 The generators behind `stream` and `stream_v3`, from their priming yield to their last event. The
 adapter is a script of what its iterator does each time it is pulled. Time is part of the script: each
 entry says whether the request's timeout had fired when the code tested it first, and when it tested
 it again. `ends` and `saves` count the calls of `_end` and of the trace store.
*/
module StreamIterators {
  import opened Wrappers

  datatype Contract = V1 | V3

  datatype Kind = Started | Delta | Completed | Failed

  datatype Code = TimeoutCode | CancelledCode | OtherCode

  datatype AdapterEvent = AdapterEvent(kind: Kind, done: bool, hasResult: bool, text: string, code: Code)

  /** A pull yields an event, ends the iterator, or raises; a foreign exception carries no code. */
  datatype What = Event(event: AdapterEvent) | Exhausted | Raises(code: Option<Code>)

  datatype Pull = Pull(what: What, timedOut: bool, timedOutLater: bool)

  /** The work between the priming yield and the started event. */
  datatype Setup = Setup(fails: Option<Option<Code>>, timedOut: bool, timedOutLater: bool)

  datatype Out = Out(kind: Kind, sequence: nat, done: bool, text: string, code: Option<Code>)

  /** Where the generator is suspended. */
  datatype Place = Primed | AtEvent | AtTerminal | Finished

  /** `terminal` is the flag of `stream_v3`, `finalized` the one of `stream`; each uses only its own. */
  datatype Iterator = Iterator(
    contract: Contract, setup: Setup, script: seq<Pull>,
    place: Place, sequence: nat, terminal: bool, finalized: bool, ends: nat, saves: nat)

  function Fresh(contract: Contract, setup: Setup, script: seq<Pull>): Iterator {
    Iterator(contract, setup, script, Primed, 0, false, false, 0, 0)
  }

  /** The two calls, `_save_v3_trace` or `_finish_trace`, and `_end`. */
  function SaveAndEnd(it: Iterator): Iterator {
    it.(saves := it.saves + 1, ends := it.ends + 1)
  }

  /** `finalize()` of `stream`. */
  function FinalizeOnce(it: Iterator): Iterator {
    if it.finalized then it else SaveAndEnd(it.(finalized := true))
  }

  /** What a terminal branch does before its yield: `stream_v3` sets its flag and does not test it. */
  function Settle(it: Iterator): Iterator {
    if it.contract == V1 then FinalizeOnce(it) else SaveAndEnd(it.(terminal := true))
  }

  /** The `finally` clause, which every exit from the `try` passes, the one after the terminal yield too. */
  function Finally(it: Iterator): Iterator {
    if it.contract == V1 then FinalizeOnce(it) else if it.terminal then it else SaveAndEnd(it)
  }

  function YieldLast(it: Iterator, out: Out): (Iterator, Option<Out>) {
    (Settle(it).(place := AtTerminal), Some(out))
  }

  function Leave(it: Iterator): Iterator {
    Finally(it).(place := Finished)
  }

  /** The `except` clauses: a timeout that has fired replaces the code of a Foundation error only. */
  function Raise(it: Iterator, code: Option<Code>, timedOutLater: bool): (Iterator, Option<Out>) {
    var c := if code.None? then OtherCode else if timedOutLater then TimeoutCode else code.value;
    YieldLast(it, Out(Failed, it.sequence + 1, true, "", Some(c)))
  }

  /** The event loops skip the adapter's own started events; `stream_v3` tests the timeout first. */
  predicate Skips(contract: Contract, p: Pull) {
    p.what.Event? && p.what.event.kind == Started && (contract == V3 ==> !p.timedOut)
  }

  function AfterSkipped(contract: Contract, script: seq<Pull>): (rest: seq<Pull>)
    ensures |rest| <= |script| && (rest != [] ==> !Skips(contract, rest[0]))
  {
    if script != [] && Skips(contract, script[0]) then AfterSkipped(contract, script[1..]) else script
  }

  /** The body of the loop of `stream_v3`, or what follows the loop, for a pull that is not skipped. */
  function ReactV3(it: Iterator, p: Pull): (Iterator, Option<Out>) {
    match p.what
    case Raises(code) => Raise(it, code, p.timedOutLater)
    case Exhausted => Raise(it, Some(if p.timedOut then TimeoutCode else OtherCode), p.timedOutLater)
    case Event(e) =>
      if p.timedOut then Raise(it, Some(TimeoutCode), p.timedOutLater)
      else
        var it1 := it.(sequence := it.sequence + 1);
        if e.kind == Completed && e.hasResult then
          YieldLast(it1, Out(Completed, it1.sequence, true, "", None))
        else if e.kind == Failed then
          if p.timedOutLater && e.code != TimeoutCode then Raise(it1, Some(TimeoutCode), true)
          else YieldLast(it1, Out(Failed, it1.sequence, true, "", Some(e.code)))
        else (it1.(place := AtEvent), Some(Out(e.kind, it1.sequence, e.done, e.text, None)))
  }

  /** The same for `stream`: it ends in silence when the adapter does, and hands on the adapter's own event. */
  function ReactV1(it: Iterator, p: Pull): (Iterator, Option<Out>) {
    match p.what
    case Raises(code) => Raise(it, code, p.timedOutLater)
    case Exhausted =>
      if p.timedOut then Raise(it, Some(TimeoutCode), p.timedOutLater) else (Leave(it), None)
    case Event(e) =>
      if e.kind == Completed && p.timedOut then Raise(it, Some(TimeoutCode), p.timedOutLater)
      else
        var it1 := it.(sequence := it.sequence + 1);
        if e.kind == Completed then
          YieldLast(it1, Out(Completed, it1.sequence, e.done, e.text, None))
        else if e.kind == Failed then
          var code := if p.timedOut then TimeoutCode else e.code;
          YieldLast(it1, Out(Failed, it1.sequence, e.done, e.text, Some(code)))
        else (it1.(place := AtEvent), Some(Out(e.kind, it1.sequence, e.done, e.text, None)))
  }

  /** One pull of the adapter, past skipped events; a script that has run out is an exhausted adapter. */
  function PullOnce(it: Iterator): (Iterator, Option<Out>) {
    var script := AfterSkipped(it.contract, it.script);
    var p := if script == [] then Pull(Exhausted, false, false) else script[0];
    var it1 := it.(script := if script == [] then [] else script[1..]);
    if it.contract == V3 then ReactV3(it1, p) else ReactV1(it1, p)
  }

  /** What `next` does to the generator, and what it returns; None is StopIteration. */
  function Resume(it: Iterator): (Iterator, Option<Out>) {
    match it.place
    case Primed =>
      if it.setup.fails.Some? then Raise(it, it.setup.fails.value, it.setup.timedOutLater)
      else if it.setup.timedOut then Raise(it, Some(TimeoutCode), it.setup.timedOutLater)
      else (it.(place := AtEvent), Some(Out(Started, 0, false, "", None)))
    case AtEvent => PullOnce(it)
    case AtTerminal => (Leave(it), None)
    case Finished => (it, None)
  }

  /** What `close` does: GeneratorExit at the yield, then the `finally` clause. */
  function Close(it: Iterator): Iterator {
    if it.place == Finished then it else Leave(it)
  }

  // ----- slot conservation -----------------------------------------------------------------------

  predicate Released(it: Iterator) {
    it.place == AtTerminal || it.place == Finished
  }

  /** The flags and the counts agree wherever the generator can stand. */
  predicate Sound(it: Iterator) {
    && it.saves == it.ends
    && match it.contract
       case V1 => !it.terminal && it.finalized == Released(it) && it.ends == if it.finalized then 1 else 0
       case V3 =>
         && !it.finalized
         && (it.place == AtTerminal ==> it.terminal) && (it.terminal ==> Released(it))
         && it.ends == if it.terminal || it.place == Finished then 1 else 0
  }

  /** So the slot has been freed, and the trace saved, exactly once if the generator is past its terminal point. */
  lemma SoundReleasesOnce(it: Iterator)
    requires Sound(it)
    ensures it.ends == it.saves == if Released(it) then 1 else 0
  {
  }

  /** The flag is what keeps the `finally` clause after the terminal yield from freeing the slot again. */
  lemma FinallyNeedsItsFlag(it: Iterator)
    requires Sound(it) && it.place == AtTerminal
    ensures Finally(it) == it
    ensures Finally(it.(terminal := false, finalized := false)).ends == 2
  {
  }

  datatype Use = UseNext | UseClose

  function Apply(it: Iterator, use: Use): Iterator {
    if use == UseClose then Close(it) else Resume(it).0
  }

  function After(it: Iterator, uses: seq<Use>): Iterator
    decreases |uses|
  {
    if uses == [] then it else After(Apply(it, uses[0]), uses[1..])
  }

  function Remaining(it: Iterator): nat {
    match it.place
    case Primed => |it.script| + 3
    case AtEvent => |it.script| + 2
    case AtTerminal => 1
    case Finished => 0
  }

  lemma ResumeReleasesOnce(it: Iterator)
    requires Sound(it)
    ensures Sound(Resume(it).0)
    ensures if it.place == Finished then Resume(it) == (it, None) else Remaining(Resume(it).0) < Remaining(it)
    ensures Released(it) ==> Released(Resume(it).0)
    ensures Resume(it).1.None? ==> Resume(it).0.place == Finished
  {
  }

  lemma {:induction false} UsesReleaseOnce(it: Iterator, uses: seq<Use>)
    requires Sound(it)
    ensures Sound(After(it, uses))
    ensures Released(it) || UseClose in uses || |uses| >= Remaining(it) ==> Released(After(it, uses))
    decreases |uses|
  {
    if uses != [] {
      ResumeReleasesOnce(it);
      UsesReleaseOnce(Apply(it, uses[0]), uses[1..]);
    }
  }

  /**
   Slot conservation. However a stream is used, `_end` is never called twice; it has been called once as
   soon as the stream was closed, at any point, or read as often as its adapter can answer.
  */
  lemma SlotIsReleasedExactlyOnce(contract: Contract, setup: Setup, script: seq<Pull>, uses: seq<Use>)
    ensures var it := After(Fresh(contract, setup, script), uses);
      && it.ends <= 1 && it.saves == it.ends
      && (UseClose in uses || |uses| >= |script| + 3 ==> it.ends == 1)
  {
    UsesReleaseOnce(Fresh(contract, setup, script), uses);
    SoundReleasesOnce(After(Fresh(contract, setup, script), uses));
  }

  // ----- the grammar of a v3 stream --------------------------------------------------------------

  /** Every event a reader sees who reads to the end. */
  function ReadAll(it: Iterator): seq<Out>
    requires Sound(it)
    decreases Remaining(it)
  {
    ResumeReleasesOnce(it);
    var (it1, out) := Resume(it);
    if out.None? then [] else [out.value] + ReadAll(it1)
  }

  /** The adapter's events that are passed on as they are, up to whatever ends the stream. */
  function PassedOn(script: seq<Pull>): seq<AdapterEvent> {
    if script == [] || !script[0].what.Event? || script[0].timedOut then []
    else
      var e := script[0].what.event;
      if e.kind == Failed || (e.kind == Completed && e.hasResult) then []
      else (if e.kind == Started then [] else [e]) + PassedOn(script[1..])
  }

  predicate Increasing(outs: seq<Out>) {
    forall i, j :: 0 <= i < j < |outs| ==> outs[i].sequence < outs[j].sequence
  }

  /** The stream ends with the adapter's error event, which a timeout that fired meanwhile replaces. */
  predicate TimeoutReplacesError(script: seq<Pull>) {
    && script != [] && script[0].what.Event? && !script[0].timedOut
    && var e := script[0].what.event;
       if e.kind == Failed then script[0].timedOutLater && e.code != TimeoutCode
       else !(e.kind == Completed && e.hasResult) && TimeoutReplacesError(script[1..])
  }

  /**
   `outs` are the events `es`, numbered on from `first`, and then one closing event, which is done. It takes
   the next number, or `skipped` is set and the number of the replaced event is left out.
  */
  predicate PassesOnThenDone(outs: seq<Out>, es: seq<AdapterEvent>, first: nat, skipped: bool) {
    && |outs| == |es| + 1
    && (forall i :: 0 <= i < |es| ==> outs[i] == Out(es[i].kind, first + i, es[i].done, es[i].text, None))
    && outs[|es|].done && outs[|es|].sequence == first + |es| + (if skipped then 1 else 0)
    && (outs[|es|].kind == Completed || outs[|es|].kind == Failed)
  }

  lemma {:induction false} AfterSkippedV3(script: seq<Pull>)
    ensures PassedOn(script) == PassedOn(AfterSkipped(V3, script))
    ensures TimeoutReplacesError(script) == TimeoutReplacesError(AfterSkipped(V3, script))
  {
    if script != [] && Skips(V3, script[0]) {
      AfterSkippedV3(script[1..]);
    }
  }

  lemma StepOfV3(it: Iterator)
    requires it.contract == V3 && it.place == AtEvent && Sound(it)
    ensures var (script, (it1, out)) := (AfterSkipped(V3, it.script), Resume(it));
      && out.Some?
      && if it1.place == AtEvent then
           && script != [] && script[0].what.Event? && it1.script == script[1..] && it1.contract == V3
           && PassedOn(script) == [script[0].what.event] + PassedOn(script[1..])
           && TimeoutReplacesError(script) == TimeoutReplacesError(script[1..])
           && it1.sequence == it.sequence + 1
           && var e := script[0].what.event; out == Some(Out(e.kind, it1.sequence, e.done, e.text, None))
         else
           && PassedOn(script) == [] && it1.place == AtTerminal && out.value.done
           && out.value.sequence == it.sequence + 1 + (if TimeoutReplacesError(script) then 1 else 0)
           && out.value.kind in {Completed, Failed}
  {
    hide AfterSkipped;
  }

  lemma DoneCons(o: Out, outs: seq<Out>, e: AdapterEvent, es: seq<AdapterEvent>, first: nat, skipped: bool)
    requires o == Out(e.kind, first, e.done, e.text, None) && PassesOnThenDone(outs, es, first + 1, skipped)
    ensures PassesOnThenDone([o] + outs, [e] + es, first, skipped)
  {
    assert forall i :: 0 < i < |[o] + outs| ==> ([o] + outs)[i] == outs[i - 1];
    assert forall i :: 0 < i < |[e] + es| ==> ([e] + es)[i] == es[i - 1];
  }

  lemma {:induction false} EventsOfV3(it: Iterator)
    requires it.contract == V3 && it.place == AtEvent && Sound(it)
    ensures PassesOnThenDone(ReadAll(it), PassedOn(it.script), it.sequence + 1, TimeoutReplacesError(it.script))
    decreases |it.script|
  {
    AfterSkippedV3(it.script);
    StepOfV3(it);
    ReadOn(it);
    hide Resume, PassedOn, AfterSkipped, ReadAll, TimeoutReplacesError;
    if Resume(it).0.place == AtEvent {
      hide PassesOnThenDone;
      var script := AfterSkipped(V3, it.script);
      EventsOfV3(Resume(it).0);
      DoneCons(Resume(it).1.value, ReadAll(Resume(it).0), script[0].what.event, PassedOn(script[1..]),
               it.sequence + 1, TimeoutReplacesError(it.script));
    }
  }

  lemma ShapeIncreases(outs: seq<Out>, es: seq<AdapterEvent>, skipped: bool)
    requires outs != [] && outs[0].sequence == 0 && PassesOnThenDone(outs[1..], es, 1, skipped)
    ensures Increasing(outs)
  {
    forall i | 0 <= i <= |es| ensures outs[i].sequence == i {
      assert i > 0 ==> outs[i] == outs[1..][i - 1];
    }
    assert outs[|es| + 1] == outs[1..][|es|];
  }

  /**
   A fully read v3 stream: a started event numbered 0 (unless the preparation failed), then the adapter's
   own events in order and unaltered, then one event that completes or fails the stream and is done.
   Sequence numbers strictly increase, without a gap unless a timeout replaces an error event.
  */
  lemma V3StreamShape(setup: Setup, script: seq<Pull>)
    ensures var outs, prepared := ReadAll(Fresh(V3, setup, script)), setup.fails.None? && !setup.timedOut;
      && Increasing(outs)
      && (prepared ==> outs != [] && outs[0] == Out(Started, 0, false, "", None)
                       && PassesOnThenDone(outs[1..], PassedOn(script), 1, TimeoutReplacesError(script)))
      && (!prepared ==> |outs| == 1 && outs[0].kind == Failed && outs[0].done)
  {
    var it := Fresh(V3, setup, script);
    var (it1, out) := Resume(it);
    var outs := ReadAll(it);
    assert outs == [out.value] + ReadAll(it1);
    if setup.fails.None? && !setup.timedOut {
      EventsOfV3(it1);
      assert outs[1..] == ReadAll(it1);
      ShapeIncreases(outs, PassedOn(script), TimeoutReplacesError(script));
    } else {
      assert ReadAll(it1) == [];
    }
  }

  predicate OnlyLastIsDone(outs: seq<Out>) {
    outs != [] && forall i :: 0 <= i < |outs| ==> (outs[i].done <==> i == |outs| - 1)
  }

  /** Exactly one event is done, the last, iff the adapter marks none of the events passed on as done. */
  lemma V3StreamDoneOnce(setup: Setup, script: seq<Pull>)
    requires setup.fails.None? && !setup.timedOut
    ensures OnlyLastIsDone(ReadAll(Fresh(V3, setup, script)))
       <==> forall e :: e in PassedOn(script) ==> !e.done
  {
    hide ReadAll, PassedOn, TimeoutReplacesError;
    V3StreamShape(setup, script);
    var outs, es := ReadAll(Fresh(V3, setup, script)), PassedOn(script);
    assert forall i :: 0 <= i < |es| ==> outs[i + 1] == outs[1..][i];
    assert outs[|es| + 1] == outs[1..][|es|];
    if OnlyLastIsDone(outs) {
      forall e | e in es ensures !e.done {
        var i :| 0 <= i < |es| && es[i] == e;
        assert !outs[i + 1].done;
      }
    }
  }

  // ----- the grammar of a v1 stream --------------------------------------------------------------

  /** The events that `stream` passes on before whatever ends it; it tests the timeout only then. */
  function PassedOnV1(script: seq<Pull>): seq<AdapterEvent> {
    if script == [] || !script[0].what.Event? then []
    else
      var e := script[0].what.event;
      if e.kind == Failed || e.kind == Completed then []
      else (if e.kind == Started then [] else [e]) + PassedOnV1(script[1..])
  }

  /** The adapter ends without a terminal event, and no timeout has fired. */
  predicate EndsInSilence(script: seq<Pull>) {
    script == []
    || (script[0].what.Exhausted? && !script[0].timedOut)
    || (script[0].what.Event? && script[0].what.event.kind != Failed && script[0].what.event.kind != Completed
        && EndsInSilence(script[1..]))
  }

  /** The events `es`, numbered on from `first`, and then a terminal event, or nothing. */
  predicate PassesOnThenEnds(outs: seq<Out>, es: seq<AdapterEvent>, first: nat, silent: bool) {
    && |outs| == |es| + (if silent then 0 else 1)
    && (forall i :: 0 <= i < |es| ==> outs[i] == Out(es[i].kind, first + i, es[i].done, es[i].text, None))
    && (!silent ==> outs[|es|].sequence == first + |es| && outs[|es|].kind in {Completed, Failed})
  }

  lemma {:induction false} AfterSkippedV1(script: seq<Pull>)
    ensures PassedOnV1(script) == PassedOnV1(AfterSkipped(V1, script))
    ensures EndsInSilence(script) == EndsInSilence(AfterSkipped(V1, script))
  {
    if script != [] && Skips(V1, script[0]) {
      AfterSkippedV1(script[1..]);
    }
  }

  lemma StepOfV1(it: Iterator)
    requires it.contract == V1 && it.place == AtEvent && Sound(it)
    ensures var (script, (it1, out)) := (AfterSkipped(V1, it.script), Resume(it));
      if it1.place == AtEvent then
        && script != [] && script[0].what.Event? && it1.script == script[1..] && it1.contract == V1 && Sound(it1)
        && PassedOnV1(script) == [script[0].what.event] + PassedOnV1(script[1..])
        && EndsInSilence(script) == EndsInSilence(script[1..])
        && it1.sequence == it.sequence + 1
        && var e := script[0].what.event; out == Some(Out(e.kind, it1.sequence, e.done, e.text, None))
      else
        && PassedOnV1(script) == [] && (out.None? <==> EndsInSilence(script))
        && (out.Some? ==> it1.place == AtTerminal && out.value.sequence == it.sequence + 1
                          && out.value.kind in {Completed, Failed})
  {
    hide AfterSkipped;
  }

  lemma EndsCons(o: Out, outs: seq<Out>, e: AdapterEvent, es: seq<AdapterEvent>, first: nat, silent: bool)
    requires o == Out(e.kind, first, e.done, e.text, None) && PassesOnThenEnds(outs, es, first + 1, silent)
    ensures PassesOnThenEnds([o] + outs, [e] + es, first, silent)
  {
    assert forall i :: 0 < i < |[o] + outs| ==> ([o] + outs)[i] == outs[i - 1];
    assert forall i :: 0 < i < |[e] + es| ==> ([e] + es)[i] == es[i - 1];
  }

  lemma LastOfV1(it: Iterator)
    requires it.contract == V1 && it.place == AtEvent && Sound(it) && Resume(it).0.place != AtEvent
    ensures PassesOnThenEnds(ReadAll(it), PassedOnV1(it.script), it.sequence + 1, EndsInSilence(it.script))
  {
    AfterSkippedV1(it.script);
    StepOfV1(it);
    ReadOn(it);
    hide Resume, PassedOnV1, EndsInSilence, AfterSkipped, ReadAll, PassesOnThenEnds;
    EndsAtOnce(Resume(it).1, it.sequence + 1);
  }

  lemma EndsAtOnce(out: Option<Out>, first: nat)
    requires out.Some? ==> out.value.sequence == first && out.value.kind in {Completed, Failed}
    ensures PassesOnThenEnds(if out.Some? then [out.value] else [], [], first, out.None?)
  {
  }

  lemma NumbersOfV1(outs: seq<Out>, es: seq<AdapterEvent>, silent: bool)
    requires outs != [] && outs[0].sequence == 0 && PassesOnThenEnds(outs[1..], es, 1, silent)
    ensures forall i :: 0 <= i < |outs| ==> outs[i].sequence == i
  {
    forall i | 0 <= i < |outs| ensures outs[i].sequence == i {
      assert i > 0 ==> outs[i] == outs[1..][i - 1];
    }
  }

  lemma {:induction false} EventsOfV1(it: Iterator)
    requires it.contract == V1 && it.place == AtEvent && Sound(it)
    ensures PassesOnThenEnds(ReadAll(it), PassedOnV1(it.script), it.sequence + 1, EndsInSilence(it.script))
    decreases |it.script|
  {
    AfterSkippedV1(it.script);
    StepOfV1(it);
    ReadOn(it);
    hide Resume, PassedOnV1, EndsInSilence, AfterSkipped, ReadAll, PassesOnThenEnds;
    if Resume(it).0.place == AtEvent {
      var script := AfterSkipped(V1, it.script);
      EventsOfV1(Resume(it).0);
      EndsCons(Resume(it).1.value, ReadAll(Resume(it).0), script[0].what.event, PassedOnV1(script[1..]),
               it.sequence + 1, EndsInSilence(it.script));
    } else {
      LastOfV1(it);
    }
  }

  /** Reading all is one `next` and then reading the rest; nothing comes after a terminal event. */
  lemma ReadOn(it: Iterator)
    requires Sound(it)
    ensures Sound(Resume(it).0)
    ensures Resume(it).1.None? ==> ReadAll(it) == []
    ensures Resume(it).1.Some? ==> ReadAll(it) == [Resume(it).1.value] + ReadAll(Resume(it).0)
    ensures Resume(it).1.Some? && Resume(it).0.place == AtTerminal ==> ReadAll(it) == [Resume(it).1.value]
  {
    ResumeReleasesOnce(it);
    hide PullOnce, Raise;
    if Resume(it).1.Some? && Resume(it).0.place == AtTerminal {
      assert ReadAll(Resume(it).0) == [];
    }
  }

  /**
   A fully read v1 stream whose preparation succeeds: the started event, the adapter's own events, and one
   terminal event, unless the adapter ends in silence; then the stream just stops. It is numbered 0, 1, 2, ...
  */
  lemma V1StreamShape(setup: Setup, script: seq<Pull>)
    requires setup.fails.None? && !setup.timedOut
    ensures var outs := ReadAll(Fresh(V1, setup, script));
      && outs != [] && outs[0] == Out(Started, 0, false, "", None)
      && PassesOnThenEnds(outs[1..], PassedOnV1(script), 1, EndsInSilence(script))
      && forall i :: 0 <= i < |outs| ==> outs[i].sequence == i
  {
    var (it1, out) := Resume(Fresh(V1, setup, script));
    var outs, es := ReadAll(Fresh(V1, setup, script)), PassedOnV1(script);
    assert outs == [out.value] + ReadAll(it1);
    EventsOfV1(it1);
    hide ReadAll, PassedOnV1, EndsInSilence, PassesOnThenEnds;
    assert outs[1..] == ReadAll(it1);
    NumbersOfV1(outs, es, EndsInSilence(script));
  }

  /**
   When the event that ends a stream becomes visible, the slot is free and the trace is saved: in v3 that is
   the event after which nothing comes, in v1 the first that completes or fails the stream.
  */
  lemma TerminalEventComesAfterRelease(it: Iterator)
    requires Sound(it) && Resume(it).1.Some?
    requires match it.contract
      case V3 => Resume(Resume(it).0).1.None?
      case V1 => Resume(it).1.value.kind in {Completed, Failed}
    ensures it.ends == it.saves == 0 && Resume(it).0.ends == Resume(it).0.saves == 1
  {
    ResumeReleasesOnce(it);
    if it.contract == V3 && Resume(it).0.place == AtEvent {
      ResumeReleasesOnce(Resume(it).0);
      StepOfV3(Resume(it).0);
    }
  }

  // ----- the generators themselves -----------------------------------------------------------------

  /** The local variables of the two `iterator` functions that decide what happens, changed in place. */
  class Generator {
    const contract: Contract
    const setup: Setup
    var script: seq<Pull>
    var place: Place
    var sequence: nat
    var terminal: bool
    var finalized: bool
    var ends: nat
    var saves: nat

    ghost function State(): Iterator
      reads this
    {
      Iterator(contract, setup, script, place, sequence, terminal, finalized, ends, saves)
    }

    constructor (contract: Contract, setup: Setup, script: seq<Pull>)
      ensures State() == Fresh(contract, setup, script)
    {
      this.contract, this.setup, this.script := contract, setup, script;
      place, sequence, terminal, finalized, ends, saves := Primed, 0, false, false, 0, 0;
    }

    method SaveTraceAndEnd()
      modifies `ends, `saves
      ensures State() == SaveAndEnd(old(State()))
    {
      saves := saves + 1;
      ends := ends + 1;
    }

    /** `finalize()` of `stream`. */
    method FinalizeStream()
      modifies `finalized, `ends, `saves
      ensures State() == FinalizeOnce(old(State()))
    {
      if finalized {
        return;
      }
      finalized := true;
      SaveTraceAndEnd();
    }

    /** A terminal branch, up to its yield. */
    method SettleAndYield()
      modifies `place, `terminal, `finalized, `ends, `saves
      ensures State() == Settle(old(State())).(place := AtTerminal)
    {
      if contract == V1 {
        FinalizeStream();
      } else {
        terminal := true;
        SaveTraceAndEnd();
      }
      place := AtTerminal;
    }

    /** The `finally` clause, and the end of the generator. */
    method RunFinally()
      modifies `place, `finalized, `ends, `saves
      ensures State() == Leave(old(State()))
    {
      if contract == V1 {
        FinalizeStream();
      } else if !terminal {
        SaveTraceAndEnd();
      }
      place := Finished;
    }

    method HandleError(code: Option<Code>, timedOutLater: bool) returns (out: Option<Out>)
      modifies `place, `terminal, `finalized, `ends, `saves
      ensures (State(), out) == Raise(old(State()), code, timedOutLater)
    {
      var c := OtherCode;
      if code.Some? {
        c := if timedOutLater && code.value != TimeoutCode then TimeoutCode else code.value;
      }
      out := Some(Out(Failed, sequence + 1, true, "", Some(c)));
      SettleAndYield();
    }

    /** `for event in adapter_events`, up to the next event that is not skipped. */
    method PullAdapter() returns (p: Pull)
      modifies `script
      ensures var rest := AfterSkipped(contract, old(script));
        if rest == [] then p == Pull(Exhausted, false, false) && script == []
        else p == rest[0] && script == rest[1..]
    {
      while script != []
        invariant AfterSkipped(contract, script) == AfterSkipped(contract, old(script))
        decreases |script|
      {
        p := script[0];
        script := script[1..];
        if !Skips(contract, p) {
          return;
        }
      }
      p := Pull(Exhausted, false, false);
    }

    method NextV3() returns (out: Option<Out>)
      requires contract == V3 && place == AtEvent
      modifies this
      ensures (State(), out) == PullOnce(old(State()))
    {
      var p := PullAdapter();
      if p.what.Raises? {
        out := HandleError(p.what.code, p.timedOutLater);
        return;
      }
      if p.timedOut {
        out := HandleError(Some(TimeoutCode), p.timedOutLater);
        return;
      }
      if p.what.Exhausted? {
        out := HandleError(Some(OtherCode), p.timedOutLater);
        return;
      }
      var event := p.what.event;
      sequence := sequence + 1;
      if event.kind == Completed && event.hasResult {
        out := Some(Out(Completed, sequence, true, "", None));
        SettleAndYield();
      } else if event.kind == Failed {
        if p.timedOutLater && event.code != TimeoutCode {
          out := HandleError(Some(TimeoutCode), true);
        } else {
          out := Some(Out(Failed, sequence, true, "", Some(event.code)));
          SettleAndYield();
        }
      } else {
        out := Some(Out(event.kind, sequence, event.done, event.text, None));
      }
    }

    method NextV1() returns (out: Option<Out>)
      requires contract == V1 && place == AtEvent
      modifies this
      ensures (State(), out) == PullOnce(old(State()))
    {
      var p := PullAdapter();
      if p.what.Raises? {
        out := HandleError(p.what.code, p.timedOutLater);
        return;
      }
      if p.timedOut && (p.what.Exhausted? || p.what.event.kind == Completed) {
        out := HandleError(Some(TimeoutCode), p.timedOutLater);
        return;
      }
      if p.what.Exhausted? {
        RunFinally();
        return None;
      }
      var event := p.what.event;
      sequence := sequence + 1;
      if event.kind == Completed {
        SettleAndYield();
        out := Some(Out(Completed, sequence, event.done, event.text, None));
      } else if event.kind == Failed {
        var code := event.code;
        if p.timedOut && code != TimeoutCode {
          code := TimeoutCode;
        }
        SettleAndYield();
        out := Some(Out(Failed, sequence, event.done, event.text, Some(code)));
      } else {
        out := Some(Out(event.kind, sequence, event.done, event.text, None));
      }
    }

    method Next() returns (out: Option<Out>)
      modifies this
      ensures (State(), out) == Resume(old(State()))
    {
      match place
      case Primed =>
        if setup.fails.Some? {
          out := HandleError(setup.fails.value, setup.timedOutLater);
        } else if setup.timedOut {
          out := HandleError(Some(TimeoutCode), setup.timedOutLater);
        } else {
          place := AtEvent;
          out := Some(Out(Started, 0, false, "", None));
        }
      case AtEvent =>
        if contract == V3 {
          out := NextV3();
        } else {
          out := NextV1();
        }
      case AtTerminal =>
        RunFinally();
        out := None;
      case Finished =>
        out := None;
    }

    method CloseNow()
      modifies this
      ensures State() == Close(old(State()))
    {
      if place != Finished {
        RunFinally();
      }
    }
  }

  // ----- the trace store ------------------------------------------------------------------------

  const TRACE_LIMIT: nat := 256

  /** `_save_v3_trace` on a dictionary in insertion order, for an execution that is not in it yet. */
  function SaveTrace(store: seq<string>, execution: string): seq<string> {
    var grown := store + [execution];
    if |grown| > TRACE_LIMIT then grown[1..] else grown
  }

  function SaveAll(executions: seq<string>): seq<string> {
    if executions == [] then []
    else SaveTrace(SaveAll(executions[..|executions| - 1]), executions[|executions| - 1])
  }

  /** The store holds exactly the most recently saved executions, in order, and at most 256 of them. */
  lemma {:induction false} StoreHoldsMostRecent(executions: seq<string>)
    ensures var n := |executions|;
      SaveAll(executions) == if n <= TRACE_LIMIT then executions else executions[n - TRACE_LIMIT..]
  {
    var n := |executions|;
    if n > 0 {
      StoreHoldsMostRecent(executions[..n - 1]);
      assert executions[..n - 1] + [executions[n - 1]] == executions;
    }
  }
}

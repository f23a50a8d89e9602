/**
 `_ReservedStream`: three flags under a lock, one reader, and any number of threads that call `close` or
 `release_if_unconsumed`. A step is one critical section, or the start or the end of a call into the
 wrapped generator, which is any generator of StreamIterators.
*/
module ReservedStream {
  import opened Wrappers
  import Gen = StreamIterators

  /** The reader: outside; past its entry section; inside next(); back from next(); owing a close; inside close(). */
  datatype ReaderPlace = Outside | Entered | Advancing | Returned | ReaderOwesClose | ReaderInClose

  datatype CloserPlace = OwesCancel | OwesClose | InClose | Done

  datatype Closer = ByClose | ByRelease

  datatype Stream = Stream(
    consumed: bool, running: bool, closed: bool,
    reader: ReaderPlace, closers: map<nat, CloserPlace>, generator: Gen.Iterator,
    // history: completed calls of the generator's close, and of the engine's cancel; what the reader has got
    closeCalls: nat, cancelCalls: nat, delivered: seq<Gen.Out>)

  function Open(generator: Gen.Iterator): Stream {
    Stream(false, false, false, Outside, map[], generator, 0, 0, [])
  }

  datatype Step =
    | ReaderEnters
    | ReaderAdvances
    | GeneratorReturns
    | ReaderLeaves
    | ReaderClosing
    | ReaderClosed
    | CloserEnters(id: nat, via: Closer)
    | CloserCancels(id: nat)
    | CloserClosing(id: nat)
    | CloserClosed(id: nat)

  predicate Enabled(s: Stream, a: Step) {
    match a
    case ReaderEnters => s.reader == Outside
    case ReaderAdvances => s.reader == Entered
    case GeneratorReturns => s.reader == Advancing
    case ReaderLeaves => s.reader == Returned
    case ReaderClosing => s.reader == ReaderOwesClose
    case ReaderClosed => s.reader == ReaderInClose
    case CloserEnters(id, _) => id !in s.closers
    case CloserCancels(id) => id in s.closers && s.closers[id] == OwesCancel
    case CloserClosing(id) => id in s.closers && s.closers[id] == OwesClose
    case CloserClosed(id) => id in s.closers && s.closers[id] == InClose
  }

  function Move(s: Stream, id: nat, place: CloserPlace): Stream {
    s.(closers := s.closers[id := place])
  }

  function Next(s: Stream, a: Step): Stream {
    match a
    case ReaderEnters => if s.closed then s else s.(consumed := true, running := true, reader := Entered)
    case ReaderAdvances => s.(reader := Advancing)
    case GeneratorReturns =>
      var (generator, out) := Gen.Resume(s.generator);
      s.(generator := generator, reader := Returned,
         delivered := if out.Some? then s.delivered + [out.value] else s.delivered)
    case ReaderLeaves => s.(running := false, reader := if s.closed then ReaderOwesClose else Outside)
    case ReaderClosing => s.(reader := ReaderInClose)
    case ReaderClosed =>
      s.(generator := Gen.Close(s.generator), closeCalls := s.closeCalls + 1, reader := Outside)
    case CloserEnters(id, via) =>
      if s.closed || (via == ByRelease && s.consumed) then Move(s, id, Done)
      else Move(s.(closed := true), id, if via == ByClose && s.running then OwesCancel else OwesClose)
    case CloserCancels(id) => Move(s.(cancelCalls := s.cancelCalls + 1), id, Done)
    case CloserClosing(id) => Move(s, id, InClose)
    case CloserClosed(id) =>
      Move(s.(generator := Gen.Close(s.generator), closeCalls := s.closeCalls + 1), id, Done)
  }

  /** Any interleaving of the reader and the closers, from a stream nobody has touched. */
  ghost predicate IsRun(states: seq<Stream>, steps: seq<Step>) {
    && |states| == |steps| + 1
    && Gen.Sound(states[0].generator) && states[0] == Open(states[0].generator)
    && forall i :: 0 <= i < |steps| ==> Enabled(states[i], steps[i]) && states[i + 1] == Next(states[i], steps[i])
  }

  // ----- the invariant ---------------------------------------------------------------------------

  predicate ReaderRunning(s: Stream) {
    s.reader == Entered || s.reader == Advancing || s.reader == Returned
  }

  predicate ReaderMustClose(s: Stream) {
    s.reader == ReaderOwesClose || s.reader == ReaderInClose
  }

  predicate MustClose(s: Stream, id: nat) {
    id in s.closers && (s.closers[id] == OwesClose || s.closers[id] == InClose)
  }

  ghost predicate NoCloserMust(s: Stream) {
    forall id: nat :: !MustClose(s, id)
  }

  /** Before the stream is closed nobody owes a close; afterwards exactly one party does, or has paid. */
  ghost predicate Inv(s: Stream) {
    && s.running == ReaderRunning(s)
    && (s.reader != Outside ==> s.consumed)
    && (forall i: nat, j: nat :: MustClose(s, i) && MustClose(s, j) ==> i == j)
    && (ReaderMustClose(s) ==> s.closed)
    && (!NoCloserMust(s) ==> s.closed && s.reader == Outside && s.closeCalls == 0)
    && (s.closed && NoCloserMust(s) && s.reader == Outside ==> s.closeCalls == 1)
    && (!s.closed || s.reader != Outside ==> s.closeCalls == 0)
    && s.closeCalls <= 1
    && Gen.Sound(s.generator)
    && (s.closeCalls == 1 ==> s.generator.place == Gen.Finished)
  }

  lemma SameDebts(s: Stream, t: Stream)
    requires forall i: nat :: MustClose(t, i) == MustClose(s, i)
    ensures NoCloserMust(t) == NoCloserMust(s)
  {
    if !NoCloserMust(s) {
      var i: nat :| MustClose(s, i);
      assert MustClose(t, i);
    }
  }

  /** A step that leaves every closer's debt as it was. */
  lemma DebtlessStepKeepsInv(s: Stream, a: Step)
    requires Inv(s) && Enabled(s, a) && !a.CloserClosed?
    requires a.CloserEnters? ==> !MustClose(Next(s, a), a.id)
    ensures Inv(Next(s, a))
  {
    assert forall i: nat :: MustClose(Next(s, a), i) == MustClose(s, i);
    SameDebts(s, Next(s, a));
    Gen.ResumeReleasesOnce(s.generator);
  }

  /** A step after which closer `id` owes the close, or has just paid it. */
  lemma DebtorStepKeepsInv(s: Stream, a: Step, id: nat)
    requires Inv(s) && Enabled(s, a)
    requires a == CloserClosed(id) || (a.CloserEnters? && a.id == id && MustClose(Next(s, a), id))
    ensures Inv(Next(s, a))
  {
    var t := Next(s, a);
    assert forall i: nat :: i != id ==> MustClose(t, i) == MustClose(s, i);
    if a.CloserClosed? {
      assert MustClose(s, id) && !MustClose(t, id);
      assert NoCloserMust(t);
    } else {
      assert MustClose(t, id) && !s.closed;
      assert NoCloserMust(s);
    }
  }

  lemma NextKeepsInv(s: Stream, a: Step)
    requires Inv(s) && Enabled(s, a)
    ensures Inv(Next(s, a))
  {
    var t := Next(s, a);
    if a.CloserClosed? || (a.CloserEnters? && MustClose(t, a.id)) {
      DebtorStepKeepsInv(s, a, a.id);
    } else {
      DebtlessStepKeepsInv(s, a);
    }
  }

  lemma OpenKeepsInv(generator: Gen.Iterator)
    requires Gen.Sound(generator)
    ensures Inv(Open(generator))
  {
  }

  /** A step leaves the generator alone, resumes it, or closes it. */
  lemma GeneratorGoesOn(s: Stream, a: Step)
    requires Inv(s) && Enabled(s, a)
    ensures var (g, h) := (s.generator, Next(s, a).generator);
      && h in {g, Gen.Resume(g).0, Gen.Close(g)}
      && (Gen.Released(g) ==> Gen.Released(h))
      && (h.place == Gen.Finished || Gen.Remaining(h) + (if a.GeneratorReturns? then 1 else 0) <= Gen.Remaining(g))
  {
    Gen.ResumeReleasesOnce(s.generator);
  }

  lemma {:induction false} RunKeepsInv(states: seq<Stream>, steps: seq<Step>, i: nat)
    requires IsRun(states, steps) && i < |states|
    ensures Inv(states[i])
  {
    if i > 0 {
      RunKeepsInv(states, steps, i - 1);
      assert Enabled(states[i - 1], steps[i - 1]) && states[i - 1 + 1] == Next(states[i - 1], steps[i - 1]);
      NextKeepsInv(states[i - 1], steps[i - 1]);
    }
  }

  // ----- the close protocol ----------------------------------------------------------------------

  /** The closers that owe or are inside a call of the generator's `close`. */
  ghost function Closing(s: Stream): set<nat> {
    set id: nat | id in s.closers && MustClose(s, id)
  }

  lemma OneCloser(s: Stream)
    requires Inv(s)
    ensures |Closing(s)| == if NoCloserMust(s) then 0 else 1
  {
    if NoCloserMust(s) {
      assert Closing(s) == {};
    } else {
      var id: nat :| MustClose(s, id);
      assert id in Closing(s);
      assert Closing(s) == {id};
    }
  }

  /**
   Safety of the generator, in every reachable state. Nobody is inside its `close` while it is being
   advanced or about to be; two parties are never inside `close`; and once a `close` has begun or
   returned it is not advanced again, nor closed again.
  */
  lemma GeneratorIsNeverSharedOrReused(states: seq<Stream>, steps: seq<Step>, i: nat)
    requires IsRun(states, steps) && i < |states|
    ensures var s := states[i];
      && |Closing(s)| + (if ReaderMustClose(s) then 1 else 0) + s.closeCalls <= 1
      && (Closing(s) != {} || ReaderMustClose(s) || s.closeCalls > 0 ==>
            !Enabled(s, ReaderAdvances) && !Enabled(s, GeneratorReturns))
  {
    RunKeepsInv(states, steps, i);
    OneCloser(states[i]);
  }

  /**
   Once the stream is closed exactly one party is responsible: the closer that closed it, the reader it
   found inside `next`, or nobody any more because the one call of `close` has returned.
  */
  lemma ExactlyOneCloses(states: seq<Stream>, steps: seq<Step>, i: nat)
    requires IsRun(states, steps) && i < |states| && states[i].closed
    ensures var s := states[i];
      |Closing(s)| + (if ReaderRunning(s) || ReaderMustClose(s) then 1 else 0) + s.closeCalls == 1
  {
    RunKeepsInv(states, steps, i);
    OneCloser(states[i]);
  }

  /** Nothing is left to do for the reader or any closer. */
  ghost predicate Quiet(s: Stream) {
    s.reader == Outside && forall id: nat :: id in s.closers ==> s.closers[id] == Done
  }

  /**
   So a closed stream whose callers have all returned has freed its slot exactly once, and in no
   reachable state has the slot been freed twice.
  */
  lemma ClosedStreamReleasedItsSlot(states: seq<Stream>, steps: seq<Step>, i: nat)
    requires IsRun(states, steps) && i < |states|
    ensures states[i].generator.ends <= 1
    ensures states[i].closed && Quiet(states[i]) ==> states[i].closeCalls == 1 && states[i].generator.ends == 1
  {
    RunKeepsInv(states, steps, i);
    Gen.SoundReleasesOnce(states[i].generator);
    if states[i].closed && Quiet(states[i]) {
      assert NoCloserMust(states[i]);
    }
  }

  // ----- what the reader gets ----------------------------------------------------------------------

  /** The reader has got a beginning of what `g` yields, and until a close the rest is still to come. */
  predicate Delivers(s: Stream, g: Gen.Iterator)
    requires Gen.Sound(s.generator) && Gen.Sound(g)
  {
    && s.delivered <= Gen.ReadAll(g)
    && (s.closeCalls == 0 ==> s.delivered + Gen.ReadAll(s.generator) == Gen.ReadAll(g))
  }

  lemma InvIsSound(s: Stream)
    requires Inv(s)
    ensures Gen.Sound(s.generator) && (s.reader == Advancing ==> s.closeCalls == 0)
  {
  }

  lemma DeliveryGoesOn(s: Stream, a: Step, g: Gen.Iterator)
    requires Inv(s) && Enabled(s, a) && Gen.Sound(g) && Gen.Sound(s.generator) && Delivers(s, g)
    ensures Gen.Sound(Next(s, a).generator) && Delivers(Next(s, a), g)
  {
    hide Inv, Gen.Resume, Gen.ReadAll, Gen.Close, Gen.Sound;
    NextKeepsInv(s, a);
    InvIsSound(s);
    InvIsSound(Next(s, a));
    if a.GeneratorReturns? {
      ReadDelivers(s, g);
    }
  }

  lemma ReadDelivers(s: Stream, g: Gen.Iterator)
    requires Enabled(s, GeneratorReturns) && Gen.Sound(g) && Gen.Sound(s.generator) && Delivers(s, g)
    requires Gen.Sound(Next(s, GeneratorReturns).generator) && s.closeCalls == 0
    ensures Delivers(Next(s, GeneratorReturns), g)
  {
    hide Inv, Gen.Resume, Gen.ReadAll, Gen.Close, Gen.Sound;
    Gen.ReadOn(s.generator);
    var t, out := Next(s, GeneratorReturns), Gen.Resume(s.generator).1;
    if out.Some? {
      var rest := Gen.ReadAll(t.generator);
      assert s.delivered + ([out.value] + rest) == s.delivered + [out.value] + rest;
    } else {
      NothingAfterTheEnd(s.generator);
    }
  }

  lemma NothingAfterTheEnd(it: Gen.Iterator)
    requires Gen.Sound(it) && Gen.Resume(it).1.None?
    ensures Gen.Sound(Gen.Resume(it).0) && Gen.ReadAll(Gen.Resume(it).0) == []
  {
    Gen.ResumeReleasesOnce(it);
  }

  /**
   In every reachable state the reader has got the first events of its generator, in order and each once; and it has
   got all of them if the generator has ended by itself.
  */
  lemma ReaderGetsTheStream(states: seq<Stream>, steps: seq<Step>, i: nat)
    requires IsRun(states, steps) && i < |states|
    ensures Gen.Sound(states[i].generator) && Delivers(states[i], states[0].generator)
    ensures states[i].closeCalls == 0 && states[i].generator.place == Gen.Finished ==>
      states[i].delivered == Gen.ReadAll(states[0].generator)
  {
    DeliveryOverRun(states, steps, i);
    if states[i].generator.place == Gen.Finished {
      assert Gen.ReadAll(states[i].generator) == [];
    }
  }

  lemma {:induction false} DeliveryOverRun(states: seq<Stream>, steps: seq<Step>, i: nat)
    requires IsRun(states, steps) && i < |states|
    ensures Gen.Sound(states[i].generator) && Delivers(states[i], states[0].generator)
  {
    hide Gen.ReadAll, Next, Enabled;
    RunKeepsInv(states, steps, i);
    if i > 0 {
      DeliveryOverRun(states, steps, i - 1);
      RunKeepsInv(states, steps, i - 1);
      assert Enabled(states[i - 1], steps[i - 1]) && states[i - 1 + 1] == Next(states[i - 1], steps[i - 1]);
      hide Inv, Delivers;
      DeliveryGoesOn(states[i - 1], steps[i - 1], states[0].generator);
    }
  }

  // ----- asking the engine to stop -----------------------------------------------------------------

  /** The engine has been asked to stop, or `id` is about to ask it. */
  predicate AskedBy(s: Stream, id: nat) {
    && id in s.closers && (forall j :: j in s.closers && j != id ==> s.closers[j] != OwesCancel)
    && ((s.closers[id] == OwesCancel && s.cancelCalls == 0) || (s.closers[id] == Done && s.cancelCalls == 1))
  }

  predicate NobodyAsks(s: Stream) {
    s.cancelCalls == 0 && forall j :: j in s.closers ==> s.closers[j] != OwesCancel
  }

  /** Whether step `c` is a close that finds a reader inside. */
  predicate FindsRunning(states: seq<Stream>, steps: seq<Step>, c: nat)
    requires c < |steps| < |states|
  {
    steps[c].CloserEnters? && steps[c].via == ByClose && states[c].running
  }

  lemma {:induction false} NobodyAsksBeforeClose(states: seq<Stream>, steps: seq<Step>, i: nat)
    requires IsRun(states, steps) && i < |states| && !states[i].closed
    ensures NobodyAsks(states[i])
  {
    if i > 0 {
      StepOfRun(states, steps, i - 1);
      NobodyAsksBeforeClose(states, steps, i - 1);
    }
  }

  lemma AskedGoesOn(s: Stream, a: Step, id: nat)
    requires Enabled(s, a) && s.closed
    ensures AskedBy(s, id) ==> AskedBy(Next(s, a), id)
    ensures NobodyAsks(s) ==> NobodyAsks(Next(s, a))
  {
  }

  lemma CloseAsks(s: Stream, a: Step)
    requires Enabled(s, a) && !s.closed && Next(s, a).closed && NobodyAsks(s)
    ensures a.CloserEnters?
    ensures if a.via == ByClose && s.running then AskedBy(Next(s, a), a.id) else NobodyAsks(Next(s, a))
  {
  }

  /**
   Once a stream is closed: the engine is asked to stop, once and by the closer, if and only if the close found a reader
   inside. A closer that finds none, and a release, never ask.
  */
  lemma {:induction false} EngineIsAskedIffRunning(states: seq<Stream>, steps: seq<Step>, c: nat, i: nat)
    requires IsRun(states, steps) && ClosesAt(states, steps, c) && c < i < |states|
    ensures if FindsRunning(states, steps, c) then AskedBy(states[i], steps[c].id) else NobodyAsks(states[i])
    decreases i
  {
    hide Next, Enabled, AskedBy, NobodyAsks;
    StepOfRun(states, steps, i - 1);
    if i - 1 == c {
      NobodyAsksBeforeClose(states, steps, c);
      CloseAsks(states[c], steps[c]);
    } else {
      EngineIsAskedIffRunning(states, steps, c, i - 1);
      ClosedStaysClosed(states, steps, c + 1, i - 1);
      AskedGoesOn(states[i - 1], steps[i - 1], if FindsRunning(states, steps, c) then steps[c].id else 0);
    }
  }

  // ----- reading after the close -------------------------------------------------------------------

  lemma StepOfRun(states: seq<Stream>, steps: seq<Step>, i: nat)
    requires IsRun(states, steps) && i < |steps|
    ensures Enabled(states[i], steps[i]) && states[i + 1] == Next(states[i], steps[i])
  {
  }

  /**
   From a closed stream whose reader is not already past its entry section, no reader ever gets past it: every
   later `next` is a StopIteration that changes nothing, and the generator is never advanced again.
  */
  lemma {:induction false} ClosedStreamAdmitsNoReader(states: seq<Stream>, steps: seq<Step>, i: nat, j: nat)
    requires IsRun(states, steps) && i <= j < |states| && states[i].closed && states[i].reader != Entered
    ensures states[j].closed && states[j].reader != Entered
    ensures j < |steps| ==>
      steps[j] != ReaderAdvances && (steps[j] == ReaderEnters ==> states[j + 1] == states[j])
    decreases j
  {
    if i < j {
      ClosedStreamAdmitsNoReader(states, steps, i, j - 1);
      StepOfRun(states, steps, j - 1);
    }
    if j < |steps| {
      StepOfRun(states, steps, j);
    }
  }

  /** Step `c` of the run closes the stream. */
  predicate ClosesAt(states: seq<Stream>, steps: seq<Step>, c: nat) {
    c < |steps| < |states| && !states[c].closed && states[c + 1].closed
  }

  /** A close does not move the reader. */
  lemma CloseLeavesReader(states: seq<Stream>, steps: seq<Step>, c: nat)
    requires IsRun(states, steps) && ClosesAt(states, steps, c)
    ensures states[c + 1].reader == states[c].reader
  {
    StepOfRun(states, steps, c);
  }

  /**
   An advance after the close is that of the reader whom the close found between its entry section and the
   generator, and it is the only one.
  */
  lemma OnlyTheEnteredReaderAdvances(states: seq<Stream>, steps: seq<Step>, c: nat, j: nat, k: nat)
    requires IsRun(states, steps) && ClosesAt(states, steps, c) && c < j < |steps| && steps[j] == ReaderAdvances
    ensures states[c].reader == Entered
    ensures c < k < j ==> steps[k] != ReaderAdvances
  {
    CloseLeavesReader(states, steps, c);
    if states[c].reader != Entered {
      ClosedStreamAdmitsNoReader(states, steps, c + 1, j);
    }
    if c < k < j && steps[k] == ReaderAdvances {
      StepOfRun(states, steps, k);
      ClosedStaysClosed(states, steps, c + 1, k + 1);
      ClosedStreamAdmitsNoReader(states, steps, k + 1, j);
    }
  }

  lemma {:induction false} ClosedStaysClosed(states: seq<Stream>, steps: seq<Step>, i: nat, j: nat)
    requires IsRun(states, steps) && i <= j < |states| && states[i].closed
    ensures states[j].closed
    decreases j
  {
    if i < j {
      ClosedStaysClosed(states, steps, i, j - 1);
      StepOfRun(states, steps, j - 1);
    }
  }

  /** The longer run goes on as the shorter one did up to and including step `c`, and advances later. */
  ghost predicate AdvancesLater(
    states: seq<Stream>, steps: seq<Step>, c: nat, longer: seq<Stream>, more: seq<Step>, j: nat)
    requires c < |steps| < |states|
  {
    && IsRun(longer, more) && c < j < |more| && longer[..c + 2] == states[..c + 2] && more[..c + 1] == steps[..c + 1]
    && more[j] == ReaderAdvances
  }

  /**
   "Never advanced after the close" holds of a run up to its close, however it goes on, exactly if the close did not
   find a reader between its entry section and the generator.
  */
  lemma NeverAdvancedIffNoneEntered(states: seq<Stream>, steps: seq<Step>, c: nat)
    requires IsRun(states, steps) && ClosesAt(states, steps, c)
    ensures (forall longer, more, j :: !AdvancesLater(states, steps, c, longer, more, j))
      <==> states[c].reader != Entered
  {
    if states[c].reader == Entered {
      var longer, more := LateAdvance(states, steps, c);
      assert AdvancesLater(states, steps, c, longer, more, c + 1);
    } else {
      forall longer, more, j ensures !AdvancesLater(states, steps, c, longer, more, j) {
        if AdvancesLater(states, steps, c, longer, more, j) {
          assert longer[c] == longer[..c + 2][c] && longer[c + 1] == longer[..c + 2][c + 1];
          assert states[c] == states[..c + 2][c] && states[c + 1] == states[..c + 2][c + 1];
          OnlyTheEnteredReaderAdvances(longer, more, c, j, j);
        }
      }
    }
  }

  lemma LateAdvance(states: seq<Stream>, steps: seq<Step>, c: nat) returns (longer: seq<Stream>, more: seq<Step>)
    requires IsRun(states, steps) && ClosesAt(states, steps, c) && states[c].reader == Entered
    ensures AdvancesLater(states, steps, c, longer, more, c + 1)
  {
    CloseLeavesReader(states, steps, c);
    longer := states[..c + 2] + [Next(states[c + 1], ReaderAdvances)];
    more := steps[..c + 1] + [ReaderAdvances];
    forall i | 0 <= i < |more| ensures Enabled(longer[i], more[i]) && longer[i + 1] == Next(longer[i], more[i]) {
      if i <= c {
        StepOfRun(states, steps, i);
      }
    }
  }

  /**
   What the closer itself sees: if it finds the flag `running` down, the generator is never advanced again. If it is
   up, it asks the engine to stop, since a reader may be inside the generator, before it or behind it.
  */
  lemma IdleCloseIsFinal(states: seq<Stream>, steps: seq<Step>, c: nat, j: nat)
    requires IsRun(states, steps) && ClosesAt(states, steps, c) && !states[c].running && c < j < |steps|
    ensures steps[j] != ReaderAdvances
  {
    RunKeepsInv(states, steps, c);
    if steps[j] == ReaderAdvances {
      OnlyTheEnteredReaderAdvances(states, steps, c, j, j);
    }
  }

  /** Such a reader exists in some run of every generator. */
  lemma LateAdvanceIsPossible(generator: Gen.Iterator) returns (states: seq<Stream>, steps: seq<Step>)
    requires Gen.Sound(generator)
    ensures IsRun(states, steps) && states[0].generator == generator
    ensures ClosesAt(states, steps, 1) && |steps| == 3 && steps[2] == ReaderAdvances
  {
    var s0 := Open(generator);
    var s1 := Next(s0, ReaderEnters);
    var s2 := Next(s1, CloserEnters(0, ByClose));
    states := [s0, s1, s2, Next(s2, ReaderAdvances)];
    steps := [ReaderEnters, CloserEnters(0, ByClose), ReaderAdvances];
  }

  /** `release_if_unconsumed` closes only streams that no reader has started, and that never run again. */
  lemma ReleasedStreamWasUnread(states: seq<Stream>, steps: seq<Step>, i: nat, id: nat)
    requires IsRun(states, steps) && i < |states| && id !in states[i].closers
    ensures var (s, t) := (states[i], Next(states[i], CloserEnters(id, ByRelease)));
      && (t.closers[id] == OwesClose <==> !s.consumed && !s.closed)
      && (t.closers[id] == OwesClose ==> t.closed && t.generator == s.generator && s.reader == Outside)
      && t.closers[id] != OwesCancel
  {
    RunKeepsInv(states, steps, i);
  }

  /** `id` has released the stream or is about to, and nobody has read it. */
  predicate ReleasedBy(s: Stream, id: nat) {
    && s.closed && !s.consumed && id in s.closers && s.closers[id] != OwesCancel
    && (s.closers[id] == Done ==> s.closeCalls == 1)
  }

  lemma ReleaseBegins(s: Stream, id: nat)
    requires Enabled(s, CloserEnters(id, ByRelease)) && !s.consumed && !s.closed
    ensures ReleasedBy(Next(s, CloserEnters(id, ByRelease)), id)
  {
  }

  lemma ReleaseGoesOn(s: Stream, a: Step, id: nat)
    requires Inv(s) && Enabled(s, a) && ReleasedBy(s, id)
    ensures ReleasedBy(Next(s, a), id) && !a.GeneratorReturns?
  {
    if a.CloserClosed? {
      assert MustClose(s, a.id);
      assert s.closers[id] != Done ==> MustClose(s, id);
    }
  }

  // ----- the object itself -------------------------------------------------------------------------

  /** The three flags, and the critical sections that test and set them. */
  class Flags {
    var consumed: bool
    var running: bool
    var closed: bool

    /** The flags of the abstract stream. */
    ghost predicate Of(s: Stream)
      reads this
    {
      consumed == s.consumed && running == s.running && closed == s.closed
    }

    constructor (ghost generator: Gen.Iterator)
      ensures Of(Open(generator))
    {
      consumed, running, closed := false, false, false;
    }

    /** The first half of `__next__`; false is StopIteration. */
    method EnterNext(ghost s: Stream) returns (admitted: bool)
      requires Of(s) && Enabled(s, ReaderEnters)
      modifies this
      ensures Of(Next(s, ReaderEnters)) && admitted == (Next(s, ReaderEnters).reader == Entered)
    {
      if closed {
        return false;
      }
      consumed := true;
      running := true;
      return true;
    }

    /** The `finally` clause of `__next__`; true makes the reader close the generator. */
    method LeaveNext(ghost s: Stream) returns (closeNow: bool)
      requires Of(s) && Enabled(s, ReaderLeaves)
      modifies this
      ensures Of(Next(s, ReaderLeaves)) && closeNow == (Next(s, ReaderLeaves).reader == ReaderOwesClose)
    {
      running := false;
      closeNow := closed;
    }

    /** `close`: what is left to do after the lock is released. */
    method Close(ghost s: Stream, ghost id: nat) returns (next: CloserPlace)
      requires Of(s) && Enabled(s, CloserEnters(id, ByClose))
      modifies this
      ensures Of(Next(s, CloserEnters(id, ByClose))) && next == Next(s, CloserEnters(id, ByClose)).closers[id]
    {
      if closed {
        return Done;
      }
      closed := true;
      return if running then OwesCancel else OwesClose;
    }

    /** `release_if_unconsumed`: it answers true exactly if it owes the close. */
    method ReleaseIfUnconsumed(ghost s: Stream, ghost id: nat) returns (next: CloserPlace)
      requires Of(s) && Enabled(s, CloserEnters(id, ByRelease))
      modifies this
      ensures Of(Next(s, CloserEnters(id, ByRelease))) && next == Next(s, CloserEnters(id, ByRelease)).closers[id]
    {
      if consumed || closed {
        return Done;
      }
      closed := true;
      return OwesClose;
    }
  }
}

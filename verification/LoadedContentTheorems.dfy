/** Whatever is loaded was verified by the call that loaded it. */
module LoadedContentTheorems {
  import opened Wrappers
  import opened RuntimeState
  import opened SlotInvariants
  import opened LoadedContent

  // ----- the invariant -------------------------------------------------------------------------------

  /** No other of the first `n` sources that comes later lies at the same path. */
  predicate IsLast(sources: seq<Source>, i: nat, n: nat) {
    i < n <= |sources| && forall j :: i < j < n ==> sources[j].path != sources[i].path
  }

  /** As long as the signature of the source is current, its content is the expected one. */
  predicate Vouches(disk: map<string, nat>, content: seq<string>, signatures: map<string, nat>, s: Source) {
    && s.path in signatures && signatures[s.path] < |content|
    && (s.path in disk && disk[s.path] == signatures[s.path] ==> content[signatures[s.path]] == s.expected)
  }

  ghost predicate VerifiedBy(log: seq<Event>, call: nat, index: nat, s: Source) {
    exists k :: 0 <= k < |log| && log[k].call == call && log[k].index == index && log[k].source == s
  }

  predicate Truthful(log: seq<Event>, content: seq<string>) {
    forall k :: 0 <= k < |log| ==> log[k].version < |content| && content[log[k].version] == log[k].source.expected
  }

  predicate DiskInv(disk: map<string, nat>, content: seq<string>) {
    forall p :: p in disk ==> disk[p] < |content|
  }

  ghost predicate RecordInv(disk: map<string, nat>, content: seq<string>, log: seq<Event>, r: Record) {
    && (forall i: nat :: i < |r.input.sources| ==> VerifiedBy(log, r.installer, i, r.input.sources[i]))
    && (forall i: nat :: IsLast(r.input.sources, i, |r.input.sources|) ==>
          Vouches(disk, content, r.signatures, r.input.sources[i]))
    && forall p :: p in r.signatures ==> exists i: nat :: i < |r.input.sources| && r.input.sources[i].path == p
  }

  /** The sources whose signature was taken. */
  function Reach(p: Pending): nat {
    if p.signed then p.next + 1 else p.next
  }

  ghost predicate PendingInv(disk: map<string, nat>, content: seq<string>, log: seq<Event>, id: nat, p: Pending) {
    && Reach(p) <= |p.input.sources|
    && (forall i: nat :: i < p.next ==> i in p.verified || i in p.unverified)
    && (forall i :: i in p.verified ==> i < p.next && VerifiedBy(log, id, i, p.input.sources[i]))
    && (forall i :: i in p.unverified ==> i < p.next)
    && (forall i: nat :: i < Reach(p) ==> p.input.sources[i].path in p.signatures)
    && (forall q :: q in p.signatures ==> p.signatures[q] < |content|)
    && (forall q :: q in p.signatures ==> exists i: nat :: i < Reach(p) && p.input.sources[i].path == q)
    && (forall i: nat :: i in p.verified && IsLast(p.input.sources, i, Reach(p)) ==>
          Vouches(disk, content, p.signatures, p.input.sources[i]))
    && (p.seen.Some? ==> RecordInv(disk, content, log, p.seen.value))
    && (p.seen.Some? ==> p.seen.value.input.fingerprint == p.input.fingerprint)
  }

  ghost predicate WorldInv(w: World) {
    && Inv(w.core)
    && DiskInv(w.disk, w.content)
    && Truthful(w.log, w.content)
    && (forall id :: id in w.pending ==> PendingInv(w.disk, w.content, w.log, id, w.pending[id]))
    && (w.record.Some? <==> w.core.held.input.Some?)
    && (w.record.Some? ==>
          && w.core.held.input == Some(w.record.value.input.fingerprint)
          && w.core.held.signatures == w.record.value.signatures
          && RecordInv(w.disk, w.content, w.log, w.record.value))
  }

  // ----- what keeps it -------------------------------------------------------------------------------

  /** Files may get new versions and disappear, and the log may grow, without touching what is known. */
  ghost predicate Later(d0: map<string, nat>, c0: seq<string>, l0: seq<Event>,
                        d: map<string, nat>, c: seq<string>, l: seq<Event>) {
    && c0 <= c && l0 <= l
    && forall p :: p in d ==> (p in d0 && d[p] == d0[p]) || d[p] >= |c0|
  }

  lemma VerifiedStays(l0: seq<Event>, l: seq<Event>, call: nat, index: nat, s: Source)
    requires l0 <= l && VerifiedBy(l0, call, index, s)
    ensures VerifiedBy(l, call, index, s)
  {
    var k :| 0 <= k < |l0| && l0[k].call == call && l0[k].index == index && l0[k].source == s;
    assert l[k] == l0[k];
  }

  lemma RecordStays(d0: map<string, nat>, c0: seq<string>, l0: seq<Event>,
                    d: map<string, nat>, c: seq<string>, l: seq<Event>, r: Record)
    requires Later(d0, c0, l0, d, c, l) && RecordInv(d0, c0, l0, r)
    ensures RecordInv(d, c, l, r)
  {
    hide VerifiedBy;
    forall i: nat | i < |r.input.sources| ensures VerifiedBy(l, r.installer, i, r.input.sources[i]) {
      VerifiedStays(l0, l, r.installer, i, r.input.sources[i]);
    }
  }

  lemma PendingStays(d0: map<string, nat>, c0: seq<string>, l0: seq<Event>,
                     d: map<string, nat>, c: seq<string>, l: seq<Event>, id: nat, p: Pending)
    requires Later(d0, c0, l0, d, c, l) && PendingInv(d0, c0, l0, id, p)
    ensures PendingInv(d, c, l, id, p)
  {
    hide VerifiedBy, RecordInv;
    forall i | i in p.verified ensures VerifiedBy(l, id, i, p.input.sources[i]) {
      VerifiedStays(l0, l, id, i, p.input.sources[i]);
    }
    if p.seen.Some? {
      RecordStays(d0, c0, l0, d, c, l, p.seen.value);
    }
  }

  /** A step that only moves disk, contents and log on. */
  lemma WorldStays(w: World, v: World)
    requires WorldInv(w) && Later(w.disk, w.content, w.log, v.disk, v.content, v.log)
    requires DiskInv(v.disk, v.content) && Truthful(v.log, v.content)
    ensures forall id :: id in w.pending ==> PendingInv(v.disk, v.content, v.log, id, w.pending[id])
    ensures w.record.Some? ==> RecordInv(v.disk, v.content, v.log, w.record.value)
  {
    hide PendingInv, RecordInv, Later, Truthful, DiskInv, Inv;
    forall id | id in w.pending ensures PendingInv(v.disk, v.content, v.log, id, w.pending[id]) {
      PendingStays(w.disk, w.content, w.log, v.disk, v.content, v.log, id, w.pending[id]);
    }
    if w.record.Some? {
      RecordStays(w.disk, w.content, w.log, v.disk, v.content, v.log, w.record.value);
    }
  }

  lemma WriteKeeps(w: World, path: string, identity: string)
    requires WorldInv(w)
    ensures WorldInv(Write(w, path, identity))
  {
    hide PendingInv, RecordInv, Inv;
    WorldStays(w, Write(w, path, identity));
  }

  lemma RemoveKeeps(w: World, path: string)
    requires WorldInv(w)
    ensures WorldInv(Remove(w, path))
  {
    hide PendingInv, RecordInv, Inv;
    WorldStays(w, Remove(w, path));
  }

  lemma BeginKeeps(w: World, input: Input)
    requires WorldInv(w)
    ensures WorldInv(Begin(w, input))
  {
    hide RecordInv, Inv, Truthful, DiskInv;
  }

  lemma GiveUpKeeps(w: World, id: nat)
    requires WorldInv(w)
    ensures WorldInv(GiveUp(w, id))
  {
    hide PendingInv, RecordInv, Inv, Truthful, DiskInv;
  }

  /** The pending call after the signature of its next source was taken. */
  function AfterStat(p: Pending, path: string, signature: nat): Pending {
    var signatures := p.signatures[path := signature];
    if Skips(p, path, signature) then
      p.(signatures := signatures, unverified := p.unverified + [p.next], next := p.next + 1)
    else p.(signatures := signatures, signed := true)
  }

  lemma StatKeepsPending(d: map<string, nat>, c: seq<string>, l: seq<Event>, id: nat, p: Pending)
    requires DiskInv(d, c) && PendingInv(d, c, l, id, p)
    requires !p.signed && p.next < |p.input.sources| && p.input.sources[p.next].path in d
    ensures PendingInv(d, c, l, id, AfterStat(p, p.input.sources[p.next].path, d[p.input.sources[p.next].path]))
  {
    hide RecordInv, VerifiedBy, Skips;
    var path := p.input.sources[p.next].path;
    var q := AfterStat(p, path, d[path]);
    assert Reach(q) == p.next + 1;
    forall i: nat | i in q.verified && IsLast(p.input.sources, i, Reach(q))
      ensures Vouches(d, c, q.signatures, p.input.sources[i])
    {
      assert p.input.sources[i].path != path;
      assert IsLast(p.input.sources, i, Reach(p));
    }
    assert forall i :: i in p.unverified + [p.next] <==> i in p.unverified || i == p.next;
  }

  lemma StatKeeps(w: World, id: nat)
    requires WorldInv(w)
    ensures WorldInv(Stat(w, id))
  {
    hide PendingInv, RecordInv, Inv, Truthful, DiskInv, Skips;
    if id in w.pending && !w.pending[id].signed && w.pending[id].next < |w.pending[id].input.sources| {
      var p := w.pending[id];
      var path := p.input.sources[p.next].path;
      if path in w.disk {
        StatKeepsPending(w.disk, w.content, w.log, id, p);
        assert Stat(w, id) == w.(pending := w.pending[id := AfterStat(p, path, w.disk[path])]);
      }
    }
  }

  lemma VerifyKeepsPending(w: World, id: nat, p: Pending, l: seq<Event>)
    requires DiskInv(w.disk, w.content) && PendingInv(w.disk, w.content, l, id, p)
    requires p.signed && Matches(w, p.input.sources[p.next]) && VerifiedBy(l, id, p.next, p.input.sources[p.next])
    ensures PendingInv(
      w.disk, w.content, l, id, p.(signed := false, next := p.next + 1, verified := p.verified + {p.next}))
  {
    hide RecordInv, VerifiedBy;
  }

  lemma VerifyKeeps(w: World, id: nat)
    requires WorldInv(w)
    ensures WorldInv(Verify(w, id))
  {
    hide RecordInv, Inv;
    if id in w.pending && w.pending[id].signed && w.pending[id].next < |w.pending[id].input.sources| {
      var p := w.pending[id];
      var s := p.input.sources[p.next];
      if Matches(w, s) {
        var v := Verify(w, id);
        WorldStays(w, v);
        assert v.log[|w.log|] == Event(id, p.next, s, w.disk[s.path]);
        assert VerifiedBy(v.log, id, p.next, s);
        VerifyKeepsPending(v, id, p, v.log);
        hide PendingInv;
      }
    }
  }

  // ----- the locked half -----------------------------------------------------------------------------

  lemma OwedIsTruthful(w: World, id: nat, p: Pending)
    requires Truthful(w.log, w.content) && OwedMatches(w, p)
    ensures Truthful(w.log + OwedEvents(w, id, p, |p.unverified|), w.content)
  {
    hide OwedEvents;
    var owed := OwedEvents(w, id, p, |p.unverified|);
    forall k | 0 <= k < |owed|
      ensures owed[k].version < |w.content| && w.content[owed[k].version] == owed[k].source.expected
    {
      assert Matches(w, p.input.sources[p.unverified[k]]);
    }
  }

  lemma MatchVouches(w: World, signatures: map<string, nat>, s: Source)
    requires Matches(w, s) && s.path in signatures && signatures[s.path] < |w.content|
    ensures Vouches(w.disk, w.content, signatures, s)
  {
  }

  lemma AllVerified(w: World, id: nat, p: Pending, l: seq<Event>, i: nat)
    requires OwedMatches(w, p) && l == w.log + OwedEvents(w, id, p, |p.unverified|)
    requires PendingInv(w.disk, w.content, w.log, id, p) && !p.signed && i < p.next == |p.input.sources|
    ensures VerifiedBy(l, id, i, p.input.sources[i])
  {
    hide RecordInv, Vouches, IsLast;
    var owed := OwedEvents(w, id, p, |p.unverified|);
    if i in p.verified {
      VerifiedStays(w.log, l, id, i, p.input.sources[i]);
    } else {
      var k :| 0 <= k < |p.unverified| && p.unverified[k] == i;
      assert l[|w.log| + k] == owed[k];
    }
  }

  lemma AllVouched(w: World, id: nat, p: Pending, i: nat)
    requires OwedMatches(w, p) && PendingInv(w.disk, w.content, w.log, id, p) && !p.signed
    requires p.next == |p.input.sources| && IsLast(p.input.sources, i, |p.input.sources|)
    ensures Vouches(w.disk, w.content, p.signatures, p.input.sources[i])
  {
    hide RecordInv, Vouches, VerifiedBy, Matches;
    if i !in p.verified {
      var k :| 0 <= k < |p.unverified| && p.unverified[k] == i;
      MatchVouches(w, p.signatures, p.input.sources[p.unverified[k]]);
    }
  }

  /** With the owed verifications the call has verified everything it installs. */
  lemma InstalledRecord(w: World, id: nat, p: Pending, l: seq<Event>)
    requires OwedMatches(w, p) && l == w.log + OwedEvents(w, id, p, |p.unverified|)
    requires PendingInv(w.disk, w.content, w.log, id, p) && !p.signed && p.next == |p.input.sources|
    ensures RecordInv(w.disk, w.content, l, Record(id, p.input, p.signatures))
  {
    hide OwedEvents, RecordInv, Vouches, VerifiedBy, OwedMatches;
    var r := Record(id, p.input, p.signatures);
    forall i: nat | i < |p.input.sources| ensures VerifiedBy(l, id, i, p.input.sources[i]) {
      AllVerified(w, id, p, l, i);
    }
    forall i: nat | IsLast(p.input.sources, i, |p.input.sources|)
      ensures Vouches(w.disk, w.content, p.signatures, p.input.sources[i])
    {
      AllVouched(w, id, p, i);
    }
    RecordFrom(w, l, r);
  }

  lemma RecordFrom(w: World, l: seq<Event>, r: Record)
    requires forall i: nat :: i < |r.input.sources| ==> VerifiedBy(l, r.installer, i, r.input.sources[i])
    requires forall i: nat :: IsLast(r.input.sources, i, |r.input.sources|) ==>
      Vouches(w.disk, w.content, r.signatures, r.input.sources[i])
    requires forall p :: p in r.signatures ==> exists i: nat :: i < |r.input.sources| && r.input.sources[i].path == p
    ensures RecordInv(w.disk, w.content, l, r)
  {
  }

  lemma FinishKeeps(w: World, id: nat, rest: LoadRest)
    requires WorldInv(w)
    ensures WorldInv(Finish(w, id, rest).0)
  {
    hide PendingInv, RecordInv, Inv, OwedEvents, Truthful, DiskInv;
    if id in w.pending && !w.pending[id].signed && w.pending[id].next == |w.pending[id].input.sources| {
      var p := w.pending[id];
      var v := Finish(w, id, rest).0;
      LoadKeepsInv(w.core, CallOf(w, p, rest));
      if OwedMatches(w, p) {
        OwedIsTruthful(w, id, p);
        InstalledRecord(w, id, p, w.log + OwedEvents(w, id, p, |p.unverified|));
      }
      WorldStays(w, v);
      HeldAfterLoad(w.core, CallOf(w, p, rest));
    }
  }

  lemma HeldAfterLoad(s: State, c: LoadCall)
    requires Inv(s)
    ensures var (t, answer) := Load(s, c);
      && (answer.Installed? ==> t.held.input == c.input && t.held.signatures == c.signatures && c.owedContentMatches)
      && (!answer.Installed? ==> t.held.input == s.held.input && t.held.signatures == s.held.signatures)
      && (answer.Installed? ==> !s.held.IsLoaded())
  {
  }

  /** No other step of the runtime changes what is loaded, except that an unload forgets it. */
  lemma HeldAfterStep(s: State, a: Step)
    requires Inv(s) && (a.LoadStep? ==> a.call.input.None? && a.call.signatures == map[])
    ensures var t := Next(s, a);
      || t.held.input.None?
      || (t.held.input == s.held.input && t.held.signatures == s.held.signatures)
  {
    hide Inv;
  }

  lemma CoreKeeps(w: World, a: Step)
    requires WorldInv(w) && Possible(w, CoreStep(a))
    ensures WorldInv(Core(w, a))
  {
    hide PendingInv, RecordInv, Inv, Truthful, DiskInv, Next;
    NextKeepsInv(w.core, a);
    HeldAfterStep(w.core, a);
  }

  lemma StepKeeps(w: World, a: WorldStep)
    requires WorldInv(w) && Possible(w, a)
    ensures WorldInv(WorldNext(w, a))
  {
    hide WorldInv, Write, Remove, Begin, GiveUp, Stat, Verify, Finish, Core;
    match a
    case WriteStep(path, identity) => WriteKeeps(w, path, identity);
    case RemoveStep(path) => RemoveKeeps(w, path);
    case BeginStep(input) => BeginKeeps(w, input);
    case GiveUpStep(id) => GiveUpKeeps(w, id);
    case StatStep(id) => StatKeeps(w, id);
    case VerifyStep(id) => VerifyKeeps(w, id);
    case FinishStep(id, rest) => FinishKeeps(w, id, rest);
    case CoreStep(step) => CoreKeeps(w, step);
  }

  lemma InitKeepsInv()
    ensures WorldInv(INIT_WORLD)
  {
  }

  lemma {:induction false} WorldRunKeepsInv(worlds: seq<World>, steps: seq<WorldStep>, i: nat)
    requires IsWorldRun(worlds, steps) && i < |worlds|
    ensures WorldInv(worlds[i])
  {
    hide WorldInv, WorldNext, Possible, INIT_WORLD;
    if i == 0 {
      InitKeepsInv();
    } else {
      WorldRunKeepsInv(worlds, steps, i - 1);
      assert Possible(worlds[i - 1], steps[i - 1]) && worlds[i - 1 + 1] == WorldNext(worlds[i - 1], steps[i - 1]);
      StepKeeps(worlds[i - 1], steps[i - 1]);
    }
  }

  // ----- the theorems ----------------------------------------------------------------------------------

  /** The log shows a verification of the source by the call, and it is true. */
  ghost predicate TrulyVerified(w: World, call: nat, index: nat, s: Source) {
    exists k :: 0 <= k < |w.log| && w.log[k] == Event(call, index, s, w.log[k].version)
      && w.log[k].version < |w.content| && w.content[w.log[k].version] == s.expected
  }

  /** The call that installed the record had each of its sources verified. */
  ghost predicate InstallerVerified(w: World, r: Record) {
    forall i: nat :: i < |r.input.sources| ==> TrulyVerified(w, r.installer, i, r.input.sources[i])
  }

  /**
   In every reachable state: if an execution input is loaded, the call that installed it verified its base
   and every adapter itself, whatever was loaded, unloaded or written since that call began.
  */
  lemma LoadedInputWasVerified(worlds: seq<World>, steps: seq<WorldStep>, i: nat)
    requires IsWorldRun(worlds, steps) && i < |worlds| && worlds[i].core.held.input.Some?
    ensures var w := worlds[i];
      && w.record.Some? && w.core.held.input.value == w.record.value.input.fingerprint
      && InstallerVerified(w, w.record.value)
  {
    WorldRunKeepsInv(worlds, steps, i);
    RecordIsVerified(worlds[i]);
  }

  lemma RecordIsVerified(w: World)
    requires WorldInv(w) && w.record.Some?
    ensures InstallerVerified(w, w.record.value)
  {
    hide PendingInv, Inv, DiskInv;
    var r := w.record.value;
    forall i: nat | i < |r.input.sources| ensures TrulyVerified(w, r.installer, i, r.input.sources[i]) {
      assert VerifiedBy(w.log, r.installer, i, r.input.sources[i]);
      var k :| 0 <= k < |w.log| && w.log[k].call == r.installer && w.log[k].index == i
        && w.log[k].source == r.input.sources[i];
      assert w.content[w.log[k].version] == w.log[k].source.expected;
    }
  }

  /**
   A load that succeeds, be it by reuse, leaves the execution input loaded that it asked for; if it installs
   it, the installer is this call.
  */
  lemma SuccessfulLoadIsVerified(worlds: seq<World>, steps: seq<WorldStep>, i: nat, id: nat, rest: LoadRest)
    requires IsWorldRun(worlds, steps) && i < |worlds| && id in worlds[i].pending
    requires Finish(worlds[i], id, rest).1.Some?
    requires var answer := Finish(worlds[i], id, rest).1.value; answer.Installed? || answer.Reused?
    ensures var (v, answer) := Finish(worlds[i], id, rest);
      && v.record.Some? && v.record.value.input.fingerprint == worlds[i].pending[id].input.fingerprint
      && InstallerVerified(v, v.record.value)
      && (answer.value.Installed? ==>
            v.record.value.installer == id && v.record.value.input == worlds[i].pending[id].input)
  {
    var w := worlds[i];
    WorldRunKeepsInv(worlds, steps, i);
    FinishKeeps(w, id, rest);
    RecordAfterFinish(w, id, rest);
    RecordIsVerified(Finish(w, id, rest).0);
  }

  lemma RecordAfterFinish(w: World, id: nat, rest: LoadRest)
    requires WorldInv(w) && id in w.pending && Finish(w, id, rest).1.Some?
    requires var answer := Finish(w, id, rest).1.value; answer.Installed? || answer.Reused?
    ensures var (v, answer) := Finish(w, id, rest);
      && v.record.Some? && v.record.value.input.fingerprint == w.pending[id].input.fingerprint
      && (answer.value.Installed? ==> v.record.value.installer == id && v.record.value.input == w.pending[id].input)
  {
    hide PendingInv, RecordInv, Inv, DiskInv, Truthful, OwedEvents, OwedMatches;
  }

  /**
   As long as a file has the signature that was kept for it, it has the content that its last source must
   have: an equal signature is as good as a verification.
  */
  lemma CurrentSignatureVouches(worlds: seq<World>, steps: seq<WorldStep>, i: nat, j: nat)
    requires IsWorldRun(worlds, steps) && i < |worlds| && worlds[i].record.Some?
    requires var r := worlds[i].record.value; IsLast(r.input.sources, j, |r.input.sources|)
    ensures var (w, s) := (worlds[i], worlds[i].record.value.input.sources[j]);
      && s.path in w.core.held.signatures
      && (s.path in w.disk && w.disk[s.path] == w.core.held.signatures[s.path] ==> Matches(w, s))
  {
    WorldRunKeepsInv(worlds, steps, i);
  }

  /** The call is about to skip the verification of its next source, by the signatures of the instance it saw. */
  predicate SkipsNext(w: World, p: Pending) {
    && p.seen.Some? && p.next < |p.input.sources|
    && p.input.sources[p.next].path in w.disk
    && Skips(p, p.input.sources[p.next].path, w.disk[p.input.sources[p.next].path])
  }

  lemma {:induction false} LastAt(sources: seq<Source>, path: string, n: nat) returns (j: nat)
    requires n <= |sources| && exists i: nat :: i < n && sources[i].path == path
    ensures IsLast(sources, j, n) && sources[j].path == path
  {
    if sources[n - 1].path == path {
      j := n - 1;
    } else {
      j := LastAt(sources, path, n - 1);
    }
  }

  /** There is a last source of the instance that lies at the skipped path. */
  lemma SkippedPathWasLoaded(worlds: seq<World>, steps: seq<WorldStep>, i: nat, id: nat) returns (j: nat)
    requires IsWorldRun(worlds, steps) && i < |worlds| && id in worlds[i].pending
    requires SkipsNext(worlds[i], worlds[i].pending[id])
    ensures var (p, sources) := (worlds[i].pending[id], worlds[i].pending[id].seen.value.input.sources);
      IsLast(sources, j, |sources|) && sources[j].path == p.input.sources[p.next].path
  {
    WorldRunKeepsInv(worlds, steps, i);
    hide IsWorldRun, Inv, Truthful, DiskInv, VerifiedBy, Vouches;
    var p := worlds[i].pending[id];
    assert PendingInv(worlds[i].disk, worlds[i].content, worlds[i].log, id, p);
    var sources := p.seen.value.input.sources;
    j := LastAt(sources, p.input.sources[p.next].path, |sources|);
  }

  /**
   Exactly when a skipped verification would have succeeded: if and only if the source has the identity that
   the instance's last source at that path had. The instance may be gone by now.
  */
  lemma SkippedMatchesIff(worlds: seq<World>, steps: seq<WorldStep>, i: nat, id: nat, j: nat)
    requires IsWorldRun(worlds, steps) && i < |worlds| && id in worlds[i].pending
    requires SkipsNext(worlds[i], worlds[i].pending[id])
    requires var (p, sources) := (worlds[i].pending[id], worlds[i].pending[id].seen.value.input.sources);
      IsLast(sources, j, |sources|) && sources[j].path == p.input.sources[p.next].path
    ensures var p := worlds[i].pending[id];
      Matches(worlds[i], p.input.sources[p.next])
      <==> p.input.sources[p.next].expected == p.seen.value.input.sources[j].expected
  {
    WorldRunKeepsInv(worlds, steps, i);
    hide IsWorldRun, Inv, Truthful, VerifiedBy, IsLast;
    var p := worlds[i].pending[id];
    assert PendingInv(worlds[i].disk, worlds[i].content, worlds[i].log, id, p);
    assert Vouches(worlds[i].disk, worlds[i].content, p.seen.value.signatures, p.seen.value.input.sources[j]);
  }

  /** Equal fingerprints mean equal identities; ExecutionInputTheorems shows that they cover them. */
  predicate Consistent(a: Input, b: Input) {
    a.fingerprint == b.fingerprint ==>
      && |a.sources| == |b.sources|
      && forall i :: 0 <= i < |a.sources| ==> a.sources[i].expected == b.sources[i].expected
  }

  predicate SamePlaces(a: Input, b: Input) {
    forall i :: 0 <= i < |a.sources| && i < |b.sources| ==> a.sources[i].path == b.sources[i].path
  }

  /** In particular whenever the call names the places of the instance, each of them once. */
  lemma SkippingIsSound(worlds: seq<World>, steps: seq<WorldStep>, i: nat, id: nat)
    requires IsWorldRun(worlds, steps) && i < |worlds| && id in worlds[i].pending
    requires var p := worlds[i].pending[id];
      && SkipsNext(worlds[i], p) && Consistent(p.seen.value.input, p.input) && SamePlaces(p.seen.value.input, p.input)
      && IsLast(p.input.sources, p.next, |p.input.sources|)
    ensures var p := worlds[i].pending[id]; Matches(worlds[i], p.input.sources[p.next])
  {
    WorldRunKeepsInv(worlds, steps, i);
    var p := worlds[i].pending[id];
    assert PendingInv(worlds[i].disk, worlds[i].content, worlds[i].log, id, p);
    hide IsWorldRun, Inv, Truthful, DiskInv, WorldInv, RecordInv, Matches;
    assert p.seen.value.input.sources == p.input.sources;
    SkippedMatchesIff(worlds, steps, i, id, p.next);
  }

  // ----- the paths matter --------------------------------------------------------------------------------

  const X: Source := Source("p", "x")
  const Y: Source := Source("q", "y")
  const ONE_WAY: Input := Input("f", [X, Y])
  /** The same identities, so the same fingerprint, each looked for where the other one is. */
  const OTHER_WAY: Input := Input("f", [Source("q", "x"), Source("p", "y")])

  function Two(versions: (nat, nat)): map<string, nat> {
    map["p" := versions.0, "q" := versions.1]
  }

  const REST: LoadRest :=
    LoadRest("consumer", Artifact("a", "p", "safetensors", None, None, None), "mlx-lm", "identity", true,
             EngineLoaded("identity"), "lease")

  function Fresh(input: Input, seen: Option<Record>): Pending {
    Pending(input, seen, 0, false, map[], [], {})
  }

  /** One more step of a run. */
  lemma Extend(worlds: seq<World>, steps: seq<WorldStep>, a: WorldStep)
    returns (worlds': seq<World>, steps': seq<WorldStep>)
    requires IsWorldRun(worlds, steps) && Possible(worlds[|steps|], a)
    ensures |worlds'| == |steps'| + 1 && IsWorldRun(worlds', steps')
    ensures worlds'[|steps'|] == WorldNext(worlds[|steps|], a)
  {
    hide WorldNext, Possible;
    steps' := steps + [a];
    worlds' := worlds + [WorldNext(worlds[|steps|], a)];
  }

  lemma FilesWritten() returns (worlds: seq<World>, steps: seq<WorldStep>)
    ensures |worlds| == |steps| + 1 && IsWorldRun(worlds, steps)
    ensures worlds[|steps|] == INIT_WORLD.(disk := Two((0, 1)), content := ["x", "y"])
  {
    worlds, steps := [INIT_WORLD], [];
    worlds, steps := Extend(worlds, steps, WriteStep("p", "x"));
    worlds, steps := Extend(worlds, steps, WriteStep("q", "y"));
  }

  lemma FirstLoad() returns (worlds: seq<World>, steps: seq<WorldStep>)
    ensures |worlds| == |steps| + 1 && IsWorldRun(worlds, steps)
    ensures var w := worlds[|steps|];
      && w.disk == Two((0, 1)) && w.content == ["x", "y"] && w.calls == 1 && w.pending == map[]
      && w.record == Some(Record(0, ONE_WAY, Two((0, 1))))
      && w.core.held == Holding(Some(REST.artifact), Some("mlx-lm"), Some("f"), Two((0, 1)), Some("identity"),
                                map["consumer" := "lease"])
  {
    hide IsWorldRun;
    worlds, steps := FilesWritten();
    worlds, steps := Extend(worlds, steps, BeginStep(ONE_WAY));
    worlds, steps := Extend(worlds, steps, StatStep(0));
    var w := worlds[|steps|];
    assert w.pending[0] == Fresh(ONE_WAY, None).(signed := true, signatures := map["p" := 0]);
    worlds, steps := Extend(worlds, steps, VerifyStep(0));
    w := worlds[|steps|];
    assert w.pending[0] == Fresh(ONE_WAY, None).(next := 1, signatures := map["p" := 0], verified := {0});
    worlds, steps := Extend(worlds, steps, StatStep(0));
    w := worlds[|steps|];
    assert w.pending[0] == Fresh(ONE_WAY, None).(next := 1, signed := true, signatures := Two((0, 1)), verified := {0});
    worlds, steps := Extend(worlds, steps, VerifyStep(0));
    w := worlds[|steps|];
    assert w.pending[0] == Fresh(ONE_WAY, None).(next := 2, signatures := Two((0, 1)), verified := {0, 1});
    worlds, steps := Extend(worlds, steps, FinishStep(0, REST));
    FirstInstall(w);
  }

  lemma FirstInstall(w: World)
    requires w.pending.Keys == {0} && w.core == INIT
    requires w.pending[0] == Fresh(ONE_WAY, None).(next := 2, signatures := Two((0, 1)), verified := {0, 1})
    ensures var v := Finish(w, 0, REST).0;
      && v.pending == map[] && v.record == Some(Record(0, ONE_WAY, Two((0, 1))))
      && v.core.held == Holding(Some(REST.artifact), Some("mlx-lm"), Some("f"), Two((0, 1)), Some("identity"),
                                map["consumer" := "lease"])
  {
    hide Two, X, Y;
    assert OwedMatches(w, w.pending[0]);
  }

  /**
   With the places of two sources exchanged a call skips both verifications although each would fail, and
   still gets a lease: of the instance that is loaded, which is the right one.
  */
  lemma ExchangedPathsAreSkipped() returns (worlds: seq<World>, steps: seq<WorldStep>)
    ensures |worlds| == |steps| + 1 && IsWorldRun(worlds, steps)
    ensures var w := worlds[|steps|];
      && 1 in w.pending && w.pending[1].input == OTHER_WAY && w.pending[1].unverified == [0, 1]
      && !Matches(w, OTHER_WAY.sources[0]) && !Matches(w, OTHER_WAY.sources[1])
      && Finish(w, 1, REST).1 == Some(Reused("lease"))
  {
    hide IsWorldRun;
    worlds, steps := FirstLoad();
    var record := worlds[|steps|].record;
    worlds, steps := Extend(worlds, steps, BeginStep(OTHER_WAY));
    var w := worlds[|steps|];
    assert w.pending[1] == Fresh(OTHER_WAY, record);
    worlds, steps := Extend(worlds, steps, StatStep(1));
    w := worlds[|steps|];
    assert w.pending[1] == Fresh(OTHER_WAY, record).(next := 1, signatures := map["q" := 1], unverified := [0]);
    worlds, steps := Extend(worlds, steps, StatStep(1));
    w := worlds[|steps|];
    assert w.pending[1] == Fresh(OTHER_WAY, record).(next := 2, signatures := Two((0, 1)), unverified := [0, 1]);
  }
}

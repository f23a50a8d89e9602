/**
 Stop sequences trimmed across chunks. The streaming matcher sees one chunk at a time and holds back a
 suffix that might begin a stop; the specification searches the whole text at once.
*/
module StopText {
  import opened Wrappers

  // ----- searching the whole text ----------------------------------------------------------------

  predicate OccursAt(text: string, stop: string, i: nat) {
    i + |stop| <= |text| && text[i..i + |stop|] == stop
  }

  predicate StopAt(text: string, stops: seq<string>, i: nat) {
    exists k :: 0 <= k < |stops| && OccursAt(text, stops[k], i)
  }

  ghost predicate HasStop(text: string, stops: seq<string>) {
    exists i: nat :: StopAt(text, stops, i)
  }

  /** The start of the earliest stop at or after `from`, or the length of the text. */
  function FirstStop(text: string, stops: seq<string>, from: nat): (i: nat)
    requires from <= |text|
    ensures from <= i <= |text|
    ensures forall j :: from <= j < i ==> !StopAt(text, stops, j)
    ensures i < |text| ==> StopAt(text, stops, i)
    decreases |text| - from
  {
    if from == |text| || StopAt(text, stops, from) then from else FirstStop(text, stops, from + 1)
  }

  /** The text before its earliest stop. */
  function Cut(text: string, stops: seq<string>): string {
    text[..FirstStop(text, stops, 0)]
  }

  /** The option validation refuses empty stops. */
  predicate NonEmpty(stops: seq<string>) {
    forall k :: 0 <= k < |stops| ==> stops[k] != ""
  }

  predicate ProperStopPrefix(s: string, stops: seq<string>) {
    exists k :: 0 <= k < |stops| && s < stops[k]
  }

  /** The last `n` characters could begin a stop. */
  predicate MayBegin(text: string, stops: seq<string>, n: nat)
    requires n <= |text|
  {
    ProperStopPrefix(text[|text| - n..], stops)
  }

  /** The length of the longest suffix of at most `limit` characters that could begin a stop. */
  function HeldBack(text: string, stops: seq<string>, limit: nat): (n: nat)
    requires limit <= |text|
    ensures n <= limit
    ensures n > 0 ==> MayBegin(text, stops, n)
    ensures forall m: nat :: n < m <= limit ==> !MayBegin(text, stops, m)
  {
    if limit == 0 || MayBegin(text, stops, limit) then limit else HeldBack(text, stops, limit - 1)
  }

  /** What may be shown of a text in which no stop occurs: all but the longest possible start of a stop. */
  function Safe(text: string, stops: seq<string>): string {
    text[..|text| - HeldBack(text, stops, |text|)]
  }

  function Pending(text: string, stops: seq<string>): string {
    text[|text| - HeldBack(text, stops, |text|)..]
  }

  function Joined(parts: seq<string>): string {
    if parts == [] then "" else parts[0] + Joined(parts[1..])
  }

  /** What a chunked reading may show: reading stops at the first chunk that completes a stop. */
  ghost function VisibleFrom(read: string, chunks: seq<string>, stops: seq<string>): string
    decreases |chunks|
  {
    if HasStop(read, stops) then Cut(read, stops)
    else if chunks == [] then read
    else VisibleFrom(read + chunks[0], chunks[1..], stops)
  }

  ghost function Visible(chunks: seq<string>, stops: seq<string>): string {
    VisibleFrom("", chunks, stops)
  }

  // ----- facts about occurrences -----------------------------------------------------------------

  lemma HasStopIffFound(text: string, stops: seq<string>)
    requires NonEmpty(stops)
    ensures HasStop(text, stops) <==> FirstStop(text, stops, 0) < |text|
  {
    if HasStop(text, stops) {
      var i: nat :| StopAt(text, stops, i);
      assert i < |text|;
    }
  }

  lemma OccursInSuffix(text: string, stop: string, from: nat, i: nat)
    requires from <= |text|
    ensures OccursAt(text[from..], stop, i) <==> OccursAt(text, stop, from + i)
  {
    if from + i + |stop| <= |text| {
      assert text[from..][i..i + |stop|] == text[from + i..from + i + |stop|];
    }
  }

  lemma StopInSuffix(text: string, stops: seq<string>, from: nat, i: nat)
    requires from <= |text|
    ensures StopAt(text[from..], stops, i) <==> StopAt(text, stops, from + i)
  {
    forall k | 0 <= k < |stops|
      ensures OccursAt(text[from..], stops[k], i) <==> OccursAt(text, stops[k], from + i)
    {
      OccursInSuffix(text, stops[k], from, i);
    }
  }

  lemma StopInPrefix(text: string, more: string, stops: seq<string>, k: nat, i: nat)
    requires k < |stops| && i + |stops[k]| <= |text| && OccursAt(text + more, stops[k], i)
    ensures StopAt(text, stops, i) && HasStop(text, stops)
  {
    assert (text + more)[i..i + |stops[k]|] == text[i..i + |stops[k]|];
    assert OccursAt(text, stops[k], i);
  }

  lemma StopStays(text: string, more: string, stops: seq<string>, i: nat)
    requires StopAt(text, stops, i)
    ensures StopAt(text + more, stops, i) && HasStop(text + more, stops)
  {
    var k :| 0 <= k < |stops| && OccursAt(text, stops[k], i);
    assert (text + more)[i..i + |stops[k]|] == text[i..i + |stops[k]|];
    assert OccursAt(text + more, stops[k], i);
  }

  /** A stop that starts inside the text and is completed only by `more` begins inside the held-back suffix. */
  lemma NewStopStartsInPending(text: string, more: string, stops: seq<string>, i: nat)
    requires !HasStop(text, stops) && StopAt(text + more, stops, i)
    ensures |Safe(text, stops)| <= i
  {
    if i < |text| {
      var k :| 0 <= k < |stops| && OccursAt(text + more, stops[k], i);
      if i + |stops[k]| <= |text| {
        StopInPrefix(text, more, stops, k, i);
      }
      assert text[i..] == (text + more)[i..i + |stops[k]|][..|text| - i];
      assert text[i..] < stops[k];
      assert MayBegin(text, stops, |text| - i);
    }
  }

  // ----- the matcher on its buffer -----------------------------------------------------------------

  lemma BufferSplits(text: string, more: string, stops: seq<string>)
    ensures Safe(text, stops) + (Pending(text, stops) + more) == text + more
    ensures (text + more)[|Safe(text, stops)|..] == Pending(text, stops) + more
  {
  }

  /** The earliest start in a suffix is the earliest start in the whole, if nothing starts before the suffix. */
  lemma FirstStopOfSuffix(whole: string, stops: seq<string>, from: nat)
    requires from <= |whole| && forall j: nat :: j < from ==> !StopAt(whole, stops, j)
    ensures FirstStop(whole, stops, 0) == from + FirstStop(whole[from..], stops, 0)
  {
    var i, j := FirstStop(whole[from..], stops, 0), FirstStop(whole, stops, 0);
    if i < |whole| - from {
      StopInSuffix(whole, stops, from, i);
    }
    if j < |whole| {
      StopInSuffix(whole, stops, from, j - from);
    }
  }

  /** The stops of `text + more` are those of the held-back suffix followed by `more`. */
  lemma BufferSeesEveryStop(text: string, more: string, stops: seq<string>)
    requires NonEmpty(stops) && !HasStop(text, stops)
    ensures var (safe, buffer) := (Safe(text, stops), Pending(text, stops) + more);
      && safe + buffer == text + more
      && (HasStop(text + more, stops) <==> HasStop(buffer, stops))
      && Cut(text + more, stops) == safe + Cut(buffer, stops)
  {
    var safe, buffer, whole := Safe(text, stops), Pending(text, stops) + more, text + more;
    BufferSplits(text, more, stops);
    forall j: nat | j < |safe| ensures !StopAt(whole, stops, j) {
      if StopAt(whole, stops, j) {
        NewStopStartsInPending(text, more, stops, j);
      }
    }
    FirstStopOfSuffix(whole, stops, |safe|);
    HasStopIffFound(whole, stops);
    HasStopIffFound(buffer, stops);
  }

  lemma ProperPrefixShrinks(s: string, shorter: string, stops: seq<string>)
    requires ProperStopPrefix(s, stops) && shorter <= s
    ensures ProperStopPrefix(shorter, stops)
  {
    var k :| 0 <= k < |stops| && s < stops[k];
    assert shorter < stops[k];
  }

  /** A start of a stop that reaches into the new chunk starts inside the held-back suffix. */
  lemma HeldBackFitsBuffer(text: string, more: string, stops: seq<string>, n: nat)
    requires |Pending(text, stops) + more| < n <= |text + more|
    ensures !MayBegin(text + more, stops, n)
  {
    var whole := text + more;
    var start := |whole| - n;
    if MayBegin(whole, stops, n) {
      assert text[start..] <= whole[start..];
      ProperPrefixShrinks(whole[start..], text[start..], stops);
      assert MayBegin(text, stops, |text| - start);
    }
  }

  /** Searching the buffer for the longest possible start of a stop is searching the whole text. */
  lemma BufferHoldsBackEnough(text: string, more: string, stops: seq<string>)
    ensures var buffer := Pending(text, stops) + more;
      && Pending(buffer, stops) == Pending(text + more, stops)
      && Safe(text, stops) + Safe(buffer, stops) == Safe(text + more, stops)
  {
    var safe, buffer, whole := Safe(text, stops), Pending(text, stops) + more, text + more;
    BufferSplits(text, more, stops);
    var n, m := HeldBack(whole, stops, |whole|), HeldBack(buffer, stops, |buffer|);
    if n > |buffer| {
      HeldBackFitsBuffer(text, more, stops, n);
    }
    SuffixesAgree(safe, buffer, stops, n);
    SuffixesAgree(safe, buffer, stops, m);
    assert whole == safe + buffer;
    assert n == m;
  }

  lemma SuffixesAgree(safe: string, buffer: string, stops: seq<string>, n: nat)
    requires n <= |buffer|
    ensures MayBegin(buffer, stops, n) == MayBegin(safe + buffer, stops, n)
  {
    assert (safe + buffer)[|safe + buffer| - n..] == buffer[|buffer| - n..];
  }

  // ----- the code ----------------------------------------------------------------------------------

  /** `str.find`. */
  method Find(text: string, stop: string) returns (found: Option<nat>)
    ensures found.Some? ==> OccursAt(text, stop, found.value)
    ensures forall j: nat :: (found.None? || j < found.value) ==> !OccursAt(text, stop, j)
  {
    for i := 0 to |text| + 1
      invariant forall j: nat :: j < i ==> !OccursAt(text, stop, j)
    {
      if i + |stop| <= |text| && text[i..i + |stop|] == stop {
        return Some(i);
      }
    }
    return None;
  }

  method LongestStop(stops: seq<string>) returns (limit: nat)
    ensures forall k :: 0 <= k < |stops| ==> |stops[k]| <= limit + 1
  {
    limit := 0;
    for i := 0 to |stops|
      invariant forall k :: 0 <= k < i ==> |stops[k]| <= limit + 1
    {
      if |stops[i]| > limit + 1 {
        limit := |stops[i]| - 1;
      }
    }
  }

  /** The smallest start of any stop in the text. */
  method FindEarliest(text: string, stops: seq<string>) returns (best: Option<nat>)
    requires NonEmpty(stops)
    ensures best.Some? <==> HasStop(text, stops)
    ensures best.Some? ==> best.value == FirstStop(text, stops, 0) < |text|
  {
    HasStopIffFound(text, stops);
    best := None;
    for k := 0 to |stops|
      invariant best.Some? ==> StopAt(text, stops, best.value) && best.value < |text|
      invariant forall m, j: nat :: 0 <= m < k && (best.None? || j < best.value) ==> !OccursAt(text, stops[m], j)
    {
      var found := Find(text, stops[k]);
      if found.Some? && (best.None? || found.value < best.value) {
        best := found;
      }
    }
  }

  lemma SuffixIsStop(text: string, stops: seq<string>, k: nat, length: nat)
    requires length <= |text| && k < |stops| && text[|text| - length..] == stops[k]
    ensures HasStop(text, stops)
  {
    assert OccursAt(text, stops[k], |text| - length);
    assert StopAt(text, stops, |text| - length);
  }

  /** Whether some stop starts with the given suffix of a text in which no stop occurs. */
  method StartsSomeStop(text: string, stops: seq<string>, length: nat) returns (starts: bool)
    requires 0 < length <= |text| && !HasStop(text, stops)
    ensures starts == MayBegin(text, stops, length)
  {
    var suffix := text[|text| - length..];
    for k := 0 to |stops|
      invariant forall m :: 0 <= m < k ==> !(suffix < stops[m])
    {
      if suffix <= stops[k] {
        if suffix == stops[k] {
          SuffixIsStop(text, stops, k, length);
        }
        return true;
      }
    }
    return false;
  }

  /** Safe output, a possible start of a stop that is kept back, and whether a stop matched. */
  method ConsumeStopText(buffered: string, incoming: string, stops: seq<string>)
    returns (output: string, pending: string, matched: bool)
    requires NonEmpty(stops)
    ensures matched <==> HasStop(buffered + incoming, stops)
    ensures matched ==> output == Cut(buffered + incoming, stops) && pending == ""
    ensures !matched ==> output == Safe(buffered + incoming, stops) && pending == Pending(buffered + incoming, stops)
  {
    var combined := buffered + incoming;
    var best := FindEarliest(combined, stops);
    if best.Some? {
      return combined[..best.value], "", true;
    }
    var limit := LongestStop(stops);
    var length := if |combined| < limit then |combined| else limit;
    while length > 0
      invariant length <= |combined|
      invariant forall m: nat :: length < m <= |combined| ==> !MayBegin(combined, stops, m)
    {
      var starts := StartsSomeStop(combined, stops, length);
      if starts {
        return combined[..|combined| - length], combined[|combined| - length..], false;
      }
      length := length - 1;
    }
    return combined, "", false;
  }

  lemma {:induction false} JoinedAppend(parts: seq<string>, last: string)
    ensures Joined(parts + [last]) == Joined(parts) + last
  {
    if parts == [] {
      assert parts + [last] == [last];
    } else {
      JoinedAppend(parts[1..], last);
      assert (parts + [last])[1..] == parts[1..] + [last];
    }
  }

  lemma JoinedTake(chunks: seq<string>, i: nat)
    requires i < |chunks|
    ensures Joined(chunks[..i + 1]) == Joined(chunks[..i]) + chunks[i]
  {
    assert chunks[..i + 1] == chunks[..i] + [chunks[i]];
    JoinedAppend(chunks[..i], chunks[i]);
  }

  /** What the stream has emitted and keeps back after reading `read`. */
  ghost predicate Emitted(parts: seq<string>, pending: string, matched: bool, read: string, stops: seq<string>) {
    && (matched <==> HasStop(read, stops))
    && (matched ==> Joined(parts) == Cut(read, stops) && pending == "")
    && (!matched ==> Joined(parts) == Safe(read, stops) && pending == Pending(read, stops))
    && forall j :: 0 <= j < |parts| ==> parts[j] != ""
  }

  /** Matching `pending + delta` instead of everything read so far loses nothing. */
  lemma ConsumingTheBufferIsEnough(parts: seq<string>, pending: string, read: string, stops: seq<string>,
                                   delta: string, output: string, kept: string, matched: bool)
    requires NonEmpty(stops) && Emitted(parts, pending, false, read, stops)
    requires matched <==> HasStop(pending + delta, stops)
    requires matched ==> output == Cut(pending + delta, stops) && kept == ""
    requires !matched ==> output == Safe(pending + delta, stops) && kept == Pending(pending + delta, stops)
    ensures Emitted(if output == "" then parts else parts + [output], kept, matched, read + delta, stops)
  {
    BufferSeesEveryStop(read, delta, stops);
    BufferHoldsBackEnough(read, delta, stops);
    JoinedAppend(parts, output);
  }

  lemma NoStopsHoldNothingBack(text: string, stops: seq<string>)
    requires stops == []
    ensures !HasStop(text, stops) && Safe(text, stops) == text && Pending(text, stops) == ""
  {
  }

  lemma ReadOneChunk(read: string, chunks: seq<string>, i: nat, stops: seq<string>)
    requires i < |chunks| && !HasStop(read, stops)
    ensures VisibleFrom(read, chunks[i..], stops) == VisibleFrom(read + chunks[i], chunks[i + 1..], stops)
  {
    assert chunks[i..][1..] == chunks[i + 1..];
  }

  /** One turn of the delta loop: what it appends, keeps back and reports. */
  method StreamDelta(ghost read: string, parts: seq<string>, pending: string, chunk: string, stops: seq<string>)
    returns (grown: seq<string>, kept: string, matched: bool)
    requires NonEmpty(stops) && Emitted(parts, pending, false, read, stops)
    ensures Emitted(grown, kept, matched, read + chunk, stops)
  {
    grown, kept, matched := parts, pending, false;
    if chunk != "" {
      var delta := chunk;
      if stops != [] {
        delta, kept, matched := ConsumeStopText(pending, delta, stops);
      } else {
        NoStopsHoldNothingBack(read, stops);
        NoStopsHoldNothingBack(pending + delta, stops);
      }
      ConsumingTheBufferIsEnough(parts, pending, read, stops, chunk, delta, kept, matched);
      if delta != "" {
        grown := grown + [delta];
      }
    } else {
      assert read + chunk == read;
    }
  }

  lemma NothingReadYet(stops: seq<string>)
    requires NonEmpty(stops)
    ensures Emitted([], "", false, "", stops)
  {
  }

  lemma {:induction false} JoinedSplit(chunks: seq<string>, i: nat)
    requires i <= |chunks|
    ensures Joined(chunks) == Joined(chunks[..i]) + Joined(chunks[i..])
  {
    if i == 0 {
      assert chunks[..i] == [] && chunks[i..] == chunks;
    } else {
      JoinedSplit(chunks[1..], i - 1);
      assert chunks[1..][..i - 1] == chunks[..i][1..] && chunks[1..][i - 1..] == chunks[i..];
    }
  }

  /** A stop in what was read is a stop in the whole text. */
  lemma ReadOfStopIsStop(chunks: seq<string>, i: nat, stops: seq<string>)
    requires i <= |chunks|
    ensures HasStop(Joined(chunks[..i]), stops) ==> HasStop(Joined(chunks), stops)
  {
    JoinedSplit(chunks, i);
    if HasStop(Joined(chunks[..i]), stops) {
      var k: nat :| StopAt(Joined(chunks[..i]), stops, k);
      StopStays(Joined(chunks[..i]), Joined(chunks[i..]), stops, k);
    }
  }

  /** Flushing what is kept back completes the visible text. */
  lemma Flush(parts: seq<string>, pending: string, matched: bool, read: string, rest: seq<string>, stops: seq<string>)
    requires Emitted(parts, pending, matched, read, stops) && (matched || rest == [])
    ensures Joined(parts) + pending == VisibleFrom(read, rest, stops)
    ensures !matched ==> Joined(parts) + pending == read
    ensures Joined(parts + [pending]) == Joined(parts) + pending
  {
    JoinedAppend(parts, pending);
  }

  /** The delta loop of `_stream_common`: the deltas it yields, and whether it stopped at a stop sequence. */
  method StreamDeltas(chunks: seq<string>, stops: seq<string>) returns (parts: seq<string>, matched: bool)
    requires NonEmpty(stops)
    ensures Joined(parts) == Visible(chunks, stops)
    ensures forall i :: 0 <= i < |parts| ==> parts[i] != ""
    ensures matched <==> HasStop(Joined(chunks), stops)
    ensures !matched ==> Joined(parts) == Joined(chunks)
  {
    NothingReadYet(stops);
    parts, matched := [], false;
    var pending := "";
    ghost var read := "";
    var i := 0;
    while i < |chunks| && !matched
      invariant 0 <= i <= |chunks|
      invariant read == Joined(chunks[..i])
      invariant Emitted(parts, pending, matched, read, stops)
      invariant VisibleFrom(read, chunks[i..], stops) == Visible(chunks, stops)
      decreases |chunks| - i
    {
      JoinedTake(chunks, i);
      ReadOneChunk(read, chunks, i, stops);
      parts, pending, matched := StreamDelta(read, parts, pending, chunks[i], stops);
      read := read + chunks[i];
      i := i + 1;
    }
    Flush(parts, pending, matched, read, chunks[i..], stops);
    assert !matched ==> chunks[..i] == chunks;
    ReadOfStopIsStop(chunks, i, stops);
    if pending != "" && !matched {
      parts := parts + [pending];
    }
  }
}

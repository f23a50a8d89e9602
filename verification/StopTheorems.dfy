/** What a reader of a stream with stop sequences may rely on, and exactly when chunking is irrelevant. */
module StopTheorems {
  import opened StopText

  // ----- the visible text ------------------------------------------------------------------------

  lemma CutHasNoStop(text: string, stops: seq<string>)
    requires NonEmpty(stops)
    ensures !HasStop(Cut(text, stops), stops)
  {
    var cut := Cut(text, stops);
    assert cut + text[|cut|..] == text;
    if HasStop(cut, stops) {
      var i: nat :| StopAt(cut, stops, i);
      StopStays(cut, text[|cut|..], stops, i);
    }
  }

  lemma {:induction false} VisibleFromHasNoStop(read: string, chunks: seq<string>, stops: seq<string>)
    requires NonEmpty(stops)
    ensures !HasStop(VisibleFrom(read, chunks, stops), stops)
    decreases |chunks|
  {
    if HasStop(read, stops) {
      CutHasNoStop(read, stops);
    } else if chunks != [] {
      VisibleFromHasNoStop(read + chunks[0], chunks[1..], stops);
    }
  }

  /** No stop sequence ever occurs in what the stream shows. */
  lemma VisibleHasNoStop(chunks: seq<string>, stops: seq<string>)
    requires NonEmpty(stops)
    ensures !HasStop(Visible(chunks, stops), stops)
  {
    VisibleFromHasNoStop("", chunks, stops);
  }

  /** Showing the whole text in one chunk shows everything before its earliest stop. */
  lemma OneChunkShowsCut(text: string, stops: seq<string>)
    requires NonEmpty(stops)
    ensures Visible([text], stops) == Cut(text, stops)
  {
    assert "" + text == text;
    assert VisibleFrom("", [text], stops) == VisibleFrom(text, [], stops);
    HasStopIffFound(text, stops);
  }

  /** After each chunk the shown text is safe: whatever follows, the final text begins with it. */
  lemma ShownIsIrrevocable(text: string, stops: seq<string>, more: string)
    requires NonEmpty(stops) && !HasStop(text, stops)
    ensures Safe(text, stops) <= text && Safe(text, stops) <= Cut(text + more, stops)
  {
    BufferSeesEveryStop(text, more, stops);
  }

  lemma {:induction false} VisibleFromMore(read: string, chunks: seq<string>, more: seq<string>, stops: seq<string>)
    requires NonEmpty(stops)
    ensures ShownAfter(read, chunks, stops) <= VisibleFrom(read, chunks + more, stops)
    decreases |chunks|
  {
    if !HasStop(read, stops) {
      if chunks == [] {
        assert chunks + more == more;
        SafeIsShown(read, more, stops);
      } else {
        assert (chunks + more)[1..] == chunks[1..] + more;
        VisibleFromMore(read + chunks[0], chunks[1..], more, stops);
      }
    }
  }

  /** What has been shown when all of `chunks` have been read after `read`: up to the stop, or the safe part. */
  ghost function ShownAfter(read: string, chunks: seq<string>, stops: seq<string>): string
    decreases |chunks|
  {
    if HasStop(read, stops) then Cut(read, stops)
    else if chunks == [] then Safe(read, stops)
    else ShownAfter(read + chunks[0], chunks[1..], stops)
  }

  lemma {:induction false} SafeIsShown(read: string, more: seq<string>, stops: seq<string>)
    requires NonEmpty(stops) && !HasStop(read, stops)
    ensures Safe(read, stops) <= VisibleFrom(read, more, stops)
    decreases |more|
  {
    if more == [] {
      assert Safe(read, stops) <= read;
    } else {
      var next := read + more[0];
      ShownIsIrrevocable(read, stops, more[0]);
      if !HasStop(next, stops) {
        SafeGrows(read, more[0], stops);
        SafeIsShown(next, more[1..], stops);
      }
    }
  }

  lemma SafeGrows(text: string, more: string, stops: seq<string>)
    requires NonEmpty(stops) && !HasStop(text + more, stops)
    ensures Safe(text, stops) <= Safe(text + more, stops)
  {
    BufferHoldsBackEnough(text, more, stops);
    BufferSplits(text, more, stops);
  }

  /** Nothing that has been shown is taken back: it begins the visible text however the stream goes on. */
  lemma ShownIsKept(chunks: seq<string>, more: seq<string>, stops: seq<string>)
    requires NonEmpty(stops)
    ensures ShownAfter("", chunks, stops) <= Visible(chunks + more, stops)
  {
    VisibleFromMore("", chunks, more, stops);
  }

  /** Some continuation completes the held-back suffix to a stop, or nothing is held back. */
  lemma HeldBackCanBecomeStop(text: string, stops: seq<string>) returns (more: string)
    requires NonEmpty(stops) && !HasStop(text, stops)
    ensures VisibleFrom(text, [more], stops) == Safe(text, stops)
  {
    var pending := Pending(text, stops);
    if pending == "" {
      more := "";
      assert text + more == text;
    } else {
      assert MayBegin(text, stops, |pending|);
      var k :| 0 <= k < |stops| && pending < stops[k];
      more := stops[k][|pending|..];
      assert pending + more == stops[k];
      assert OccursAt(pending + more, stops[k], 0);
      assert StopAt(pending + more, stops, 0);
      BufferSeesEveryStop(text, more, stops);
    }
    assert VisibleFrom(text, [more], stops) == VisibleFrom(text + more, [], stops);
  }

  lemma {:induction false} TightFrom(read: string, chunks: seq<string>, stops: seq<string>) returns (more: string)
    requires NonEmpty(stops)
    ensures VisibleFrom(read, chunks + [more], stops) == ShownAfter(read, chunks, stops)
    decreases |chunks|
  {
    if HasStop(read, stops) {
      more := "";
    } else if chunks == [] {
      more := HeldBackCanBecomeStop(read, stops);
      assert chunks + [more] == [more];
    } else {
      more := TightFrom(read + chunks[0], chunks[1..], stops);
      assert (chunks + [more])[1..] == chunks[1..] + [more];
    }
  }

  /** And nothing more could be shown: after any chunks, one more chunk may make all the rest invisible. */
  lemma ShownIsTight(chunks: seq<string>, stops: seq<string>) returns (more: string)
    requires NonEmpty(stops)
    ensures Visible(chunks + [more], stops) == ShownAfter("", chunks, stops)
  {
    more := TightFrom("", chunks, stops);
  }

  /** So a text begins the visible text of every continuation if and only if it begins what has been shown. */
  lemma KeptIffShown(chunks: seq<string>, stops: seq<string>, s: string)
    requires NonEmpty(stops)
    ensures (forall more: seq<string> :: s <= Visible(chunks + more, stops)) <==> s <= ShownAfter("", chunks, stops)
  {
    if s <= ShownAfter("", chunks, stops) {
      forall more: seq<string> ensures s <= Visible(chunks + more, stops) {
        ShownIsKept(chunks, more, stops);
      }
    } else {
      var more := LongerIsRevocable(chunks, stops, s);
      assert !(s <= Visible(chunks + [more], stops));
    }
  }

  /** In particular anything longer than what has been shown is taken back by some next chunk. */
  lemma LongerIsRevocable(chunks: seq<string>, stops: seq<string>, longer: string) returns (more: string)
    requires NonEmpty(stops) && !(longer <= ShownAfter("", chunks, stops))
    ensures !(longer <= Visible(chunks + [more], stops))
  {
    more := ShownIsTight(chunks, stops);
  }

  lemma {:induction false} ShownUntilNow(read: string, chunks: seq<string>, last: string, stops: seq<string>)
    requires NonEmpty(stops) && !HasStop(read + Joined(chunks), stops)
    ensures var all := read + Joined(chunks) + last;
      ShownAfter(read, chunks + [last], stops) == if HasStop(all, stops) then Cut(all, stops) else Safe(all, stops)
    decreases |chunks|
  {
    if HasStop(read, stops) {
      var i: nat :| StopAt(read, stops, i);
      StopStays(read, Joined(chunks), stops, i);
    } else if chunks == [] {
      assert chunks + [last] == [last] && read + Joined(chunks) == read;
      assert ShownAfter(read, [last], stops) == ShownAfter(read + last, [], stops);
    } else {
      assert (chunks + [last])[1..] == chunks[1..] + [last];
      assert read + Joined(chunks) == read + chunks[0] + Joined(chunks[1..]);
      ShownUntilNow(read + chunks[0], chunks[1..], last, stops);
    }
  }

  /** This is what the delta loop has emitted when it has read `chunks` and then `last`. */
  lemma EmittedIsShown(parts: seq<string>, pending: string, matched: bool, chunks: seq<string>, last: string,
                       stops: seq<string>)
    requires NonEmpty(stops) && !HasStop(Joined(chunks), stops)
    requires Emitted(parts, pending, matched, Joined(chunks) + last, stops)
    ensures Joined(parts) == ShownAfter("", chunks + [last], stops)
  {
    assert "" + Joined(chunks) == Joined(chunks);
    ShownUntilNow("", chunks, last, stops);
  }

  // ----- when the chunking matters ----------------------------------------------------------------

  /** Stop `t` occurs strictly inside stop `s`: after its start and ending before its end. */
  predicate StrictlyInside(stops: seq<string>, s: nat, t: nat, offset: nat)
    requires s < |stops| && t < |stops|
  {
    0 < offset && offset + |stops[t]| < |stops[s]| && OccursAt(stops[s], stops[t], offset)
  }

  /** Some stop is completed at the very start of `text`. */
  predicate StartsWithStop(text: string, stops: seq<string>) {
    StopAt(text, stops, 0)
  }

  /**
   Wherever a stop lies strictly inside another, some stop that begins with the outer one is complete no
   later than the inner one. A caller can test this on the list of stops alone.
  */
  predicate Shielded(stops: seq<string>) {
    forall s: nat, t: nat, offset: nat | s < |stops| && t < |stops| && offset < |stops[s]| ::
      StrictlyInside(stops, s, t, offset) ==> StartsWithStop(stops[s][..offset + |stops[t]|], stops)
  }

  lemma StartOfOccurrence(text: string, stop: string, i: nat, n: nat)
    requires OccursAt(text, stop, i) && i <= n <= i + |stop|
    ensures text[i..n] == stop[..n - i]
  {
    assert text[i..n] == text[i..i + |stop|][..n - i];
  }

  /**
   If reading stops after the prefix `read` of `text`, it stops in time: the earliest stop of the prefix
   is the earliest stop of the text.
  */
  lemma EarlyStopIsEarliest(read: string, rest: string, stops: seq<string>)
    requires NonEmpty(stops) && Shielded(stops) && HasStop(read, stops)
    ensures FirstStop(read, stops, 0) == FirstStop(read + rest, stops, 0)
  {
    var text := read + rest;
    HasStopIffFound(read, stops);
    var j, i := FirstStop(read, stops, 0), FirstStop(text, stops, 0);
    var t :| 0 <= t < |stops| && OccursAt(read, stops[t], j);
    assert text[j..j + |stops[t]|] == read[j..j + |stops[t]|];
    assert OccursAt(text, stops[t], j);
    assert StopAt(text, stops, j);
    if i < j {
      var s :| 0 <= s < |stops| && OccursAt(text, stops[s], i);
      EarlierStopFits(read, rest, stops, s, t, i, j);
    }
  }

  /** An earlier stop of the text that overlaps an occurrence in the prefix leaves a stop in the prefix, too. */
  lemma EarlierStopFits(read: string, rest: string, stops: seq<string>, s: nat, t: nat, i: nat, j: nat)
    requires NonEmpty(stops) && Shielded(stops) && s < |stops| && t < |stops| && i < j
    requires OccursAt(read + rest, stops[s], i) && OccursAt(read, stops[t], j)
    ensures StopAt(read, stops, i)
  {
    var text := read + rest;
    var offset, end := j - i, j + |stops[t]|;
    if i + |stops[s]| <= |read| {
      StopInPrefix(read, rest, stops, s, i);
    } else {
      assert text[j..end] == read[j..end];
      StartOfOccurrence(text, stops[s], i, end);
      assert stops[s][..end - i] == text[i..end];
      assert stops[s][offset..offset + |stops[t]|] == text[j..end];
      assert StrictlyInside(stops, s, t, offset);
      var head := stops[s][..offset + |stops[t]|];
      assert StartsWithStop(head, stops);
      var u :| 0 <= u < |stops| && OccursAt(head, stops[u], 0);
      assert |stops[u]| <= |head| == end - i && end <= |read|;
      assert read[i..end] == text[i..end] == head;
      assert read[i..end][..|stops[u]|] == read[i..i + |stops[u]|];
      assert head[..|stops[u]|] == stops[u];
      assert OccursAt(read, stops[u], i);
    }
  }

  lemma {:induction false} ShieldedShowsCut(read: string, chunks: seq<string>, stops: seq<string>)
    requires NonEmpty(stops) && Shielded(stops)
    ensures VisibleFrom(read, chunks, stops) == Cut(read + Joined(chunks), stops)
    decreases |chunks|
  {
    if HasStop(read, stops) {
      EarlyStopIsEarliest(read, Joined(chunks), stops);
      assert (read + Joined(chunks))[..FirstStop(read, stops, 0)] == read[..FirstStop(read, stops, 0)];
    } else if chunks == [] {
      HasStopIffFound(read, stops);
      assert read + "" == read;
    } else {
      ShieldedShowsCut(read + chunks[0], chunks[1..], stops);
      assert read + chunks[0] + Joined(chunks[1..]) == read + Joined(chunks);
    }
  }

  lemma ReadingEndsWithFirstChunk(first: string, rest: string, stops: seq<string>)
    requires NonEmpty(stops) && HasStop(first, stops)
    ensures Joined([first, rest]) == first + rest
    ensures Visible([first, rest], stops) == Cut(first, stops)
  {
    assert [first, rest][1..] == [rest] && Joined([rest]) == rest;
    HasStopIffFound("", stops);
    assert "" + first == first;
    assert VisibleFrom("", [first, rest], stops) == VisibleFrom(first, [rest], stops);
  }

  /** An unshielded stop is cut differently when the first chunk ends with the inner stop. */
  lemma UnshieldedChunkingMatters(stops: seq<string>, s: nat, t: nat, offset: nat)
    requires NonEmpty(stops) && s < |stops| && t < |stops| && StrictlyInside(stops, s, t, offset)
    requires !StartsWithStop(stops[s][..offset + |stops[t]|], stops)
    ensures var first, rest := stops[s][..offset + |stops[t]|], stops[s][offset + |stops[t]|..];
      && Joined([first, rest]) == stops[s]
      && Visible([first, rest], stops) != "" && Cut(stops[s], stops) == ""
  {
    var n := offset + |stops[t]|;
    var first, rest := stops[s][..n], stops[s][n..];
    assert first[offset..n] == stops[s][offset..n];
    assert OccursAt(first, stops[t], offset);
    assert StopAt(first, stops, offset);
    ReadingEndsWithFirstChunk(first, rest, stops);
    assert OccursAt(stops[s], stops[s], 0);
    assert StopAt(stops[s], stops, 0);
  }

  /**
   Chunking is irrelevant, that is every way of cutting any text into chunks shows the text before its
   earliest stop, if and only if the stops are shielded.
  */
  lemma ChunkingIrrelevantIffShielded(stops: seq<string>)
    requires NonEmpty(stops)
    ensures (forall chunks: seq<string> :: Visible(chunks, stops) == Cut(Joined(chunks), stops)) <==> Shielded(stops)
  {
    if Shielded(stops) {
      forall chunks: seq<string> ensures Visible(chunks, stops) == Cut(Joined(chunks), stops) {
        ShieldedShowsCut("", chunks, stops);
        assert "" + Joined(chunks) == Joined(chunks);
      }
    } else {
      var s: nat, t: nat, offset: nat :| s < |stops| && t < |stops| && offset < |stops[s]|
        && StrictlyInside(stops, s, t, offset) && !StartsWithStop(stops[s][..offset + |stops[t]|], stops);
      UnshieldedChunkingMatters(stops, s, t, offset);
      var first, rest := stops[s][..offset + |stops[t]|], stops[s][offset + |stops[t]|..];
      assert Visible([first, rest], stops) != Cut(Joined([first, rest]), stops);
    }
  }

  /** In particular when no stop lies strictly inside another. */
  lemma NoStopInsideAnotherIsShielded(stops: seq<string>)
    requires forall s: nat, t: nat, offset: nat | s < |stops| && t < |stops| && offset < |stops[s]| ::
      !StrictlyInside(stops, s, t, offset)
    ensures Shielded(stops)
  {
  }
}

/** The reader accepts exactly the encodings of well-formed headers, and what acceptance implies. */
module GgufTheorems {
  import opened Wrappers
  import opened ByteStrings
  import opened GgufFormat
  import opened GgufReader

  /** `b` stands in the file at `pos` and within the inspection limit. */
  predicate At(f: File, pos: nat, b: Bytes) {
    f.start <= pos && pos - f.start + |b| <= MAX_HEADER && pos + |b| <= |f.data| && f.data[pos..pos + |b|] == b
  }

  /** A position the reader can be at. */
  predicate InRange(f: File, pos: nat) {
    f.start <= pos <= |f.data| && pos - f.start <= MAX_HEADER
  }

  lemma AtConcat(f: File, pos: nat, a: Bytes, b: Bytes)
    ensures At(f, pos, a + b) <==> At(f, pos, a) && At(f, pos + |a|, b)
  {
    if pos + |a| + |b| <= |f.data| {
      var whole := f.data[pos..pos + |a| + |b|];
      assert whole == f.data[pos..pos + |a|] + f.data[pos + |a|..pos + |a| + |b|];
      assert whole[..|a|] == f.data[pos..pos + |a|] && whole[|a|..] == f.data[pos + |a|..pos + |a| + |b|];
      assert (a + b)[..|a|] == a && (a + b)[|a|..] == b;
    }
  }

  lemma TakeIff(f: File, pos: nat, n: nat, b: Bytes, next: nat)
    requires f.start <= pos
    ensures Take(f, pos, n) == Got(b, next) <==> |b| == n && next == pos + n && At(f, pos, b)
  {
  }

  lemma ReadU32Iff(f: File, pos: nat, n: u32, next: nat)
    requires f.start <= pos
    ensures ReadU32(f, pos) == Got(n, next) <==> next == pos + 4 && At(f, pos, U32(n))
  {
    if Take(f, pos, 4).Got? {
      U32Inverse(n, Take(f, pos, 4).value);
    }
  }

  lemma ReadU64Iff(f: File, pos: nat, n: u64, next: nat)
    requires f.start <= pos
    ensures ReadU64(f, pos) == Got(n, next) <==> next == pos + 8 && At(f, pos, U64(n))
  {
    if Take(f, pos, 8).Got? {
      U64Inverse(n, Take(f, pos, 8).value);
    }
  }

  lemma ReadTextIff(f: File, pos: nat, b: Bytes, next: nat)
    requires f.start <= pos
    ensures ReadText(f, pos) == Got(b, next)
       <==> ValidText(b, f.size) && next == pos + 8 + |b| && At(f, pos, EncodeText(b))
  {
    if |b| <= MAX_STRING {
      AtConcat(f, pos, U64(|b|), b);
      ReadU64Iff(f, pos, |b|, pos + 8);
    }
    if ReadU64(f, pos).Got? {
      TakeIff(f, pos + 8, ReadU64(f, pos).value, b, next);
    }
  }

  lemma ReadItemIff(f: File, pos: nat, x: Item, next: nat)
    requires f.start <= pos
    ensures ReadItem(f, pos, ItemType(x)) == Got(x, next)
       <==> ValidItem(x, f.size) && next == pos + |EncodeItem(x, f.size)| && At(f, pos, EncodeItem(x, f.size))
  {
    match x
    case Text(b) => ReadTextIff(f, pos, b, next);
    case Flag(b) => TakeIff(f, pos, 1, [if b then 1 else 0], next);
    case Scalar(t, raw) => TakeIff(f, pos, ScalarWidth(t), raw, next);
  }

  lemma ValidItemsCons(xs: seq<Item>, t: u32, size: nat)
    requires xs != []
    ensures ValidItems(xs, t, size) <==> ItemType(xs[0]) == t && ValidItem(xs[0], size) && ValidItems(xs[1..], t, size)
  {
    if ItemType(xs[0]) == t && ValidItem(xs[0], size) && ValidItems(xs[1..], t, size) {
      forall i | 0 <= i < |xs| ensures ItemType(xs[i]) == t && ValidItem(xs[i], size) {
        assert i > 0 ==> xs[i] == xs[1..][i - 1];
      }
    }
  }

  lemma FirstItemRead(f: File, pos: nat, t: u32, read: seq<Item>, xs: seq<Item>, next: nat)
    requires f.start <= pos && xs != []
    requires ReadItems(f, pos, t, |xs|, read) == Got(read + xs, next)
    ensures ReadItem(f, pos, t).Got? && ReadItem(f, pos, t).value == xs[0]
  {
    var r := ReadItem(f, pos, t);
    assert (read + xs)[|read|] == xs[0];
    assert (read + [r.value])[|read|] == r.value;
  }

  lemma {:induction false} ReadItemsIff(
    f: File, pos: nat, t: u32, read: seq<Item>, xs: seq<Item>, next: nat)
    requires InRange(f, pos)
    ensures ReadItems(f, pos, t, |xs|, read) == Got(read + xs, next)
       <==> ValidItems(xs, t, f.size) && next == pos + |EncodeItems(xs, t, f.size)|
            && At(f, pos, EncodeItems(xs, t, f.size))
    decreases |xs|
  {
    hide ReadItem, EncodeItem, ValidItem;
    if xs == [] {
      assert read + xs == read;
    } else if ItemType(xs[0]) == t && ValidItem(xs[0], f.size) {
      ValidItemsCons(xs, t, f.size);
      var end := pos + |EncodeItem(xs[0], f.size)|;
      ReadItemIff(f, pos, xs[0], end);
      if At(f, pos, EncodeItem(xs[0], f.size)) {
        assert read + [xs[0]] + xs[1..] == read + xs;
        ReadItemsIff(f, end, t, read + [xs[0]], xs[1..], next);
      } else if ReadItems(f, pos, t, |xs|, read) == Got(read + xs, next) {
        FirstItemRead(f, pos, t, read, xs, next);
        ReadItemIff(f, pos, xs[0], ReadItem(f, pos, t).next);
      }
      if ValidItems(xs[1..], t, f.size) {
        AtConcat(f, pos, EncodeItem(xs[0], f.size), EncodeItems(xs[1..], t, f.size));
      }
    } else if ReadItems(f, pos, t, |xs|, read) == Got(read + xs, next) {
      FirstItemRead(f, pos, t, read, xs, next);
      ReadItemIff(f, pos, xs[0], ReadItem(f, pos, t).next);
    }
  }

  lemma ArrayHeadIff(f: File, pos: nat, elementType: u32, count: u64)
    requires f.start <= pos
    ensures At(f, pos, U32(elementType) + U64(count))
       <==> Take(f, pos, 12).Got? && var b := Take(f, pos, 12).value;
              U32Value(b[..4]) == elementType && U64Value(b[4..]) == count
  {
    if Take(f, pos, 12).Got? {
      var b := Take(f, pos, 12).value;
      U32Inverse(elementType, b[..4]);
      U64Inverse(count, b[4..]);
      assert b == b[..4] + b[4..];
    }
  }

  lemma ReadArrayIff(f: File, pos: nat, t: u32, xs: seq<Item>, next: nat)
    requires InRange(f, pos)
    ensures ReadValue(f, pos, ARRAY_TYPE) == Got(Items(t, xs), next)
       <==> ValidValue(Items(t, xs), f.size) && next == pos + |EncodeValue(Items(t, xs), f.size)|
            && At(f, pos, EncodeValue(Items(t, xs), f.size))
  {
    hide ReadItems, EncodeItems, ValidItems;
    if |xs| <= MAX_ITEMS {
      ArrayHeadIff(f, pos, t, |xs|);
      if At(f, pos, U32(t) + U64(|xs|)) {
        ReadItemsIff(f, pos + 12, t, [], xs, next);
        assert [] + xs == xs;
      }
      if ValidItems(xs, t, f.size) {
        AtConcat(f, pos, U32(t) + U64(|xs|), EncodeItems(xs, t, f.size));
      }
    }
  }

  lemma ReadValueIff(f: File, pos: nat, v: Value, next: nat)
    requires InRange(f, pos)
    ensures ReadValue(f, pos, ValueType(v)) == Got(v, next)
       <==> ValidValue(v, f.size) && next == pos + |EncodeValue(v, f.size)| && At(f, pos, EncodeValue(v, f.size))
  {
    match v
    case Single(x) => ReadItemIff(f, pos, x, next);
    case Items(t, xs) => ReadArrayIff(f, pos, t, xs, next);
  }

  lemma ReadKeyIff(f: File, pos: nat, key: Bytes, valueType: u32)
    requires f.start <= pos
    ensures var keyEnd := pos + 8 + |key|;
      ReadText(f, pos) == Got(key, keyEnd) && ReadU32(f, keyEnd) == Got(valueType, keyEnd + 4)
      <==> ValidText(key, f.size) && At(f, pos, EncodeText(key) + U32(valueType))
  {
    ReadTextIff(f, pos, key, pos + 8 + |key|);
    ReadU32Iff(f, pos + 8 + |key|, valueType, pos + 8 + |key| + 4);
    if |key| <= MAX_STRING {
      AtConcat(f, pos, EncodeText(key), U32(valueType));
    }
  }

  /** A text that was read ends where its length says. */
  lemma TextEnd(f: File, pos: nat)
    requires f.start <= pos && ReadText(f, pos).Got?
    ensures ReadText(f, pos).next == pos + 8 + |ReadText(f, pos).value|
  {
  }

  lemma ReadEntryIff(f: File, pos: nat, read: seq<Entry>, e: Entry, next: nat)
    requires InRange(f, pos)
    ensures ReadEntry(f, pos, read) == Got(e, next)
       <==> ValidEntry(e, f.size) && !HasKey(read, e.key) && next == pos + |EncodeEntry(e, f.size)|
            && At(f, pos, EncodeEntry(e, f.size))
  {
    hide ReadValue, EncodeValue, ValidValue, ReadU32;
    var valuePos := pos + 12 + |e.key|;
    ReadKeyIff(f, pos, e.key, ValueType(e.value));
    if InRange(f, valuePos) {
      ReadValueIff(f, valuePos, e.value, next);
    }
    if ValidEntry(e, f.size) {
      AtConcat(f, pos, EncodeText(e.key) + U32(ValueType(e.value)), EncodeValue(e.value, f.size));
    }
    if ReadText(f, pos).Got? {
      TextEnd(f, pos);
    }
  }

  lemma ValidEntriesSnoc(es: seq<Entry>, e: Entry, size: nat)
    ensures ValidEntries(es + [e], size) <==> ValidEntries(es, size) && ValidEntry(e, size) && !HasKey(es, e.key)
  {
    var all := es + [e];
    assert all[|es|] == e;
    assert forall i :: 0 <= i < |es| ==> all[i] == es[i];
  }

  lemma ValidEntriesPrefix(es: seq<Entry>, more: seq<Entry>, size: nat)
    requires ValidEntries(es + more, size)
    ensures ValidEntries(es, size) && forall i :: 0 <= i < |more| ==> ValidEntry(more[i], size)
  {
    assert forall i :: 0 <= i < |es| ==> (es + more)[i] == es[i];
    assert forall i :: 0 <= i < |more| ==> (es + more)[|es| + i] == more[i];
  }

  lemma FirstEntryRead(f: File, pos: nat, read: seq<Entry>, es: seq<Entry>, next: nat)
    requires f.start <= pos && es != [] && ReadEntries(f, pos, |es|, read) == Got(read + es, next)
    ensures ReadEntry(f, pos, read).Got? && ReadEntry(f, pos, read).value == es[0]
  {
    var r := ReadEntry(f, pos, read);
    assert (read + es)[|read|] == es[0];
    assert (read + [r.value])[|read|] == r.value;
  }

  /** Reading on from `read` gives `es` iff the encodings of `es` stand in the file and all keys differ. */
  ghost predicate EntriesAt(f: File, pos: nat, read: seq<Entry>, es: seq<Entry>, next: nat) {
    && ValidEntries(read + es, f.size)
    && (forall i :: 0 <= i < |es| ==> ValidEntry(es[i], f.size))
    && next == pos + |EncodeEntries(es, f.size)| && At(f, pos, EncodeEntries(es, f.size))
  }

  lemma EntriesAtCons(f: File, pos: nat, read: seq<Entry>, es: seq<Entry>, next: nat)
    requires InRange(f, pos) && es != []
    ensures EntriesAt(f, pos, read, es, next)
       <==> ValidEntry(es[0], f.size) && At(f, pos, EncodeEntry(es[0], f.size))
            && EntriesAt(f, pos + |EncodeEntry(es[0], f.size)|, read + [es[0]], es[1..], next)
  {
    hide ValidEntry, EncodeEntry;
    assert read + [es[0]] + es[1..] == read + es;
    if ValidEntries(read + es, f.size) {
      ValidEntriesPrefix(read, es, f.size);
      ValidEntriesPrefix(read + [es[0]], es[1..], f.size);
      AtConcat(f, pos, EncodeEntry(es[0], f.size), EncodeEntries(es[1..], f.size));
    }
  }

  lemma {:induction false} ReadEntriesSound(f: File, pos: nat, read: seq<Entry>, es: seq<Entry>, next: nat)
    requires InRange(f, pos) && ValidEntries(read, f.size)
    requires ReadEntries(f, pos, |es|, read) == Got(read + es, next)
    ensures EntriesAt(f, pos, read, es, next)
    decreases |es|
  {
    hide ReadEntry, EncodeEntry, ValidEntry;
    if es == [] {
      assert read + es == read;
    } else {
      FirstEntryRead(f, pos, read, es, next);
      var end := ReadEntry(f, pos, read).next;
      ReadEntryIff(f, pos, read, es[0], end);
      ValidEntriesSnoc(read, es[0], f.size);
      assert read + [es[0]] + es[1..] == read + es;
      ReadEntriesSound(f, end, read + [es[0]], es[1..], next);
      EntriesAtCons(f, pos, read, es, next);
    }
  }

  lemma {:induction false} ReadEntriesComplete(f: File, pos: nat, read: seq<Entry>, es: seq<Entry>, next: nat)
    requires InRange(f, pos) && EntriesAt(f, pos, read, es, next)
    ensures ReadEntries(f, pos, |es|, read) == Got(read + es, next)
    decreases |es|
  {
    hide ReadEntry, EncodeEntry, ValidEntry;
    if es == [] {
      assert read + es == read;
    } else {
      EntriesAtCons(f, pos, read, es, next);
      assert read + [es[0]] + es[1..] == read + es;
      ValidEntriesPrefix(read + [es[0]], es[1..], f.size);
      ValidEntriesSnoc(read, es[0], f.size);
      var end := pos + |EncodeEntry(es[0], f.size)|;
      ReadEntryIff(f, pos, read, es[0], end);
      ReadEntriesComplete(f, end, read + [es[0]], es[1..], next);
    }
  }

  // ----- tensors -----------------------------------------------------------------------------------

  lemma {:induction false} DecodeShapeIff(b: Bytes, shape: seq<u64>)
    requires |b| == 8 * |shape|
    ensures DecodeShape(b) == shape <==> b == EncodeShape(shape)
  {
    if shape != [] {
      U64Inverse(shape[0], b[..8]);
      DecodeShapeIff(b[8..], shape[1..]);
      assert b == b[..8] + b[8..];
      assert shape == [shape[0]] + shape[1..];
    }
  }

  lemma ReadTailIff(f: File, pos: nat, t: Tensor, next: nat)
    requires f.start <= pos
    ensures ReadTensorTail(f, pos, t.name, |t.shape|) == Got(t, next)
       <==> NoZero(t.shape) && t.tensorType <= 4096
            && next == pos + 8 * |t.shape| + 12
            && At(f, pos, EncodeShape(t.shape) + (U32(t.tensorType) + U64(t.offset)))
  {
    hide ReadU32, ReadU64, DecodeShape, EncodeShape;
    var shapeEnd := pos + 8 * |t.shape|;
    if Take(f, pos, 8 * |t.shape|).Got? {
      DecodeShapeIff(Take(f, pos, 8 * |t.shape|).value, t.shape);
    }
    ReadU32Iff(f, shapeEnd, t.tensorType, shapeEnd + 4);
    ReadU64Iff(f, shapeEnd + 4, t.offset, shapeEnd + 12);
    AtConcat(f, pos, EncodeShape(t.shape), U32(t.tensorType) + U64(t.offset));
    AtConcat(f, shapeEnd, U32(t.tensorType), U64(t.offset));
  }

  /** Name and number of dimensions, which the first half of the descriptor holds. */
  predicate NameAt(f: File, pos: nat, t: Tensor) {
    && 1 <= |t.shape| <= 4 && ValidText(t.name, f.size)
    && At(f, pos, EncodeText(t.name) + U32(|t.shape|))
  }

  /** Dimensions, type and offset, which the second half holds. */
  predicate TailAt(f: File, pos: nat, t: Tensor) {
    At(f, pos, EncodeShape(t.shape) + (U32(t.tensorType) + U64(t.offset)))
  }

  lemma NameAtIsValid(f: File, pos: nat, t: Tensor)
    requires NameAt(f, pos, t)
    ensures 1 <= |t.shape| <= 4 && ValidText(t.name, f.size)
  {
  }

  lemma TailReadIff(f: File, pos: nat, t: Tensor, next: nat)
    requires f.start <= pos
    ensures ReadTensorTail(f, pos, t.name, |t.shape|) == Got(t, next)
       <==> NoZero(t.shape) && t.tensorType <= 4096
            && next == pos + 8 * |t.shape| + 12 && TailAt(f, pos, t)
  {
    ReadTailIff(f, pos, t, next);
  }

  lemma TensorAt(f: File, pos: nat, t: Tensor)
    requires ValidTensor(t, f.size)
    ensures |EncodeTensor(t, f.size)| == 12 + |t.name| + 8 * |t.shape| + 12
    ensures At(f, pos, EncodeTensor(t, f.size)) <==> NameAt(f, pos, t) && TailAt(f, pos + 12 + |t.name|, t)
  {
    hide EncodeShape, At;
    var tail := EncodeShape(t.shape) + (U32(t.tensorType) + U64(t.offset));
    AtConcat(f, pos, EncodeText(t.name) + U32(|t.shape|), tail);
    assert EncodeText(t.name) + U32(|t.shape|) + tail == EncodeText(t.name) + (U32(|t.shape|) + tail);
  }

  /** The two reads of the first half. */
  predicate NameIsRead(f: File, pos: nat, t: Tensor)
    requires f.start <= pos
  {
    && ReadText(f, pos) == Got(t.name, pos + 8 + |t.name|)
    && ReadU32(f, pos + 8 + |t.name|) == Got(|t.shape|, pos + 12 + |t.name|)
  }

  lemma NameReadIff(f: File, pos: nat, t: Tensor)
    requires f.start <= pos
    ensures 1 <= |t.shape| <= 4 && NameIsRead(f, pos, t) <==> NameAt(f, pos, t)
  {
    if 1 <= |t.shape| <= 4 {
      ReadKeyIff(f, pos, t.name, |t.shape|);
    }
    hide ReadText, ReadU32, At, EncodeText, U32, ValidText;
  }

  lemma ReadTensorOfParts(f: File, pos: nat, read: seq<Tensor>, t: Tensor)
    requires f.start <= pos && NameIsRead(f, pos, t)
    requires t.name != [] && !HasName(read, t.name) && 1 <= |t.shape| <= 4
    ensures ReadTensor(f, pos, read) == ReadTensorTail(f, pos + 12 + |t.name|, t.name, |t.shape|)
  {
    hide ReadTensorTail, ReadU32, ReadText, HasName;
  }

  lemma PartsOfReadTensor(f: File, pos: nat, read: seq<Tensor>)
    requires f.start <= pos && ReadTensor(f, pos, read).Got?
    ensures var t := ReadTensor(f, pos, read).value;
      NameIsRead(f, pos, t) && t.name != [] && !HasName(read, t.name) && 1 <= |t.shape| <= 4
  {
    TextEnd(f, pos);
    var keyEnd := ReadText(f, pos).next;
    ReadU32Iff(f, keyEnd, ReadU32(f, keyEnd).value, ReadU32(f, keyEnd).next);
    hide ReadTensorTail, ReadU32, ReadText, HasName, At, U32;
  }

  lemma ReadTensorSound(f: File, pos: nat, read: seq<Tensor>, t: Tensor, next: nat)
    requires f.start <= pos && ReadTensor(f, pos, read) == Got(t, next)
    ensures ValidTensor(t, f.size) && !HasName(read, t.name) && next == pos + |EncodeTensor(t, f.size)|
      && At(f, pos, EncodeTensor(t, f.size))
  {
    hide ReadTensor, ReadTensorTail, NameAt, NameIsRead, TailAt, EncodeTensor, At, HasName, ValidText, NoZero;
    PartsOfReadTensor(f, pos, read);
    NameReadIff(f, pos, t);
    NameAtIsValid(f, pos, t);
    TailReadIff(f, pos + 12 + |t.name|, t, next);
    ReadTensorOfParts(f, pos, read, t);
    TensorAt(f, pos, t);
  }

  lemma ReadTensorComplete(f: File, pos: nat, read: seq<Tensor>, t: Tensor)
    requires f.start <= pos && ValidTensor(t, f.size) && !HasName(read, t.name)
    requires At(f, pos, EncodeTensor(t, f.size))
    ensures ReadTensor(f, pos, read) == Got(t, pos + |EncodeTensor(t, f.size)|)
  {
    hide ReadTensor, ReadTensorTail, NameAt, NameIsRead, TailAt, EncodeTensor, At, HasName, ValidText, NoZero;
    TensorAt(f, pos, t);
    NameReadIff(f, pos, t);
    TailReadIff(f, pos + 12 + |t.name|, t, pos + |EncodeTensor(t, f.size)|);
    ReadTensorOfParts(f, pos, read, t);
  }

  lemma ReadTensorIff(f: File, pos: nat, read: seq<Tensor>, t: Tensor, next: nat)
    requires f.start <= pos
    ensures ReadTensor(f, pos, read) == Got(t, next)
       <==> ValidTensor(t, f.size) && !HasName(read, t.name) && next == pos + |EncodeTensor(t, f.size)|
            && At(f, pos, EncodeTensor(t, f.size))
  {
    hide ReadTensor, ValidTensor, HasName, EncodeTensor, At;
    if ReadTensor(f, pos, read) == Got(t, next) {
      ReadTensorSound(f, pos, read, t, next);
    } else if ValidTensor(t, f.size) && !HasName(read, t.name) && At(f, pos, EncodeTensor(t, f.size)) {
      ReadTensorComplete(f, pos, read, t);
    }
  }

  lemma ValidTensorsSnoc(ts: seq<Tensor>, t: Tensor, size: nat)
    ensures ValidTensors(ts + [t], size) <==> ValidTensors(ts, size) && ValidTensor(t, size) && !HasName(ts, t.name)
  {
    var all := ts + [t];
    assert all[|ts|] == t;
    assert forall i :: 0 <= i < |ts| ==> all[i] == ts[i];
  }

  lemma ValidTensorsPrefix(ts: seq<Tensor>, more: seq<Tensor>, size: nat)
    requires ValidTensors(ts + more, size)
    ensures ValidTensors(ts, size) && forall i :: 0 <= i < |more| ==> ValidTensor(more[i], size)
  {
    assert forall i :: 0 <= i < |ts| ==> (ts + more)[i] == ts[i];
    assert forall i :: 0 <= i < |more| ==> (ts + more)[|ts| + i] == more[i];
  }

  lemma FirstTensorRead(f: File, pos: nat, read: seq<Tensor>, ts: seq<Tensor>, next: nat)
    requires f.start <= pos && ts != [] && ReadTensors(f, pos, |ts|, read) == Got(read + ts, next)
    ensures ReadTensor(f, pos, read).Got? && ReadTensor(f, pos, read).value == ts[0]
  {
    hide ReadTensor;
    var r := ReadTensor(f, pos, read);
    assert (read + ts)[|read|] == ts[0];
    assert (read + [r.value])[|read|] == r.value;
  }

  ghost predicate TensorsAt(f: File, pos: nat, read: seq<Tensor>, ts: seq<Tensor>, next: nat) {
    && ValidTensors(read + ts, f.size)
    && (forall i :: 0 <= i < |ts| ==> ValidTensor(ts[i], f.size))
    && next == pos + |EncodeTensors(ts, f.size)| && At(f, pos, EncodeTensors(ts, f.size))
  }

  lemma TensorsAtCons(f: File, pos: nat, read: seq<Tensor>, ts: seq<Tensor>, next: nat)
    requires InRange(f, pos) && ts != []
    ensures TensorsAt(f, pos, read, ts, next)
       <==> ValidTensor(ts[0], f.size) && At(f, pos, EncodeTensor(ts[0], f.size))
            && TensorsAt(f, pos + |EncodeTensor(ts[0], f.size)|, read + [ts[0]], ts[1..], next)
  {
    hide ValidTensor, EncodeTensor;
    assert read + [ts[0]] + ts[1..] == read + ts;
    if ValidTensors(read + ts, f.size) {
      ValidTensorsPrefix(read, ts, f.size);
      ValidTensorsPrefix(read + [ts[0]], ts[1..], f.size);
      AtConcat(f, pos, EncodeTensor(ts[0], f.size), EncodeTensors(ts[1..], f.size));
    }
  }

  lemma {:induction false} ReadTensorsSound(f: File, pos: nat, read: seq<Tensor>, ts: seq<Tensor>, next: nat)
    requires InRange(f, pos) && ValidTensors(read, f.size)
    requires ReadTensors(f, pos, |ts|, read) == Got(read + ts, next)
    ensures TensorsAt(f, pos, read, ts, next)
    decreases |ts|
  {
    hide ReadTensor, EncodeTensor, ValidTensor;
    if ts == [] {
      assert read + ts == read;
    } else {
      FirstTensorRead(f, pos, read, ts, next);
      var end := ReadTensor(f, pos, read).next;
      ReadTensorIff(f, pos, read, ts[0], end);
      ValidTensorsSnoc(read, ts[0], f.size);
      assert read + [ts[0]] + ts[1..] == read + ts;
      ReadTensorsSound(f, end, read + [ts[0]], ts[1..], next);
      TensorsAtCons(f, pos, read, ts, next);
    }
  }

  lemma {:induction false} ReadTensorsComplete(f: File, pos: nat, read: seq<Tensor>, ts: seq<Tensor>, next: nat)
    requires InRange(f, pos) && TensorsAt(f, pos, read, ts, next)
    ensures ReadTensors(f, pos, |ts|, read) == Got(read + ts, next)
    decreases |ts|
  {
    hide ReadTensor, EncodeTensor, ValidTensor;
    if ts == [] {
      assert read + ts == read;
    } else {
      TensorsAtCons(f, pos, read, ts, next);
      assert read + [ts[0]] + ts[1..] == read + ts;
      ValidTensorsPrefix(read + [ts[0]], ts[1..], f.size);
      ValidTensorsSnoc(read, ts[0], f.size);
      var end := pos + |EncodeTensor(ts[0], f.size)|;
      ReadTensorIff(f, pos, read, ts[0], end);
      ReadTensorsComplete(f, end, read + [ts[0]], ts[1..], next);
    }
  }

  // ----- the header ---------------------------------------------------------------------------------

  predicate ValidCounts(c: Counts) {
    (c.version == 2 || c.version == 3) && 1 <= c.tensors <= MAX_ITEMS && c.metadata <= MAX_ITEMS
  }

  lemma ReadCountsIff(f: File, pos: nat, c: Counts, next: nat)
    requires f.start <= pos
    ensures ReadCounts(f, pos) == Got(c, next)
       <==> ValidCounts(c) && next == pos + 24 && At(f, pos, EncodePrefix(c.version, c.tensors, c.metadata))
  {
    TakeIff(f, pos, 4, MAGIC, pos + 4);
    ReadU32Iff(f, pos + 4, c.version, pos + 8);
    if Take(f, pos + 8, 16).Got? {
      var b := Take(f, pos + 8, 16).value;
      U64Inverse(c.tensors, b[..8]);
      U64Inverse(c.metadata, b[8..]);
      assert b == b[..8] + b[8..];
    }
    AtConcat(f, pos, MAGIC, U32(c.version) + (U64(c.tensors) + U64(c.metadata)));
    AtConcat(f, pos + 4, U32(c.version), U64(c.tensors) + U64(c.metadata));
  }

  lemma {:induction false} LayoutErrorIff(ts: seq<Tensor>, dataStart: nat, alignment: nat, size: nat)
    requires alignment > 0
    ensures LayoutError(ts, dataStart, alignment, size).None?
       <==> forall i :: 0 <= i < |ts| ==> TensorFits(ts[i], dataStart, alignment, size)
  {
    if ts != [] {
      LayoutErrorIff(ts[1..], dataStart, alignment, size);
      assert ts == [ts[0]] + ts[1..];
    }
  }

  /** The tensor begins on an aligned position inside the file. */
  predicate Begins(t: Tensor, dataStart: nat, alignment: nat, size: nat)
    requires alignment > 0
  {
    t.offset % alignment == 0 && dataStart + t.offset < size
  }

  /** The error speaks of the first tensor that does not fit: it begins wrongly, or else it ends behind the file. */
  lemma {:induction false} LayoutErrorIsFirst(ts: seq<Tensor>, dataStart: nat, alignment: nat, size: nat)
    returns (i: nat)
    requires alignment > 0 && LayoutError(ts, dataStart, alignment, size).Some?
    ensures i < |ts| && !TensorFits(ts[i], dataStart, alignment, size)
    ensures forall j :: 0 <= j < i ==> TensorFits(ts[j], dataStart, alignment, size)
    ensures LayoutError(ts, dataStart, alignment, size)
      == Some(if Begins(ts[i], dataStart, alignment, size) then TensorTruncated else BadTensorOffset)
  {
    if TensorFits(ts[0], dataStart, alignment, size) {
      i := LayoutErrorIsFirst(ts[1..], dataStart, alignment, size);
      i := i + 1;
      assert forall j :: 0 < j < i ==> ts[j] == ts[1..][j - 1];
    } else {
      i := 0;
    }
  }

  lemma MetadataErrorIff(es: seq<Entry>)
    ensures MetadataError(es).None? <==> ValidMetadata(es)
  {
  }

  /** The tensors of `h` stand at `pos`, and the whole header ends at `next`, laid out within the file. */
  ghost predicate TensorSectionAt(f: File, pos: nat, h: Header, next: nat) {
    TensorsAt(f, pos, [], h.tensors, next) && ValidLayout(h, next, f.size)
  }

  lemma TensorSectionSound(f: File, pos: nat, c: Counts, es: seq<Entry>, h: Header, next: nat)
    requires InRange(f, pos) && ValidMetadata(es) && ReadTensorSection(f, pos, c, es) == Got(h, next)
    ensures h.version == c.version && h.metadata == es && |h.tensors| == c.tensors && TensorSectionAt(f, pos, h, next)
  {
    hide ReadTensors, TensorsAt, LayoutError, TensorFits, Architecture, FileType, Alignment, DataStart;
    var ts := ReadTensors(f, pos, c.tensors, []);
    assert [] + ts.value == ts.value;
    ReadTensorsSound(f, pos, [], ts.value, ts.next);
    LayoutErrorIff(h.tensors, DataStart(next, Alignment(es).value), Alignment(es).value, f.size);
  }

  lemma TensorSectionComplete(f: File, pos: nat, c: Counts, h: Header, next: nat)
    requires InRange(f, pos) && TensorSectionAt(f, pos, h, next)
    requires h.version == c.version && |h.tensors| == c.tensors
    ensures ReadTensorSection(f, pos, c, h.metadata) == Got(h, next)
  {
    hide ReadTensors, TensorsAt, LayoutError, TensorFits, Architecture, FileType, Alignment, DataStart;
    assert [] + h.tensors == h.tensors;
    ReadTensorsComplete(f, pos, [], h.tensors, next);
    LayoutErrorIff(h.tensors, DataStart(next, Alignment(h.metadata).value), Alignment(h.metadata).value, f.size);
  }

  ghost predicate SectionsAt(f: File, pos: nat, h: Header, entriesEnd: nat, next: nat) {
    EntriesAt(f, pos, [], h.metadata, entriesEnd) && TensorSectionAt(f, entriesEnd, h, next)
  }

  lemma SectionsSound(f: File, pos: nat, c: Counts, h: Header, next: nat) returns (entriesEnd: nat)
    requires InRange(f, pos) && ReadSections(f, pos, c) == Got(h, next)
    ensures h.version == c.version && |h.metadata| == c.metadata && |h.tensors| == c.tensors
    ensures SectionsAt(f, pos, h, entriesEnd, next)
  {
    hide ReadEntries, ReadTensorSection, TensorSectionAt, MetadataError, ValidMetadata, EncodeEntries, ValidEntries;
    var es := ReadEntries(f, pos, c.metadata, []);
    assert [] + es.value == es.value;
    assert ValidEntries([], f.size) by { ValidEntriesPrefix([], [], f.size); }
    ReadEntriesSound(f, pos, [], es.value, es.next);
    MetadataErrorIff(es.value);
    TensorSectionSound(f, es.next, c, es.value, h, next);
    entriesEnd := es.next;
  }

  lemma SectionsComplete(f: File, pos: nat, c: Counts, h: Header, entriesEnd: nat, next: nat)
    requires InRange(f, pos) && SectionsAt(f, pos, h, entriesEnd, next)
    requires h.version == c.version && |h.metadata| == c.metadata && |h.tensors| == c.tensors
    ensures ReadSections(f, pos, c) == Got(h, next)
  {
    hide ReadEntries, ReadTensorSection, MetadataError, ValidMetadata, EncodeEntries, ValidEntries;
    assert [] + h.metadata == h.metadata;
    ReadEntriesComplete(f, pos, [], h.metadata, entriesEnd);
    MetadataErrorIff(h.metadata);
    assert InRange(f, entriesEnd);
    TensorSectionComplete(f, entriesEnd, c, h, next);
  }

  /** The encoding of `h` stands at the start of reading and ends at `next`. */
  ghost predicate EncodedAt(f: File, h: Header, next: nat) {
    && ValidParts(h, f.size) && next == f.start + |EncodeHeader(h, f.size)| && At(f, f.start, EncodeHeader(h, f.size))
  }

  lemma JoinParts(f: File, h: Header, entriesEnd: nat, next: nat)
    requires 1 <= |h.tensors| <= MAX_ITEMS && |h.metadata| <= MAX_ITEMS && (h.version == 2 || h.version == 3)
    requires At(f, f.start, EncodePrefix(h.version, |h.tensors|, |h.metadata|))
    requires EntriesAt(f, f.start + 24, [], h.metadata, entriesEnd) && TensorsAt(f, entriesEnd, [], h.tensors, next)
    ensures EncodedAt(f, h, next)
  {
    hide EncodePrefix, EncodeEntries, EncodeTensors, ValidEntries, ValidTensors, At;
    assert [] + h.metadata == h.metadata && [] + h.tensors == h.tensors;
    var prefix := EncodePrefix(h.version, |h.tensors|, |h.metadata|);
    var (es, ts) := (EncodeEntries(h.metadata, f.size), EncodeTensors(h.tensors, f.size));
    assert ValidParts(h, f.size);
    AtConcat(f, f.start, prefix, es + ts);
    AtConcat(f, f.start + 24, es, ts);
  }

  lemma SplitParts(f: File, h: Header, next: nat) returns (entriesEnd: nat)
    requires EncodedAt(f, h, next)
    ensures At(f, f.start, EncodePrefix(h.version, |h.tensors|, |h.metadata|))
    ensures EntriesAt(f, f.start + 24, [], h.metadata, entriesEnd) && TensorsAt(f, entriesEnd, [], h.tensors, next)
  {
    hide EncodePrefix, EncodeEntries, EncodeTensors, At;
    assert [] + h.metadata == h.metadata && [] + h.tensors == h.tensors;
    var prefix := EncodePrefix(h.version, |h.tensors|, |h.metadata|);
    var (es, ts) := (EncodeEntries(h.metadata, f.size), EncodeTensors(h.tensors, f.size));
    AtConcat(f, f.start, prefix, es + ts);
    AtConcat(f, f.start + 24, es, ts);
    entriesEnd := f.start + 24 + |es|;
  }

  /** Whatever is accepted is the encoding of the header that is returned, and nothing more was consumed. */
  lemma AcceptedIsEncoded(f: File, h: Header, next: nat)
    requires ReadHeader(f) == Got(h, next)
    ensures EncodedAt(f, h, next) && ValidLayout(h, next, f.size)
  {
    hide ReadCounts, ReadSections, EncodePrefix, ValidLayout, EncodedAt, TensorsAt, EntriesAt;
    var c := ReadCounts(f, f.start);
    ReadCountsIff(f, f.start, c.value, c.next);
    assert InRange(f, c.next);
    var entriesEnd := SectionsSound(f, c.next, c.value, h, next);
    JoinParts(f, h, entriesEnd, next);
  }

  /**
   Round trip: a file that begins, where reading starts, with the encoding of a well-formed header that is
   laid out within the file is accepted; the very header comes back, and the reader stands at its end.
   What follows the encoding does not matter.
  */
  lemma EncodedIsAccepted(f: File, h: Header, next: nat)
    requires EncodedAt(f, h, next) && ValidLayout(h, next, f.size)
    ensures ReadHeader(f) == Got(h, next)
  {
    hide ReadCounts, ReadSections, EncodePrefix, ValidLayout, TensorsAt, EntriesAt;
    var entriesEnd := SplitParts(f, h, next);
    var c := Counts(h.version, |h.tensors|, |h.metadata|);
    ReadCountsIff(f, f.start, c, f.start + 24);
    assert InRange(f, f.start + 24);
    SectionsComplete(f, f.start + 24, c, h, entriesEnd, next);
  }
}

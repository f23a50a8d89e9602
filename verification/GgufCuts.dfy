/** What the reader makes of a file that was cut off: a header is accepted whole, or refused as truncated. */
module GgufCuts {
  import opened Wrappers
  import opened ByteStrings
  import opened GgufFormat
  import opened GgufReader

  /** The first `n` bytes of the file; the observed size is that of the whole file. */
  function CutTo(f: File, n: nat): File
    requires n <= |f.data|
  {
    f.(data := f.data[..n])
  }

  /** `whole` was read; of the cut file the same is read, or the reader finds the end of the file first. */
  predicate SameOrTruncated<T(==)>(whole: Read<T>, cut: Read<T>, n: nat) {
    whole.Got? ==> cut == if whole.next <= n then whole else Failed(Truncated)
  }

  lemma TakeCut(f: File, n: nat, pos: nat, k: nat)
    requires f.start <= pos <= n <= |f.data|
    ensures SameOrTruncated(Take(f, pos, k), Take(CutTo(f, n), pos, k), n)
  {
    if pos + k <= n {
      assert f.data[..n][pos..pos + k] == f.data[pos..pos + k];
    }
  }

  lemma ReadU32Cut(f: File, n: nat, pos: nat)
    requires f.start <= pos <= n <= |f.data|
    ensures SameOrTruncated(ReadU32(f, pos), ReadU32(CutTo(f, n), pos), n)
  {
    hide Take, U32Value;
    TakeCut(f, n, pos, 4);
  }

  lemma ReadU64Cut(f: File, n: nat, pos: nat)
    requires f.start <= pos <= n <= |f.data|
    ensures SameOrTruncated(ReadU64(f, pos), ReadU64(CutTo(f, n), pos), n)
  {
    hide Take, U64Value;
    TakeCut(f, n, pos, 8);
  }

  lemma ReadTextCut(f: File, n: nat, pos: nat)
    requires f.start <= pos <= n <= |f.data|
    ensures SameOrTruncated(ReadText(f, pos), ReadText(CutTo(f, n), pos), n)
  {
    hide Take, ReadU64, ValidUtf8;
    ReadU64Cut(f, n, pos);
    if ReadU64(f, pos).Got? && ReadU64(f, pos).next <= n {
      TakeCut(f, n, ReadU64(f, pos).next, ReadU64(f, pos).value);
    }
  }

  lemma ReadItemCut(f: File, n: nat, pos: nat, valueType: u32)
    requires f.start <= pos <= n <= |f.data|
    ensures SameOrTruncated(ReadItem(f, pos, valueType), ReadItem(CutTo(f, n), pos, valueType), n)
  {
    hide Take, ReadText, ScalarWidth;
    ReadTextCut(f, n, pos);
    TakeCut(f, n, pos, 1);
    TakeCut(f, n, pos, ScalarWidth(valueType));
  }

  lemma {:induction false} ReadItemsCut(f: File, n: nat, pos: nat, elementType: u32, count: nat, read: seq<Item>)
    requires f.start <= pos <= n <= |f.data|
    ensures SameOrTruncated(
      ReadItems(f, pos, elementType, count, read), ReadItems(CutTo(f, n), pos, elementType, count, read), n)
    decreases count
  {
    hide ReadItem;
    if count > 0 {
      ReadItemCut(f, n, pos, elementType);
      var r := ReadItem(f, pos, elementType);
      if r.Got? && r.next <= n {
        ReadItemsCut(f, n, r.next, elementType, count - 1, read + [r.value]);
      }
    }
  }

  lemma ReadValueCut(f: File, n: nat, pos: nat, valueType: u32)
    requires f.start <= pos <= n <= |f.data|
    ensures SameOrTruncated(ReadValue(f, pos, valueType), ReadValue(CutTo(f, n), pos, valueType), n)
  {
    hide Take, ReadItem, ReadItems, U32Value, U64Value;
    ReadItemCut(f, n, pos, valueType);
    TakeCut(f, n, pos, 12);
    var r := Take(f, pos, 12);
    if r.Got? && r.next <= n {
      ReadItemsCut(f, n, r.next, U32Value(r.value[..4]), U64Value(r.value[4..]), []);
    }
  }

  lemma ReadEntryCut(f: File, n: nat, pos: nat, read: seq<Entry>)
    requires f.start <= pos <= n <= |f.data|
    ensures SameOrTruncated(ReadEntry(f, pos, read), ReadEntry(CutTo(f, n), pos, read), n)
  {
    hide ReadText, ReadU32, ReadValue, HasKey, CutTo;
    ReadTextCut(f, n, pos);
    var key := ReadText(f, pos);
    if key.Got? && key.next <= n {
      ReadU32Cut(f, n, key.next);
      var t := ReadU32(f, key.next);
      if t.Got? && t.next <= n {
        ReadValueCut(f, n, t.next, t.value);
      }
    }
  }

  lemma {:induction false} ReadEntriesCut(f: File, n: nat, pos: nat, count: nat, read: seq<Entry>)
    requires f.start <= pos <= n <= |f.data|
    ensures SameOrTruncated(ReadEntries(f, pos, count, read), ReadEntries(CutTo(f, n), pos, count, read), n)
    decreases count
  {
    hide ReadEntry;
    if count > 0 {
      ReadEntryCut(f, n, pos, read);
      var r := ReadEntry(f, pos, read);
      if r.Got? && r.next <= n {
        ReadEntriesCut(f, n, r.next, count - 1, read + [r.value]);
      }
    }
  }

  lemma ReadTensorTailCut(f: File, n: nat, pos: nat, name: Bytes, dimensions: nat)
    requires f.start <= pos <= n <= |f.data|
    ensures SameOrTruncated(
      ReadTensorTail(f, pos, name, dimensions), ReadTensorTail(CutTo(f, n), pos, name, dimensions), n)
  {
    hide Take, ReadU32, ReadU64, DecodeShape, CutTo;
    TakeCut(f, n, pos, 8 * dimensions);
    var b := Take(f, pos, 8 * dimensions);
    if b.Got? && b.next <= n {
      ReadU32Cut(f, n, b.next);
      var t := ReadU32(f, b.next);
      if t.Got? && t.next <= n {
        ReadU64Cut(f, n, t.next);
      }
    }
  }

  lemma ReadTensorCut(f: File, n: nat, pos: nat, read: seq<Tensor>)
    requires f.start <= pos <= n <= |f.data|
    ensures SameOrTruncated(ReadTensor(f, pos, read), ReadTensor(CutTo(f, n), pos, read), n)
  {
    hide ReadText, ReadU32, ReadTensorTail, HasName, CutTo;
    ReadTextCut(f, n, pos);
    var name := ReadText(f, pos);
    if name.Got? && name.next <= n {
      ReadU32Cut(f, n, name.next);
      var d := ReadU32(f, name.next);
      if d.Got? && d.next <= n {
        ReadTensorTailCut(f, n, d.next, name.value, d.value);
      }
    }
  }

  lemma {:induction false} ReadTensorsCut(f: File, n: nat, pos: nat, count: nat, read: seq<Tensor>)
    requires f.start <= pos <= n <= |f.data|
    ensures SameOrTruncated(ReadTensors(f, pos, count, read), ReadTensors(CutTo(f, n), pos, count, read), n)
    decreases count
  {
    hide ReadTensor;
    if count > 0 {
      ReadTensorCut(f, n, pos, read);
      var r := ReadTensor(f, pos, read);
      if r.Got? && r.next <= n {
        ReadTensorsCut(f, n, r.next, count - 1, read + [r.value]);
      }
    }
  }

  lemma ReadCountsCut(f: File, n: nat, pos: nat)
    requires f.start <= pos <= n <= |f.data|
    ensures SameOrTruncated(ReadCounts(f, pos), ReadCounts(CutTo(f, n), pos), n)
  {
    hide Take, ReadU32, U64Value, MAGIC, CutTo;
    TakeCut(f, n, pos, 4);
    var magic := Take(f, pos, 4);
    if magic.Got? && magic.next <= n {
      ReadU32Cut(f, n, magic.next);
      var version := ReadU32(f, magic.next);
      if version.Got? && version.next <= n {
        TakeCut(f, n, version.next, 16);
      }
    }
  }

  lemma ReadSectionsCut(f: File, n: nat, pos: nat, c: Counts)
    requires f.start <= pos <= n <= |f.data|
    ensures SameOrTruncated(ReadSections(f, pos, c), ReadSections(CutTo(f, n), pos, c), n)
  {
    hide ReadEntries, ReadTensors, MetadataError, Alignment, LayoutError, DataStart;
    ReadEntriesCut(f, n, pos, c.metadata, []);
    var es := ReadEntries(f, pos, c.metadata, []);
    if es.Got? && es.next <= n {
      ReadTensorsCut(f, n, es.next, c.tensors, []);
    }
  }

  /**
   Cutting off an accepted file: as long as the header is whole the reader accepts it as before, so it looks at
   nothing behind the header; and any proper beginning of the header is refused as truncated, never misread.
  */
  lemma CutHeaderIsTruncated(f: File, n: nat)
    requires ReadHeader(f).Got? && f.start <= n <= |f.data|
    ensures ReadHeader(CutTo(f, n)) == if ReadHeader(f).next <= n then ReadHeader(f) else Failed(Truncated)
  {
    hide ReadCounts, ReadSections;
    ReadCountsCut(f, n, f.start);
    var c := ReadCounts(f, f.start);
    if c.Got? && c.next <= n {
      ReadSectionsCut(f, n, c.next, c.value);
    }
  }
}

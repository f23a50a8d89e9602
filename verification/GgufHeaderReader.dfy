/** `_Reader` and `_read_header`: a position that moves through the file, and loops that fill in the parts. */
module GgufHeaderReader {
  import opened Wrappers
  import opened ByteStrings
  import opened GgufFormat
  import opened GgufReader

  class Reader {
    const file: File
    var pos: nat

    /** The reader never leaves the file and never passes the inspection limit, even when it fails. */
    ghost predicate Valid()
      reads this
    {
      file.start <= pos <= |file.data| && pos - file.start <= MAX_HEADER
    }

    /** A method did what the specification does at the old position. */
    ghost predicate Did<T(!new)>(spec: Read<T>, r: Result<T, GgufError>)
      reads this
    {
      match r
      case Ok(v) => spec == Got(v, pos)
      case Err(e) => spec == Failed(e)
    }

    constructor (file: File)
      requires file.start <= |file.data|
      ensures Valid() && this.file == file && pos == file.start
    {
      this.file := file;
      pos := file.start;
    }

    method ReadBytes(n: nat) returns (r: Result<Bytes, GgufError>)
      requires Valid()
      modifies `pos
      ensures Valid() && Did(Take(file, old(pos), n), r)
    {
      if pos - file.start + n > MAX_HEADER {
        return Err(HeaderTooLarge);
      }
      var from := pos;
      pos := if from + n <= |file.data| then from + n else |file.data|;
      if pos - from != n {
        return Err(Truncated);
      }
      return Ok(file.data[from..pos]);
    }

    method UnpackU32() returns (r: Result<u32, GgufError>)
      requires Valid()
      modifies `pos
      ensures Valid() && Did(ReadU32(file, old(pos)), r)
    {
      var b :- ReadBytes(4);
      return Ok(U32Value(b));
    }

    method UnpackU64() returns (r: Result<u64, GgufError>)
      requires Valid()
      modifies `pos
      ensures Valid() && Did(ReadU64(file, old(pos)), r)
    {
      var b :- ReadBytes(8);
      return Ok(U64Value(b));
    }

    method ReadString() returns (r: Result<Bytes, GgufError>)
      requires Valid()
      modifies `pos
      ensures Valid() && Did(ReadText(file, old(pos)), r)
    {
      var length :- UnpackU64();
      if length > MAX_STRING || length > file.size {
        return Err(BadStringLength);
      }
      var b :- ReadBytes(length);
      if !ValidUtf8(b) {
        return Err(BadUtf8);
      }
      return Ok(b);
    }

    method ReadScalar(valueType: u32) returns (r: Result<Item, GgufError>)
      requires Valid()
      modifies `pos
      ensures Valid() && Did(ReadItem(file, old(pos), valueType), r)
    {
      if valueType == STRING_TYPE {
        var b :- ReadString();
        return Ok(Text(b));
      }
      if valueType == BOOL_TYPE {
        var raw :- ReadBytes(1);
        if raw[0] > 1 {
          return Err(BadBool);
        }
        return Ok(Flag(raw[0] == 1));
      }
      if ScalarWidth(valueType) == 0 {
        return Err(UnknownType);
      }
      var raw :- ReadBytes(ScalarWidth(valueType));
      return Ok(Scalar(valueType, raw));
    }

    method ReadAnyValue(valueType: u32) returns (r: Result<Value, GgufError>)
      requires Valid()
      modifies `pos
      ensures Valid() && Did(ReadValue(file, old(pos), valueType), r)
    {
      if valueType != ARRAY_TYPE {
        var x :- ReadScalar(valueType);
        return Ok(Single(x));
      }
      var b :- ReadBytes(12);
      var elementType, count := U32Value(b[..4]), U64Value(b[4..]);
      if count > MAX_ITEMS {
        return Err(TooManyItems);
      }
      if elementType == ARRAY_TYPE {
        return Err(NestedArray);
      }
      ghost var from := pos;
      var items: seq<Item> := [];
      for i := 0 to count
        invariant Valid()
        invariant ReadItems(file, pos, elementType, count - i, items) == ReadItems(file, from, elementType, count, [])
      {
        var x :- ReadScalar(elementType);
        items := items + [x];
      }
      return Ok(Items(elementType, items));
    }

    /** The metadata dictionary, in the order in which it was filled. */
    method ReadMetadata(count: nat) returns (r: Result<seq<Entry>, GgufError>)
      requires Valid()
      modifies `pos
      ensures Valid() && Did(ReadEntries(file, old(pos), count, []), r)
    {
      hide ReadValue, ReadText, ReadU32;
      var metadata: map<Bytes, Value> := map[];
      var entries: seq<Entry> := [];
      for i := 0 to count
        invariant Valid()
        invariant forall k :: k in metadata <==> HasKey(entries, k)
        invariant ReadEntries(file, pos, count - i, entries) == ReadEntries(file, old(pos), count, [])
      {
        var key :- ReadString();
        if key == [] || key in metadata {
          return Err(BadKey);
        }
        var valueType :- UnpackU32();
        var value :- ReadAnyValue(valueType);
        metadata := metadata[key := value];
        HasKeySnoc(entries, Entry(key, value));
        entries := entries + [Entry(key, value)];
      }
      return Ok(entries);
    }

    method ReadDescriptors(count: nat) returns (r: Result<seq<Tensor>, GgufError>)
      requires Valid()
      modifies `pos
      ensures Valid() && Did(ReadTensors(file, old(pos), count, []), r)
    {
      hide ReadTensorTail, ReadText, ReadU32;
      var names: set<Bytes> := {};
      var tensors: seq<Tensor> := [];
      for i := 0 to count
        invariant Valid()
        invariant forall name :: name in names <==> HasName(tensors, name)
        invariant ReadTensors(file, pos, count - i, tensors) == ReadTensors(file, old(pos), count, [])
      {
        var name :- ReadString();
        if name == [] || name in names {
          return Err(BadTensorName);
        }
        names := names + {name};
        var dimensions :- UnpackU32();
        if dimensions < 1 || dimensions > 4 {
          return Err(BadDimensionCount);
        }
        var t :- ReadDescriptorTail(name, dimensions);
        HasNameSnoc(tensors, t);
        tensors := tensors + [t];
      }
      return Ok(tensors);
    }

    method ReadDescriptorTail(name: Bytes, dimensions: nat) returns (r: Result<Tensor, GgufError>)
      requires Valid()
      modifies `pos
      ensures Valid() && Did(ReadTensorTail(file, old(pos), name, dimensions), r)
    {
      var b :- ReadBytes(8 * dimensions);
      var shape := DecodeShape(b);
      if exists i :: 0 <= i < |shape| && shape[i] == 0 {
        return Err(ZeroDimension);
      }
      var tensorType :- UnpackU32();
      var offset :- UnpackU64();
      if tensorType > 4096 {
        return Err(BadTensorType);
      }
      return Ok(Tensor(name, shape, tensorType, offset));
    }

    method ReadPrefix() returns (r: Result<Counts, GgufError>)
      requires Valid()
      modifies `pos
      ensures Valid() && Did(ReadCounts(file, old(pos)), r)
    {
      var magic :- ReadBytes(4);
      if magic != MAGIC {
        return Err(BadMagic);
      }
      var version :- UnpackU32();
      if version != 2 && version != 3 {
        return Err(BadVersion);
      }
      var b :- ReadBytes(16);
      var tensors, metadata := U64Value(b[..8]), U64Value(b[8..]);
      if tensors < 1 || tensors > MAX_ITEMS {
        return Err(BadTensorCount);
      }
      if metadata > MAX_ITEMS {
        return Err(BadMetadataCount);
      }
      return Ok(Counts(version, tensors, metadata));
    }

    method ReadAll() returns (r: Result<Header, GgufError>)
      requires Valid() && pos == file.start
      modifies `pos
      ensures Valid() && Did(ReadHeader(file), r)
    {
      var c :- ReadPrefix();
      var entries :- ReadMetadata(c.metadata);
      var wrong := MetadataError(entries);
      if wrong.Some? {
        return Err(wrong.value);
      }
      var tensors :- ReadDescriptors(c.tensors);
      var alignment := Alignment(entries).value;
      var dataStart := DataStart(pos, alignment);
      if dataStart > file.size {
        return Err(DataTruncated);
      }
      wrong := CheckLayout(tensors, dataStart, alignment, file.size);
      if wrong.Some? {
        return Err(wrong.value);
      }
      return Ok(Header(c.version, entries, tensors));
    }
  }

  lemma HasKeySnoc(es: seq<Entry>, e: Entry)
    ensures forall k :: HasKey(es + [e], k) <==> HasKey(es, k) || k == e.key
  {
    assert (es + [e])[|es|] == e;
    assert forall i :: 0 <= i < |es| ==> (es + [e])[i] == es[i];
  }

  lemma HasNameSnoc(ts: seq<Tensor>, t: Tensor)
    ensures forall n :: HasName(ts + [t], n) <==> HasName(ts, n) || n == t.name
  {
    assert (ts + [t])[|ts|] == t;
    assert forall i :: 0 <= i < |ts| ==> (ts + [t])[i] == ts[i];
  }

  lemma {:induction false} ProductSnoc(shape: seq<u64>, d: u64)
    ensures Product(shape + [d]) == Product(shape) * d
  {
    if shape == [] {
      assert shape + [d] == [d];
    } else {
      assert (shape + [d])[1..] == shape[1..] + [d];
      ProductSnoc(shape[1..], d);
      assert shape[0] * (Product(shape[1..]) * d) == shape[0] * Product(shape[1..]) * d;
    }
  }

  method ElementCount(shape: seq<u64>) returns (count: nat)
    ensures count == Product(shape)
  {
    count := 1;
    for i := 0 to |shape|
      invariant count == Product(shape[..i])
    {
      assert shape[..i + 1] == shape[..i] + [shape[i]];
      ProductSnoc(shape[..i], shape[i]);
      count := count * shape[i];
    }
    assert shape[..|shape|] == shape;
  }

  /** The last loop of `_read_header`: the first tensor that is misplaced or does not fit. */
  method CheckLayout(tensors: seq<Tensor>, dataStart: nat, alignment: nat, size: nat)
    returns (wrong: Option<GgufError>)
    requires alignment > 0
    ensures wrong == LayoutError(tensors, dataStart, alignment, size)
  {
    for i := 0 to |tensors|
      invariant LayoutError(tensors[i..], dataStart, alignment, size)
             == LayoutError(tensors, dataStart, alignment, size)
    {
      var t := tensors[i];
      assert tensors[i..][1..] == tensors[i + 1..];
      var start := dataStart + t.offset;
      if t.offset % alignment != 0 || start >= size {
        return Some(BadTensorOffset);
      }
      var elementBytes := FixedSize(t.tensorType);
      if elementBytes.Some? {
        var count := ElementCount(t.shape);
        if start + count * elementBytes.value > size {
          return Some(TensorTruncated);
        }
      }
    }
    return None;
  }
}

/** The GGUF header reader: a specification that reads from a position, and the reader that moves one. */
module GgufReader {
  import opened Wrappers
  import opened ByteStrings
  import opened GgufFormat

  /** The opened file, the position at which reading began, and the size the caller observed. */
  datatype File = File(data: Bytes, start: nat, size: nat)

  datatype GgufError =
    | HeaderTooLarge | Truncated | BadStringLength | BadUtf8 | TooManyItems | NestedArray | UnknownType
    | BadBool | BadMagic | BadVersion | BadTensorCount | BadMetadataCount | BadKey | BadArchitecture
    | BadFileType | BadContextLength | BadTemplate | BadAlignment | BadTensorName | BadDimensionCount
    | ZeroDimension | BadTensorType | DataTruncated | BadTensorOffset | TensorTruncated

  datatype Read<+T> = Got(value: T, next: nat) | Failed(error: GgufError)

  function Take(f: File, pos: nat, n: nat): (r: Read<Bytes>)
    requires f.start <= pos
    ensures r.Got? ==> |r.value| == n && r.next == pos + n
  {
    if pos - f.start + n > MAX_HEADER then Failed(HeaderTooLarge)
    else if pos + n > |f.data| then Failed(Truncated)
    else Got(f.data[pos..pos + n], pos + n)
  }

  function ReadU32(f: File, pos: nat): (r: Read<u32>)
    requires f.start <= pos
    ensures r.Got? ==> r.next == pos + 4
  {
    match Take(f, pos, 4)
    case Failed(e) => Failed(e)
    case Got(b, next) => Got(U32Value(b), next)
  }

  function ReadU64(f: File, pos: nat): (r: Read<u64>)
    requires f.start <= pos
    ensures r.Got? ==> r.next == pos + 8
  {
    match Take(f, pos, 8)
    case Failed(e) => Failed(e)
    case Got(b, next) => Got(U64Value(b), next)
  }

  function ReadText(f: File, pos: nat): (r: Read<Bytes>)
    requires f.start <= pos
    ensures r.Got? ==> r.next >= pos
  {
    match ReadU64(f, pos)
    case Failed(e) => Failed(e)
    case Got(length, next) =>
      if length > MAX_STRING || length > f.size then Failed(BadStringLength)
      else
        match Take(f, next, length)
        case Failed(e) => Failed(e)
        case Got(b, end) => if ValidUtf8(b) then Got(b, end) else Failed(BadUtf8)
  }

  /** `_Reader.value` for every type but arrays. */
  function ReadItem(f: File, pos: nat, valueType: u32): (r: Read<Item>)
    requires f.start <= pos
    ensures r.Got? ==> r.next >= pos && ItemType(r.value) == valueType
  {
    if valueType == STRING_TYPE then
      match ReadText(f, pos)
      case Failed(e) => Failed(e)
      case Got(b, next) => Got(Text(b), next)
    else if valueType == BOOL_TYPE then
      match Take(f, pos, 1)
      case Failed(e) => Failed(e)
      case Got(b, next) => if b[0] > 1 then Failed(BadBool) else Got(Flag(b[0] == 1), next)
    else if ScalarWidth(valueType) == 0 then Failed(UnknownType)
    else
      match Take(f, pos, ScalarWidth(valueType))
      case Failed(e) => Failed(e)
      case Got(b, next) => Got(Scalar(valueType, b), next)
  }

  function ReadItems(f: File, pos: nat, elementType: u32, count: nat, read: seq<Item>): (r: Read<seq<Item>>)
    requires f.start <= pos
    ensures r.Got? ==> r.next >= pos && |r.value| == |read| + count && read <= r.value
    decreases count
  {
    if count == 0 then Got(read, pos)
    else
      match ReadItem(f, pos, elementType)
      case Failed(e) => Failed(e)
      case Got(x, next) => ReadItems(f, next, elementType, count - 1, read + [x])
  }

  function ReadValue(f: File, pos: nat, valueType: u32): (r: Read<Value>)
    requires f.start <= pos
    ensures r.Got? ==> r.next >= pos && ValueType(r.value) == valueType
  {
    if valueType != ARRAY_TYPE then
      match ReadItem(f, pos, valueType)
      case Failed(e) => Failed(e)
      case Got(x, next) => Got(Single(x), next)
    else
      match Take(f, pos, 12)
      case Failed(e) => Failed(e)
      case Got(b, next) =>
        var elementType, count := U32Value(b[..4]), U64Value(b[4..]);
        if count > MAX_ITEMS then Failed(TooManyItems)
        else if elementType == ARRAY_TYPE then Failed(NestedArray)
        else
          match ReadItems(f, next, elementType, count, [])
          case Failed(e) => Failed(e)
          case Got(xs, end) => Got(Items(elementType, xs), end)
  }

  function ReadEntry(f: File, pos: nat, read: seq<Entry>): (r: Read<Entry>)
    requires f.start <= pos
    ensures r.Got? ==> r.next >= pos
  {
    match ReadText(f, pos)
    case Failed(e) => Failed(e)
    case Got(key, next) =>
      if key == [] || HasKey(read, key) then Failed(BadKey)
      else
        match ReadU32(f, next)
        case Failed(e) => Failed(e)
        case Got(valueType, next') =>
          match ReadValue(f, next', valueType)
          case Failed(e) => Failed(e)
          case Got(v, end) => Got(Entry(key, v), end)
  }

  function ReadEntries(f: File, pos: nat, count: nat, read: seq<Entry>): (r: Read<seq<Entry>>)
    requires f.start <= pos
    ensures r.Got? ==> r.next >= pos && |r.value| == |read| + count && read <= r.value
    decreases count
  {
    if count == 0 then Got(read, pos)
    else
      match ReadEntry(f, pos, read)
      case Failed(e) => Failed(e)
      case Got(entry, next) => ReadEntries(f, next, count - 1, read + [entry])
  }

  function DecodeShape(b: Bytes): (shape: seq<u64>)
    requires |b| % 8 == 0
    ensures |shape| == |b| / 8
  {
    if b == [] then [] else [U64Value(b[..8])] + DecodeShape(b[8..])
  }

  predicate HasName(tensors: seq<Tensor>, name: Bytes) {
    exists i :: 0 <= i < |tensors| && tensors[i].name == name
  }

  function ReadTensor(f: File, pos: nat, read: seq<Tensor>): (r: Read<Tensor>)
    requires f.start <= pos
    ensures r.Got? ==> r.next >= pos
  {
    match ReadText(f, pos)
    case Failed(e) => Failed(e)
    case Got(name, next) =>
      if name == [] || HasName(read, name) then Failed(BadTensorName)
      else
        match ReadU32(f, next)
        case Failed(e) => Failed(e)
        case Got(dimensions, next') =>
          if dimensions < 1 || dimensions > 4 then Failed(BadDimensionCount)
          else ReadTensorTail(f, next', name, dimensions)
  }

  function ReadTensorTail(f: File, pos: nat, name: Bytes, dimensions: nat): (r: Read<Tensor>)
    requires f.start <= pos
    ensures r.Got? ==> r.next >= pos && r.value.name == name && |r.value.shape| == dimensions
  {
    match Take(f, pos, 8 * dimensions)
    case Failed(e) => Failed(e)
    case Got(b, next) =>
      var shape := DecodeShape(b);
      if exists i :: 0 <= i < |shape| && shape[i] == 0 then Failed(ZeroDimension)
      else
        match ReadU32(f, next)
        case Failed(e) => Failed(e)
        case Got(tensorType, next') =>
          match ReadU64(f, next')
          case Failed(e) => Failed(e)
          case Got(offset, end) =>
            if tensorType > 4096 then Failed(BadTensorType)
            else Got(Tensor(name, shape, tensorType, offset), end)
  }

  function ReadTensors(f: File, pos: nat, count: nat, read: seq<Tensor>): (r: Read<seq<Tensor>>)
    requires f.start <= pos
    ensures r.Got? ==> r.next >= pos && |r.value| == |read| + count && read <= r.value
    decreases count
  {
    if count == 0 then Got(read, pos)
    else
      match ReadTensor(f, pos, read)
      case Failed(e) => Failed(e)
      case Got(t, next) => ReadTensors(f, next, count - 1, read + [t])
  }

  datatype Counts = Counts(version: u32, tensors: u64, metadata: u64)

  function ReadCounts(f: File, pos: nat): (r: Read<Counts>)
    requires f.start <= pos
    ensures r.Got? ==> r.next >= pos
  {
    match Take(f, pos, 4)
    case Failed(e) => Failed(e)
    case Got(magic, next) =>
      if magic != MAGIC then Failed(BadMagic)
      else
        match ReadU32(f, next)
        case Failed(e) => Failed(e)
        case Got(version, next') =>
          if version != 2 && version != 3 then Failed(BadVersion)
          else
            match Take(f, next', 16)
            case Failed(e) => Failed(e)
            case Got(b, end) =>
              var tensors, metadata := U64Value(b[..8]), U64Value(b[8..]);
              if tensors < 1 || tensors > MAX_ITEMS then Failed(BadTensorCount)
              else if metadata > MAX_ITEMS then Failed(BadMetadataCount)
              else Got(Counts(version, tensors, metadata), end)
  }

  function MetadataError(es: seq<Entry>): Option<GgufError> {
    if Architecture(es).None? then Some(BadArchitecture)
    else if FileType(es).None? then Some(BadFileType)
    else if !AbsentOrAtLeast(Lookup(es, ContextKey(Architecture(es).value)), 1) then Some(BadContextLength)
    else if !ValidTemplate(Lookup(es, Ascii("tokenizer.chat_template"))) then Some(BadTemplate)
    else if Alignment(es).None? then Some(BadAlignment)
    else None
  }

  function LayoutError(ts: seq<Tensor>, dataStart: nat, alignment: nat, size: nat): Option<GgufError>
    requires alignment > 0
  {
    if ts == [] then None
    else if ts[0].offset % alignment != 0 || dataStart + ts[0].offset >= size then Some(BadTensorOffset)
    else if !TensorFits(ts[0], dataStart, alignment, size) then Some(TensorTruncated)
    else LayoutError(ts[1..], dataStart, alignment, size)
  }

  /** The tensor descriptors and the checks against the size of the file. */
  function ReadTensorSection(f: File, pos: nat, c: Counts, es: seq<Entry>): (r: Read<Header>)
    requires f.start <= pos && Alignment(es).Some?
    ensures r.Got? ==> r.next >= pos
  {
    match ReadTensors(f, pos, c.tensors, [])
    case Failed(e) => Failed(e)
    case Got(ts, end) =>
      var alignment := Alignment(es).value;
      if DataStart(end, alignment) > f.size then Failed(DataTruncated)
      else
        var e := LayoutError(ts, DataStart(end, alignment), alignment, f.size);
        if e.Some? then Failed(e.value) else Got(Header(c.version, es, ts), end)
  }

  function ReadSections(f: File, pos: nat, c: Counts): (r: Read<Header>)
    requires f.start <= pos
    ensures r.Got? ==> r.next >= pos
  {
    match ReadEntries(f, pos, c.metadata, [])
    case Failed(e) => Failed(e)
    case Got(es, next) =>
      if MetadataError(es).Some? then Failed(MetadataError(es).value) else ReadTensorSection(f, next, c, es)
  }

  function ReadHeader(f: File): Read<Header> {
    match ReadCounts(f, f.start)
    case Failed(e) => Failed(e)
    case Got(c, next) => ReadSections(f, next, c)
  }
}

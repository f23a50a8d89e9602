/**
 The GGUF container header (GGUF specification, section "File Structure"): its parts, how they are
 written, and which headers the reader is to accept. Floats stay raw bytes, and a value keeps the type
 tag under which it was written.
*/
module GgufFormat {
  import opened Wrappers
  import opened ByteStrings

  const MAGIC: Bytes := Ascii("GGUF")
  const MAX_HEADER: nat := 256 * 1024 * 1024
  const MAX_STRING: nat := 16 * 1024 * 1024
  const MAX_ITEMS: nat := 10_000_000
  const BOOL_TYPE: nat := 7
  const STRING_TYPE: nat := 8
  const ARRAY_TYPE: nat := 9

  /** The width of a scalar type other than bool, or 0 if there is no such type. */
  function ScalarWidth(valueType: nat): nat {
    if valueType == 0 || valueType == 1 then 1
    else if valueType == 2 || valueType == 3 then 2
    else if valueType == 4 || valueType == 5 || valueType == 6 then 4
    else if valueType == 10 || valueType == 11 || valueType == 12 then 8
    else 0
  }

  datatype Item = Text(text: Bytes) | Flag(flag: bool) | Scalar(valueType: u32, raw: Bytes)

  /** Arrays do not nest. */
  datatype Value = Single(item: Item) | Items(elementType: u32, items: seq<Item>)

  datatype Entry = Entry(key: Bytes, value: Value)

  datatype Tensor = Tensor(name: Bytes, shape: seq<u64>, tensorType: u32, offset: u64)

  datatype Header = Header(version: u32, metadata: seq<Entry>, tensors: seq<Tensor>)

  // ----- writing ---------------------------------------------------------------------------------

  function EncodeText(b: Bytes): Bytes
    requires |b| <= MAX_STRING
  {
    U64(|b|) + b
  }

  function ItemType(x: Item): u32 {
    match x
    case Text(_) => STRING_TYPE
    case Flag(_) => BOOL_TYPE
    case Scalar(t, _) => t
  }

  predicate ValidText(b: Bytes, size: nat) {
    |b| <= MAX_STRING && |b| <= size && ValidUtf8(b)
  }

  predicate ValidItem(x: Item, size: nat) {
    match x
    case Text(b) => ValidText(b, size)
    case Flag(_) => true
    case Scalar(t, raw) => ScalarWidth(t) > 0 && |raw| == ScalarWidth(t)
  }

  function EncodeItem(x: Item, size: nat): (b: Bytes)
    requires ValidItem(x, size)
    ensures |b| >= 1
  {
    match x
    case Text(t) => EncodeText(t)
    case Flag(f) => [if f then 1 else 0]
    case Scalar(_, raw) => raw
  }

  predicate ValidItems(xs: seq<Item>, elementType: u32, size: nat) {
    forall i :: 0 <= i < |xs| ==> ItemType(xs[i]) == elementType && ValidItem(xs[i], size)
  }

  function EncodeItems(xs: seq<Item>, elementType: u32, size: nat): Bytes
    requires ValidItems(xs, elementType, size)
  {
    if xs == [] then [] else EncodeItem(xs[0], size) + EncodeItems(xs[1..], elementType, size)
  }

  function ValueType(v: Value): u32 {
    match v
    case Single(x) => ItemType(x)
    case Items(_, _) => ARRAY_TYPE
  }

  /** An array's element type is not looked at when the array is empty, except that it must not be an array. */
  predicate ValidValue(v: Value, size: nat) {
    match v
    case Single(x) => ValidItem(x, size)
    case Items(t, xs) => |xs| <= MAX_ITEMS && t != ARRAY_TYPE && ValidItems(xs, t, size)
  }

  function EncodeValue(v: Value, size: nat): (b: Bytes)
    requires ValidValue(v, size)
    ensures |b| >= 1
  {
    match v
    case Single(x) => EncodeItem(x, size)
    case Items(t, xs) => U32(t) + U64(|xs|) + EncodeItems(xs, t, size)
  }

  predicate ValidEntry(e: Entry, size: nat) {
    e.key != [] && ValidText(e.key, size) && ValidValue(e.value, size)
  }

  function EncodeEntry(e: Entry, size: nat): (b: Bytes)
    requires ValidEntry(e, size)
    ensures |b| >= 14
  {
    EncodeText(e.key) + U32(ValueType(e.value)) + EncodeValue(e.value, size)
  }

  predicate HasKey(entries: seq<Entry>, key: Bytes) {
    exists i :: 0 <= i < |entries| && entries[i].key == key
  }

  predicate ValidEntries(es: seq<Entry>, size: nat) {
    && (forall i :: 0 <= i < |es| ==> ValidEntry(es[i], size))
    && (forall i, j :: 0 <= i < j < |es| ==> es[i].key != es[j].key)
  }

  function EncodeEntries(es: seq<Entry>, size: nat): (b: Bytes)
    requires forall i :: 0 <= i < |es| ==> ValidEntry(es[i], size)
    ensures |b| >= 14 * |es|
  {
    if es == [] then [] else EncodeEntry(es[0], size) + EncodeEntries(es[1..], size)
  }

  predicate NoZero(shape: seq<u64>) {
    forall i :: 0 <= i < |shape| ==> shape[i] != 0
  }

  predicate ValidTensor(t: Tensor, size: nat) {
    && t.name != [] && ValidText(t.name, size)
    && 1 <= |t.shape| <= 4
    && NoZero(t.shape)
    && t.tensorType <= 4096
  }

  function EncodeShape(shape: seq<u64>): (b: Bytes)
    ensures |b| == 8 * |shape|
  {
    if shape == [] then [] else U64(shape[0]) + EncodeShape(shape[1..])
  }

  function EncodeTensor(t: Tensor, size: nat): (b: Bytes)
    requires ValidTensor(t, size)
    ensures |b| >= 33
  {
    EncodeText(t.name) + (U32(|t.shape|) + (EncodeShape(t.shape) + (U32(t.tensorType) + U64(t.offset))))
  }

  predicate ValidTensors(ts: seq<Tensor>, size: nat) {
    && (forall i :: 0 <= i < |ts| ==> ValidTensor(ts[i], size))
    && (forall i, j :: 0 <= i < j < |ts| ==> ts[i].name != ts[j].name)
  }

  function EncodeTensors(ts: seq<Tensor>, size: nat): (b: Bytes)
    requires forall i :: 0 <= i < |ts| ==> ValidTensor(ts[i], size)
    ensures |b| >= 33 * |ts|
  {
    if ts == [] then [] else EncodeTensor(ts[0], size) + EncodeTensors(ts[1..], size)
  }

  predicate ValidParts(h: Header, size: nat) {
    && (h.version == 2 || h.version == 3)
    && 1 <= |h.tensors| <= MAX_ITEMS && |h.metadata| <= MAX_ITEMS
    && ValidEntries(h.metadata, size) && ValidTensors(h.tensors, size)
  }

  function EncodePrefix(version: u32, tensorCount: u64, metadataCount: u64): (b: Bytes)
    ensures |b| == 24
  {
    MAGIC + (U32(version) + (U64(tensorCount) + U64(metadataCount)))
  }

  function EncodeHeader(h: Header, size: nat): (b: Bytes)
    requires ValidParts(h, size)
    ensures |b| >= 24 + 14 * |h.metadata| + 33 * |h.tensors|
  {
    EncodePrefix(h.version, |h.tensors|, |h.metadata|)
    + (EncodeEntries(h.metadata, size) + EncodeTensors(h.tensors, size))
  }

  // ----- what the metadata must say ----------------------------------------------------------------

  function Lookup(es: seq<Entry>, key: Bytes): Option<Value> {
    if es == [] then None
    else if es[0].key == key then Some(es[0].value)
    else Lookup(es[1..], key)
  }

  /** The integer a value denotes: unsigned, or two's complement for the odd type numbers. */
  function IntegerOf(v: Value): Option<int> {
    if v.Single? && v.item.Scalar? && v.item.valueType in {0, 1, 2, 3, 4, 5, 10, 11} then
      var n := LittleValue(v.item.raw);
      if v.item.valueType in {1, 3, 5, 11} && 2 * n >= Pow256(|v.item.raw|) then Some(n - Pow256(|v.item.raw|))
      else Some(n)
    else None
  }

  function Architecture(es: seq<Entry>): Option<Bytes> {
    match Lookup(es, Ascii("general.architecture"))
    case Some(Single(Text(b))) => if IsBlank(b) then None else Some(b)
    case _ => None
  }

  function FileType(es: seq<Entry>): Option<nat> {
    var v := Lookup(es, Ascii("general.file_type"));
    if v.Some? && IntegerOf(v.value).Some? && IntegerOf(v.value).value >= 0 then Some(IntegerOf(v.value).value)
    else None
  }

  /** Absent, or an integer of at least `least`. */
  predicate AbsentOrAtLeast(v: Option<Value>, least: int) {
    v.Some? ==> IntegerOf(v.value).Some? && IntegerOf(v.value).value >= least
  }

  function ContextKey(architecture: Bytes): Bytes {
    architecture + Ascii(".context_length")
  }

  predicate ValidTemplate(v: Option<Value>) {
    match v
    case None => true
    case Some(Single(x)) => x.Text?
    case Some(Items(_, xs)) => forall i :: 0 <= i < |xs| ==> xs[i].Text?
  }

  /** `a & b` on non-negative integers. */
  function BitAnd(a: nat, b: nat): nat {
    if a == 0 || b == 0 then 0
    else 2 * BitAnd(a / 2, b / 2) + (if a % 2 == 1 && b % 2 == 1 then 1 else 0)
  }

  function Alignment(es: seq<Entry>): (a: Option<nat>)
    ensures a.Some? ==> a.value > 0
  {
    var v := Lookup(es, Ascii("general.alignment"));
    if v.None? then Some(32)
    else
      var n := IntegerOf(v.value);
      if n.None? || n.value <= 0 || BitAnd(n.value, n.value - 1) != 0 then None else Some(n.value)
  }

  predicate ValidMetadata(es: seq<Entry>) {
    && Architecture(es).Some?
    && FileType(es).Some?
    && AbsentOrAtLeast(Lookup(es, ContextKey(Architecture(es).value)), 1)
    && ValidTemplate(Lookup(es, Ascii("tokenizer.chat_template")))
    && Alignment(es).Some?
  }

  // ----- where the tensors must lie ----------------------------------------------------------------

  /** The first aligned position at or after the end of the header. */
  function DataStart(headerEnd: nat, alignment: nat): nat
    requires alignment > 0
  {
    (headerEnd + alignment - 1) / alignment * alignment
  }

  function Product(shape: seq<u64>): nat {
    if shape == [] then 1 else shape[0] * Product(shape[1..])
  }

  /** Bytes per element of the types with one element per block; None for every other type. */
  function FixedSize(tensorType: nat): Option<nat> {
    if tensorType == 24 then Some(1)
    else if tensorType == 1 || tensorType == 25 || tensorType == 30 then Some(2)
    else if tensorType == 0 || tensorType == 26 then Some(4)
    else if tensorType == 27 || tensorType == 28 then Some(8)
    else None
  }

  predicate TensorFits(t: Tensor, dataStart: nat, alignment: nat, size: nat)
    requires alignment > 0
  {
    && t.offset % alignment == 0
    && dataStart + t.offset < size
    && (FixedSize(t.tensorType).Some? ==>
          dataStart + t.offset + Product(t.shape) * FixedSize(t.tensorType).value <= size)
  }

  /** What the reader checks beyond the parts, for a header that ends at `headerEnd` in a file of `size` bytes. */
  predicate ValidLayout(h: Header, headerEnd: nat, size: nat) {
    && ValidMetadata(h.metadata)
    && var alignment := Alignment(h.metadata).value;
       && DataStart(headerEnd, alignment) <= size
       && forall i :: 0 <= i < |h.tensors| ==>
            TensorFits(h.tensors[i], DataStart(headerEnd, alignment), alignment, size)
  }
}

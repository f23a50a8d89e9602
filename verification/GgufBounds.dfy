/** What an accepted GGUF header guarantees about the file it heads. */
module GgufBounds {
  import opened Wrappers
  import opened ByteStrings
  import opened GgufFormat
  import opened GgufReader
  import opened GgufTheorems

  function Pow2(n: nat): nat {
    if n == 0 then 1 else 2 * Pow2(n - 1)
  }

  lemma {:induction false} BitAndSelf(a: nat)
    ensures BitAnd(a, a) == a
  {
    if a > 0 {
      BitAndSelf(a / 2);
    }
  }

  lemma Pow2Halves(n: nat)
    requires n > 0
    ensures Pow2(n) % 2 == 0 && Pow2(n) / 2 == Pow2(n - 1)
  {
    var half := Pow2(n - 1);
    assert Pow2(n) == 2 * half;
  }

  /** The test `a & (a - 1)` is exact: it is zero iff `a` is a power of two. */
  lemma {:induction false} PowerOfTwoTestIsExact(a: nat)
    requires a > 0
    ensures BitAnd(a, a - 1) == 0 <==> exists n: nat :: a == Pow2(n)
    decreases a
  {
    if a == 1 {
      assert a == Pow2(0);
    } else if a % 2 == 1 {
      BitAndSelf(a / 2);
      if n: nat :| a == Pow2(n) {
        Pow2Halves(n);
      }
    } else {
      assert (a - 1) / 2 == a / 2 - 1;
      PowerOfTwoTestIsExact(a / 2);
      if n: nat :| a / 2 == Pow2(n) {
        assert a == Pow2(n + 1);
      }
      if n: nat :| a == Pow2(n) {
        Pow2Halves(n);
      }
    }
  }

  lemma ProductGrows(a: nat, x: int, y: int)
    requires x <= y
    ensures a * x <= a * y
  {
    assert a * (y - x) >= 0;
  }

  /** Quotient and remainder are unique. */
  lemma DivisionIsUnique(p: nat, a: nat, q: nat, r: nat)
    requires a > 0 && r < a && p == a * q + r
    ensures p / a == q && p % a == r
  {
    var (q', r') := (p / a, p % a);
    assert p == a * q' + r';
    if q < q' {
      ProductGrows(a, q + 1, q');
    } else if q' < q {
      ProductGrows(a, q' + 1, q);
    }
  }

  /** The data section starts at the least aligned position that is not before the end of the header. */
  lemma DataStartIsLeast(end: nat, a: nat, p: nat)
    requires a > 0
    ensures DataStart(end, a) % a == 0 && end <= DataStart(end, a) < end + a
    ensures p >= end && p % a == 0 ==> DataStart(end, a) <= p
  {
    var k := (end + a - 1) / a;
    DivisionIsUnique(a * k, a, k, 0);
    assert end + a - 1 == a * k + (end + a - 1) % a;
    assert DataStart(end, a) == a * k;
    if p >= end && p % a == 0 {
      assert p == a * (p / a);
      if p / a < k {
        ProductGrows(a, p / a + 1, k);
      } else {
        ProductGrows(a, k, p / a);
      }
    }
  }

  lemma SumOfMultiples(x: nat, y: nat, a: nat)
    requires a > 0 && x % a == 0 && y % a == 0
    ensures (x + y) % a == 0
  {
    assert x + y == a * (x / a) + a * (y / a);
    DivisionIsUnique(x + y, a, x / a + y / a, 0);
  }

  /**
   In every accepted header the alignment is a power of two; the data section starts, aligned, after the
   header and no later than the end of the file; every tensor starts aligned inside the file; and every
   tensor of a fixed-size type ends inside it.
  */
  lemma AcceptedTensorsLieInFile(f: File, h: Header, next: nat, i: nat)
    requires ReadHeader(f) == Got(h, next) && i < |h.tensors|
    ensures Alignment(h.metadata).Some?
    ensures var (t, a) := (h.tensors[i], Alignment(h.metadata).value);
      var start := DataStart(next, a) + t.offset;
      && (exists n: nat :: a == Pow2(n))
      && next <= DataStart(next, a) <= f.size && DataStart(next, a) % a == 0
      && start % a == 0 && start < f.size
      && (FixedSize(t.tensorType).Some? ==> start + Product(t.shape) * FixedSize(t.tensorType).value <= f.size)
  {
    hide ReadHeader, Alignment, DataStart, Product, FixedSize;
    AcceptedHasLayout(f, h, next, i);
    var a := Alignment(h.metadata).value;
    AlignmentIsPowerOfTwo(h.metadata);
    DataStartIsLeast(next, a, 0);
    SumOfMultiples(DataStart(next, a), h.tensors[i].offset, a);
  }

  lemma AcceptedHasLayout(f: File, h: Header, next: nat, i: nat)
    requires ReadHeader(f) == Got(h, next) && i < |h.tensors|
    ensures Alignment(h.metadata).Some?
    ensures var a := Alignment(h.metadata).value;
      DataStart(next, a) <= f.size && TensorFits(h.tensors[i], DataStart(next, a), a, f.size)
  {
    hide ReadHeader, EncodedAt, Alignment, DataStart, TensorFits;
    AcceptedIsEncoded(f, h, next);
  }

  lemma AlignmentIsPowerOfTwo(es: seq<Entry>)
    requires Alignment(es).Some?
    ensures exists n: nat :: Alignment(es).value == Pow2(n)
  {
    PowerOfTwoTestIsExact(Alignment(es).value);
    PowerOfTwoTestIsExact(32);
    assert BitAnd(32, 31) == 0 by {
      assert Pow2(5) == 2 * Pow2(4) && Pow2(4) == 2 * Pow2(3) && Pow2(3) == 2 * Pow2(2) && Pow2(2) == 4;
    }
  }

  /**
   Reading is bounded: an accepted header lies within the inspection limit and within the file, and each
   metadata entry has cost at least 14 bytes and each tensor at least 33.
  */
  lemma ReadingCost(f: File, h: Header, next: nat)
    requires ReadHeader(f) == Got(h, next)
    ensures 24 + 14 * |h.metadata| + 33 * |h.tensors| <= next - f.start <= MAX_HEADER
    ensures next <= |f.data|
  {
    AcceptedIsEncoded(f, h, next);
  }

  /** No two metadata keys and no two tensor names of an accepted header are equal, and none is empty. */
  lemma AcceptedNamesAreUnique(f: File, h: Header, next: nat, i: nat, j: nat)
    requires ReadHeader(f) == Got(h, next)
    ensures i < |h.metadata| ==>
      h.metadata[i].key != [] && Lookup(h.metadata, h.metadata[i].key) == Some(h.metadata[i].value)
    ensures i < j < |h.tensors| ==> h.tensors[i].name != [] && h.tensors[i].name != h.tensors[j].name
  {
    AcceptedIsEncoded(f, h, next);
    if i < |h.metadata| {
      LookupFindsUniqueKey(h.metadata, i);
    }
  }

  lemma {:induction false} LookupFindsUniqueKey(es: seq<Entry>, i: nat)
    requires i < |es| && forall j, k :: 0 <= j < k < |es| ==> es[j].key != es[k].key
    ensures Lookup(es, es[i].key) == Some(es[i].value)
  {
    if i > 0 {
      assert es[i].key != es[0].key;
      LookupFindsUniqueKey(es[1..], i - 1);
    }
  }

  /**
   The integer that a scalar denotes: the one number of the type's range that agrees with its bytes modulo the width.
   The other scalars, strings and arrays denote none.
  */
  lemma IntegersFitTheirType(v: Value, size: nat)
    requires ValidValue(v, size)
    ensures IntegerOf(v).Some? <==> v.Single? && v.item.Scalar? && v.item.valueType !in {6, 12}
    ensures IntegerOf(v).Some? ==>
      var (n, raw, limit) := (IntegerOf(v).value, LittleValue(v.item.raw), Pow256(|v.item.raw|));
      && (n == raw || n == raw - limit)
      && if v.item.valueType in {1, 3, 5, 11} then -limit <= 2 * n < limit else 0 <= n < limit
  {
    if v.Single? && v.item.Scalar? {
      LittleOfValue(v.item.raw);
    }
  }

  // ----- a header that is accepted -----------------------------------------------------------------

  const ARCHITECTURE_KEY: Bytes := Ascii("general.architecture")
  const FILE_TYPE_KEY: Bytes := Ascii("general.file_type")
  const TINY: Bytes := Ascii("tiny")
  const WEIGHT: Bytes := Ascii("weight")
  const SMALL: Header := Header(
    3, [Entry(ARCHITECTURE_KEY, Single(Text(TINY))), Entry(FILE_TYPE_KEY, Single(Scalar(4, [0, 0, 0, 0])))],
    [Tensor(WEIGHT, [1], 0, 0)])
  const ROOM: nat := 1000

  lemma SmallKeys()
    ensures |Ascii("general.architecture")| == 20 && |Ascii("general.file_type")| == 17
    ensures |ContextKey(Ascii("tiny"))| == 19 && |Ascii("tokenizer.chat_template")| == 23
    ensures Ascii("general.file_type") != Ascii("general.alignment") && |Ascii("general.alignment")| == 17
  {
    assert Ascii("general.file_type")[8] == 'f' as int && Ascii("general.alignment")[8] == 'a' as int;
  }

  lemma {:induction false} AsciiIsUtf8(b: Bytes)
    requires forall i :: 0 <= i < |b| ==> b[i] < 0x80
    ensures ValidUtf8(b)
  {
    if b != [] {
      AsciiIsUtf8(b[1..]);
    }
  }

  lemma LookupInTwo(a: Entry, b: Entry, key: Bytes)
    ensures Lookup([a, b], key) ==
      if a.key == key then Some(a.value) else if b.key == key then Some(b.value) else None
  {
    assert [a, b][1..] == [b] && [b][1..] == [];
    assert Lookup([b], key) == if b.key == key then Some(b.value) else None;
  }

  lemma SmallMetadataIsValid()
    ensures ValidMetadata(SMALL.metadata) && Alignment(SMALL.metadata) == Some(32)
  {
    var es := SMALL.metadata;
    SmallKeys();
    LookupInTwo(es[0], es[1], Ascii("general.architecture"));
    LookupInTwo(es[0], es[1], Ascii("general.file_type"));
    LookupInTwo(es[0], es[1], Ascii("general.alignment"));
    LookupInTwo(es[0], es[1], Ascii("tokenizer.chat_template"));
    LookupInTwo(es[0], es[1], ContextKey(Ascii("tiny")));
    Zero();
    hide Lookup, ContextKey, IsBlank, LittleValue;
  }

  lemma Zero()
    ensures LittleValue([0, 0, 0, 0]) == 0 && !IsBlank(Ascii("tiny"))
  {
    var b: Bytes := [0, 0, 0, 0];
    assert b[1..] == [0, 0, 0] && b[1..][1..] == [0, 0] && b[1..][1..][1..] == [0] && b[1..][1..][1..][1..] == [];
    assert Ascii("tiny")[0] == 't' as int;
  }

  lemma AsciiText(s: string)
    requires |s| <= ROOM && forall i :: 0 <= i < |s| ==> s[i] < 128 as char
    ensures ValidText(Ascii(s), ROOM)
  {
    AsciiIsUtf8(Ascii(s));
  }

  lemma TextEntry(k: Bytes, v: Bytes)
    requires k != [] && ValidText(k, ROOM) && ValidText(v, ROOM)
    ensures var e := Entry(k, Single(Text(v))); ValidEntry(e, ROOM) && |EncodeEntry(e, ROOM)| == 20 + |k| + |v|
  {
    hide ValidUtf8, Little;
  }

  lemma ScalarEntry(k: Bytes, raw: Bytes)
    requires k != [] && ValidText(k, ROOM) && |raw| == 4
    ensures var e := Entry(k, Single(Scalar(4, raw))); ValidEntry(e, ROOM) && |EncodeEntry(e, ROOM)| == 16 + |k|
  {
    hide ValidUtf8, Little;
  }

  lemma OneTensor(name: Bytes)
    requires name != [] && ValidText(name, ROOM)
    ensures var t := Tensor(name, [1], 0, 0); ValidTensor(t, ROOM) && |EncodeTensor(t, ROOM)| == 32 + |name|
  {
    hide ValidUtf8, Little;
  }

  lemma HeaderOfThreeParts(a: Entry, b: Entry, t: Tensor)
    requires ValidEntry(a, ROOM) && ValidEntry(b, ROOM) && a.key != b.key && ValidTensor(t, ROOM)
    ensures var h := Header(3, [a, b], [t]);
      && ValidParts(h, ROOM)
      && |EncodeHeader(h, ROOM)| == 24 + |EncodeEntry(a, ROOM)| + |EncodeEntry(b, ROOM)| + |EncodeTensor(t, ROOM)|
  {
    hide EncodeEntry, EncodeTensor, EncodePrefix, ValidEntry, ValidTensor;
    assert [a, b][1..] == [b] && [b][1..] == [] && [t][1..] == [];
    assert EncodeEntries([a, b], ROOM) == EncodeEntry(a, ROOM) + EncodeEntries([b], ROOM);
    assert EncodeEntries([b], ROOM) == EncodeEntry(b, ROOM) + [];
    assert EncodeTensors([t], ROOM) == EncodeTensor(t, ROOM) + [];
  }

  lemma SmallTexts()
    ensures ValidText(ARCHITECTURE_KEY, ROOM) && ValidText(FILE_TYPE_KEY, ROOM)
    ensures ValidText(TINY, ROOM) && ValidText(WEIGHT, ROOM)
    ensures |ARCHITECTURE_KEY| == 20 && |FILE_TYPE_KEY| == 17 && |TINY| == 4 && |WEIGHT| == 6
  {
    hide ValidText, Ascii;
    AsciiText("general.architecture");
    AsciiText("general.file_type");
    AsciiText("tiny");
    AsciiText("weight");
  }

  lemma SmallPartsAreValid()
    ensures ValidParts(SMALL, ROOM) && |EncodeHeader(SMALL, ROOM)| == 139
  {
    SmallTexts();
    hide ARCHITECTURE_KEY, FILE_TYPE_KEY, TINY, WEIGHT, ValidText, ValidEntry, EncodeEntry, ValidTensor, EncodeTensor,
      ValidParts, EncodeHeader;
    TextEntry(ARCHITECTURE_KEY, TINY);
    ScalarEntry(FILE_TYPE_KEY, [0, 0, 0, 0]);
    OneTensor(WEIGHT);
    HeaderOfThreeParts(SMALL.metadata[0], SMALL.metadata[1], SMALL.tensors[0]);
  }

  /** An entry under this key holds an integer of at least `least`. */
  predicate HoldsAtLeast(v: Option<Value>, least: int) {
    v.Some? && IntegerOf(v.value).Some? && IntegerOf(v.value).value >= least
  }

  /** A text with something else than white space in it. */
  predicate NamesArchitecture(es: seq<Entry>, architecture: Bytes) {
    Lookup(es, Ascii("general.architecture")) == Some(Single(Text(architecture))) && !IsBlank(architecture)
  }

  predicate HasFileType(es: seq<Entry>) {
    HoldsAtLeast(Lookup(es, Ascii("general.file_type")), 0)
  }

  predicate HasContextOrNone(es: seq<Entry>, architecture: Bytes) {
    var context := Lookup(es, architecture + Ascii(".context_length"));
    context == None || HoldsAtLeast(context, 1)
  }

  /** A power of two, or 32 if there is no entry. */
  ghost predicate AlignsBy(es: seq<Entry>, alignment: nat) {
    var v := Lookup(es, Ascii("general.alignment"));
    if v == None then alignment == 32
    else IntegerOf(v.value) == Some(alignment) && exists n: nat :: alignment == Pow2(n)
  }

  lemma ArchitectureIs(es: seq<Entry>)
    requires Architecture(es).Some?
    ensures NamesArchitecture(es, Architecture(es).value)
  {
    hide Lookup, Ascii, IsBlank;
  }

  lemma AlignmentIs(es: seq<Entry>)
    requires Alignment(es).Some?
    ensures AlignsBy(es, Alignment(es).value)
  {
    hide Lookup, Ascii, BitAnd, Pow2, IntegerOf;
    var v := Lookup(es, Ascii("general.alignment"));
    if v.Some? {
      PowerOfTwoTestIsExact(IntegerOf(v.value).value);
    }
  }

  lemma FileTypeAndContext(es: seq<Entry>)
    requires FileType(es).Some? && Architecture(es).Some?
    requires AbsentOrAtLeast(Lookup(es, ContextKey(Architecture(es).value)), 1)
    ensures HasFileType(es) && HasContextOrNone(es, Architecture(es).value)
  {
    hide Lookup, Ascii, IntegerOf, Architecture;
  }

  lemma ValidMetadataParts(es: seq<Entry>)
    requires ValidMetadata(es)
    ensures Architecture(es).Some? && FileType(es).Some? && Alignment(es).Some?
    ensures AbsentOrAtLeast(Lookup(es, ContextKey(Architecture(es).value)), 1)
  {
    hide Lookup, Ascii, Architecture, FileType, Alignment, AbsentOrAtLeast, ContextKey;
  }

  /**
   What the metadata of an accepted header says: an architecture, a file type, a positive context length of that
   architecture or none, and the alignment.
  */
  lemma AcceptedMetadata(f: File, h: Header, next: nat) returns (architecture: Bytes, alignment: nat)
    requires ReadHeader(f) == Got(h, next)
    ensures NamesArchitecture(h.metadata, architecture) && HasFileType(h.metadata)
    ensures HasContextOrNone(h.metadata, architecture) && AlignsBy(h.metadata, alignment)
  {
    hide ReadHeader, EncodedAt, NamesArchitecture, HasFileType, HasContextOrNone, AlignsBy, Architecture, FileType,
      Alignment, Lookup, AbsentOrAtLeast, ContextKey, ValidMetadata;
    AcceptedIsEncoded(f, h, next);
    ValidMetadataParts(h.metadata);
    ArchitectureIs(h.metadata);
    AlignmentIs(h.metadata);
    FileTypeAndContext(h.metadata);
    architecture, alignment := Architecture(h.metadata).value, Alignment(h.metadata).value;
  }

  /** The element count is the product of the dimensions, whatever their grouping. */
  lemma {:induction false} ProductSplits(a: seq<u64>, b: seq<u64>)
    ensures Product(a + b) == Product(a) * Product(b)
    ensures |a| == 1 ==> Product(a) == a[0]
  {
    if a == [] {
      assert a + b == b;
    } else {
      ProductSplits(a[1..], b);
      assert (a + b)[1..] == a[1..] + b;
      Regroup(a[0], Product(a[1..]), Product(b));
    }
  }

  lemma Regroup(x: nat, y: nat, z: nat)
    ensures x * (y * z) == (x * y) * z
  {
  }

  /** The types of the format by their widths, and the tensor types whose elements are not packed in blocks. */
  lemma TypeTables(t: nat)
    ensures ScalarWidth(t) == 1 <==> t in {0, 1}
    ensures ScalarWidth(t) == 2 <==> t in {2, 3}
    ensures ScalarWidth(t) == 4 <==> t in {4, 5, 6}
    ensures ScalarWidth(t) == 8 <==> t in {10, 11, 12}
    ensures ScalarWidth(t) == 0 <==> t !in {0, 1, 2, 3, 4, 5, 6, 10, 11, 12}
    ensures FixedSize(t) == Some(1) <==> t == 24
    ensures FixedSize(t) == Some(2) <==> t in {1, 25, 30}
    ensures FixedSize(t) == Some(4) <==> t in {0, 26}
    ensures FixedSize(t) == Some(8) <==> t in {27, 28}
    ensures FixedSize(t) == None <==> t !in {0, 1, 24, 25, 26, 27, 28, 30}
  {
  }

  /** The first bytes of a version 3 file with one tensor and two metadata entries. */
  lemma KnownPrefix()
    ensures EncodePrefix(3, 1, 2) == [0x47, 0x47, 0x55, 0x46] + ([3] + Zeros(3) + ([1] + Zeros(7) + ([2] + Zeros(7))))
  {
    KnownMagic();
    SmallNumber(3, 4);
    SmallNumber(1, 8);
    SmallNumber(2, 8);
    hide Little, MAGIC, Zeros;
  }

  lemma KnownMagic()
    ensures MAGIC == [0x47, 0x47, 0x55, 0x46]
  {
  }

  function Zeros(n: nat): (b: Bytes)
    ensures |b| == n && forall i :: 0 <= i < n ==> b[i] == 0
  {
    seq(n, _ => 0)
  }

  lemma SmallNumber(n: byte, width: nat)
    requires width > 0
    ensures Little(n, width) == [n] + Zeros(width - 1)
  {
    NoNumber(width - 1);
  }

  lemma {:induction false} NoNumber(width: nat)
    ensures Little(0, width) == Zeros(width)
  {
    if width > 0 {
      NoNumber(width - 1);
    }
  }

  /** There are accepted headers: this one, with zeros behind it in a file of 1000 bytes. */
  lemma ASmallHeaderIsAccepted() returns (f: File, next: nat)
    ensures f.size == |f.data| == ROOM && ReadHeader(f) == Got(SMALL, next)
  {
    SmallPartsAreValid();
    SmallMetadataIsValid();
    hide EncodeHeader, ValidParts, ValidMetadata, Alignment, ReadHeader;
    var header := EncodeHeader(SMALL, ROOM);
    next := |header|;
    f := File(header + seq(ROOM - next, _ => 0), 0, ROOM);
    assert f.data[..next] == header;
    DataStartIsLeast(next, 32, 0);
    assert EncodedAt(f, SMALL, next);
    EncodedIsAccepted(f, SMALL, next);
  }
}

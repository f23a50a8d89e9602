/** Byte strings and the fixed-width integers written into them. */
module ByteStrings {
  type byte = x: int | 0 <= x < 256

  type Bytes = seq<byte>

  function Pow256(n: nat): nat {
    if n == 0 then 1 else 256 * Pow256(n - 1)
  }

  const U32_LIMIT: nat := 0x1_0000_0000
  const U64_LIMIT: nat := 0x1_0000_0000_0000_0000

  type u32 = n: int | 0 <= n < U32_LIMIT
  type u64 = n: int | 0 <= n < U64_LIMIT

  lemma WidthLimits()
    ensures Pow256(4) == U32_LIMIT && Pow256(8) == U64_LIMIT
  {
    assert Pow256(2) == 0x1_0000;
    assert Pow256(4) == 0x1_0000 * Pow256(2);
    assert Pow256(6) == 0x1_0000 * Pow256(4);
    assert Pow256(8) == 0x1_0000 * Pow256(6);
  }

  /** `int.to_bytes(width, "little")`. */
  function Little(n: nat, width: nat): (b: Bytes)
    ensures |b| == width
  {
    if width == 0 then [] else [n % 256] + Little(n / 256, width - 1)
  }

  function LittleValue(b: Bytes): nat {
    if b == [] then 0 else b[0] + 256 * LittleValue(b[1..])
  }

  /** `int.to_bytes(width, "big")`. */
  function Big(n: nat, width: nat): (b: Bytes)
    ensures |b| == width
  {
    if width == 0 then [] else Big(n / 256, width - 1) + [n % 256]
  }

  function BigValue(b: Bytes): nat {
    if b == [] then 0 else 256 * BigValue(b[..|b| - 1]) + b[|b| - 1]
  }

  lemma {:induction false} LittleRoundTrip(n: nat, width: nat)
    requires n < Pow256(width)
    ensures LittleValue(Little(n, width)) == n
  {
    if width > 0 {
      LittleRoundTrip(n / 256, width - 1);
    }
  }

  lemma LowByte(low: byte, high: nat)
    ensures (low + 256 * high) % 256 == low && (low + 256 * high) / 256 == high
  {
  }

  lemma {:induction false} LittleOfValue(b: Bytes)
    ensures Little(LittleValue(b), |b|) == b && LittleValue(b) < Pow256(|b|)
  {
    if b != [] {
      LittleOfValue(b[1..]);
      LowByte(b[0], LittleValue(b[1..]));
      assert [b[0]] + b[1..] == b;
    }
  }

  lemma {:induction false} BigRoundTrip(n: nat, width: nat)
    requires n < Pow256(width)
    ensures BigValue(Big(n, width)) == n
  {
    if width > 0 {
      BigRoundTrip(n / 256, width - 1);
    }
  }

  lemma {:induction false} BigOfValue(b: Bytes)
    ensures Big(BigValue(b), |b|) == b && BigValue(b) < Pow256(|b|)
  {
    if b != [] {
      var n := |b| - 1;
      BigOfValue(b[..n]);
      assert b[..n] + [b[n]] == b;
    }
  }

  function U32(n: u32): Bytes {
    Little(n, 4)
  }

  function U64(n: u64): Bytes {
    Little(n, 8)
  }

  function U32Value(b: Bytes): u32
    requires |b| == 4
  {
    LittleOfValue(b);
    WidthLimits();
    LittleValue(b)
  }

  function U64Value(b: Bytes): u64
    requires |b| == 8
  {
    LittleOfValue(b);
    WidthLimits();
    LittleValue(b)
  }

  lemma U32Inverse(n: u32, b: Bytes)
    requires |b| == 4
    ensures U32Value(b) == n <==> b == U32(n)
  {
    WidthLimits();
    LittleRoundTrip(n, 4);
    LittleOfValue(b);
  }

  lemma U64Inverse(n: u64, b: Bytes)
    requires |b| == 8
    ensures U64Value(b) == n <==> b == U64(n)
  {
    WidthLimits();
    LittleRoundTrip(n, 8);
    LittleOfValue(b);
  }

  /** The bytes of an ASCII literal. */
  function Ascii(s: string): (b: Bytes)
    requires forall i :: 0 <= i < |s| ==> s[i] < 128 as char
    ensures |b| == |s|
  {
    seq(|s|, i requires 0 <= i < |s| => s[i] as int)
  }

  predicate IsTail(b: byte) {
    0x80 <= b <= 0xBF
  }

  /** Well-formed UTF-8 (RFC 3629, section 4). */
  predicate ValidUtf8(b: Bytes) {
    if b == [] then true
    else if b[0] < 0x80 then ValidUtf8(b[1..])
    else if 0xC2 <= b[0] <= 0xDF then |b| >= 2 && IsTail(b[1]) && ValidUtf8(b[2..])
    else if 0xE0 <= b[0] <= 0xEF then
      && |b| >= 3 && IsTail(b[1]) && IsTail(b[2])
      && (b[0] == 0xE0 ==> b[1] >= 0xA0) && (b[0] == 0xED ==> b[1] <= 0x9F)
      && ValidUtf8(b[3..])
    else
      && 0xF0 <= b[0] <= 0xF4
      && |b| >= 4 && IsTail(b[1]) && IsTail(b[2]) && IsTail(b[3])
      && (b[0] == 0xF0 ==> b[1] >= 0x90) && (b[0] == 0xF4 ==> b[1] <= 0x8F)
      && ValidUtf8(b[4..])
  }

  /** UTF-8 text that Python's `str.strip` empties: nothing but whitespace characters. */
  predicate IsBlank(b: Bytes) {
    if b == [] then true
    else if 0x09 <= b[0] <= 0x0D || 0x1C <= b[0] <= 0x20 then IsBlank(b[1..])
    else if |b| >= 2 && b[0] == 0xC2 && (b[1] == 0x85 || b[1] == 0xA0) then IsBlank(b[2..])
    else
      && |b| >= 3
      && (|| b[..3] == [0xE1, 0x9A, 0x80]
          || (b[0] == 0xE2 && b[1] == 0x80 && (0x80 <= b[2] <= 0x8A || b[2] in {0xA8, 0xA9, 0xAF}))
          || b[..3] == [0xE2, 0x81, 0x9F]
          || b[..3] == [0xE3, 0x80, 0x80])
      && IsBlank(b[3..])
  }
}

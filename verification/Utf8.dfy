/**
 UTF-8 against its definition (RFC 3629, section 3): the bytes that the header reader takes for text are exactly the
 encodings of sequences of Unicode scalar values, and it takes for blank exactly the encodings of white space.
*/
module Utf8 {
  import opened ByteStrings
  import Inputs = ExecutionInputs

  /** Code points without the surrogates. */
  type Scalar = c: int | 0 <= c < 0x11_0000 && !(0xD800 <= c < 0xE000)

  function Encode(c: Scalar): (b: Bytes)
    ensures 1 <= |b| <= 4
  {
    if c < 0x80 then [c]
    else if c < 0x800 then [0xC0 + c / 64, 0x80 + c % 64]
    else if c < 0x1_0000 then [0xE0 + c / 4096, 0x80 + c / 64 % 64, 0x80 + c % 64]
    else [0xF0 + c / 26_2144, 0x80 + c / 4096 % 64, 0x80 + c / 64 % 64, 0x80 + c % 64]
  }

  function EncodeAll(cs: seq<Scalar>): Bytes {
    if cs == [] then [] else Encode(cs[0]) + EncodeAll(cs[1..])
  }

  lemma EncodedIsValid(c: Scalar, rest: Bytes)
    ensures ValidUtf8(Encode(c) + rest) <==> ValidUtf8(rest)
  {
    var b := Encode(c) + rest;
    assert b[|Encode(c)|..] == rest;
  }

  lemma {:induction false} AllEncodedIsValid(cs: seq<Scalar>)
    ensures ValidUtf8(EncodeAll(cs))
  {
    hide Encode;
    if cs != [] {
      AllEncodedIsValid(cs[1..]);
      EncodedIsValid(cs[0], EncodeAll(cs[1..]));
    }
  }

  lemma TwoBytes(x: int, y: int)
    requires 0xC2 <= x <= 0xDF && 0x80 <= y <= 0xBF
    ensures var c := (x - 0xC0) * 64 + (y - 0x80); 0x80 <= c < 0x800 && Encode(c) == [x, y]
  {
  }

  lemma ThreeBytes(x: int, y: int, z: int)
    requires 0xE0 <= x <= 0xEF && 0x80 <= y <= 0xBF && 0x80 <= z <= 0xBF
    requires (x == 0xE0 ==> y >= 0xA0) && (x == 0xED ==> y <= 0x9F)
    ensures var c := (x - 0xE0) * 4096 + (y - 0x80) * 64 + (z - 0x80);
      0x800 <= c < 0x1_0000 && !(0xD800 <= c < 0xE000) && Encode(c) == [x, y, z]
  {
    var c := (x - 0xE0) * 4096 + (y - 0x80) * 64 + (z - 0x80);
    assert c / 64 == (x - 0xE0) * 64 + (y - 0x80) && c / 4096 == x - 0xE0;
  }

  lemma FourBytes(x: int, y: int, z: int, w: int)
    requires 0xF0 <= x <= 0xF4 && 0x80 <= y <= 0xBF && 0x80 <= z <= 0xBF && 0x80 <= w <= 0xBF
    requires (x == 0xF0 ==> y >= 0x90) && (x == 0xF4 ==> y <= 0x8F)
    ensures var c := (x - 0xF0) * 26_2144 + (y - 0x80) * 4096 + (z - 0x80) * 64 + (w - 0x80);
      0x1_0000 <= c < 0x11_0000 && Encode(c) == [x, y, z, w]
  {
    var c := (x - 0xF0) * 26_2144 + (y - 0x80) * 4096 + (z - 0x80) * 64 + (w - 0x80);
    assert c / 64 == (x - 0xF0) * 4096 + (y - 0x80) * 64 + (z - 0x80);
    assert c / 4096 == (x - 0xF0) * 64 + (y - 0x80) && c / 26_2144 == x - 0xF0;
  }

  /** A text begins with the encoding of a code point. */
  lemma FirstScalar(b: Bytes) returns (c: Scalar)
    requires b != [] && ValidUtf8(b)
    ensures Encode(c) <= b && ValidUtf8(b[|Encode(c)|..])
  {
    if b[0] < 0x80 {
      c := b[0];
      assert b[..1] == [b[0]];
    } else if b[0] <= 0xDF {
      TwoBytes(b[0], b[1]);
      c := (b[0] as int - 0xC0) * 64 + (b[1] as int - 0x80);
      assert b[..2] == [b[0], b[1]];
    } else if b[0] <= 0xEF {
      ThreeBytes(b[0], b[1], b[2]);
      c := (b[0] as int - 0xE0) * 4096 + (b[1] as int - 0x80) * 64 + (b[2] as int - 0x80);
      assert b[..3] == [b[0], b[1], b[2]];
    } else {
      FourBytes(b[0], b[1], b[2], b[3]);
      c := (b[0] as int - 0xF0) * 26_2144 + (b[1] as int - 0x80) * 4096
         + (b[2] as int - 0x80) * 64 + (b[3] as int - 0x80);
      assert b[..4] == [b[0], b[1], b[2], b[3]];
    }
  }

  lemma EncodeCons(c: Scalar, cs: seq<Scalar>)
    ensures EncodeAll([c] + cs) == Encode(c) + EncodeAll(cs)
  {
    assert ([c] + cs)[1..] == cs;
  }

  lemma {:induction false} ValidIsEncoded(b: Bytes) returns (cs: seq<Scalar>)
    requires ValidUtf8(b)
    ensures EncodeAll(cs) == b
  {
    cs := [];
    if b != [] {
      hide Encode, ValidUtf8, EncodeAll;
      var c := FirstScalar(b);
      var rest := ValidIsEncoded(b[|Encode(c)|..]);
      cs := [c] + rest;
      EncodeCons(c, rest);
    }
  }

  /** A byte string is taken for text if and only if it is the encoding of some scalar values. */
  lemma ValidIffEncoded(b: Bytes)
    ensures ValidUtf8(b) <==> exists cs: seq<Scalar> :: EncodeAll(cs) == b
  {
    if ValidUtf8(b) {
      var cs := ValidIsEncoded(b);
    }
    if cs: seq<Scalar> :| EncodeAll(cs) == b {
      AllEncodedIsValid(cs);
    }
  }

  /** What `str.strip` removes. */
  predicate IsSpace(c: Scalar) {
    || 0x09 <= c <= 0x0D || 0x1C <= c <= 0x20 || c in {0x85, 0xA0, 0x1680}
    || 0x2000 <= c <= 0x200A || c in {0x2028, 0x2029, 0x202F, 0x205F, 0x3000}
  }

  /** Texts in execution inputs are stripped of the same characters. */
  lemma SpacesAgree(c: Scalar)
    ensures Inputs.IsSpace(c as char) <==> IsSpace(c)
  {
  }

  lemma BlankStart(c: Scalar, rest: Bytes)
    ensures IsBlank(Encode(c) + rest) <==> IsSpace(c) && IsBlank(rest)
  {
    var b := Encode(c) + rest;
    assert b[|Encode(c)|..] == rest;
    if |Encode(c)| == 3 {
      assert b[..3] == Encode(c);
    }
  }

  /** A text is taken for blank if and only if it consists of white space. */
  lemma {:induction false} BlankIffSpaces(cs: seq<Scalar>)
    ensures IsBlank(EncodeAll(cs)) <==> forall i :: 0 <= i < |cs| ==> IsSpace(cs[i])
  {
    hide Encode, IsSpace;
    if cs != [] {
      BlankIffSpaces(cs[1..]);
      BlankStart(cs[0], EncodeAll(cs[1..]));
      assert cs == [cs[0]] + cs[1..];
    }
  }
}

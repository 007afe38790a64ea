/** What the note buffer accepts as text is exactly what encoding Unicode scalar values gives (RFC 3629, section 3). */
module Utf8 {
  import opened Wrappers
  import opened NoteBuffer

  /** A code point that is no surrogate. */
  type Scalar = c: int | 0 <= c < 0xD800 || 0xE000 <= c < 0x11_0000

  function Encode(c: Scalar): (bytes: seq<Byte>)
    ensures 1 <= |bytes| <= 4
  {
    if c < 0x80 then [c]
    else if c < 0x800 then [192 + c / 64, 128 + c % 64]
    else if c < 0x1_0000 then [224 + c / 4096, 128 + c / 64 % 64, 128 + c % 64]
    else [240 + c / 262144, 128 + c / 4096 % 64, 128 + c / 64 % 64, 128 + c % 64]
  }

  function EncodeAll(scalars: seq<Scalar>): seq<Byte> {
    if scalars == [] then [] else Encode(scalars[0]) + EncodeAll(scalars[1..])
  }

  /** The bits of a character of each length put together again. */
  function Decoded2(a: int, b: int): int {
    64 * (a - 192) + (b - 128)
  }

  function Decoded3(a: int, b: int, c: int): int {
    4096 * (a - 224) + 64 * (b - 128) + (c - 128)
  }

  function Decoded4(a: int, b: int, c: int, d: int): int {
    262144 * (a - 240) + 4096 * (b - 128) + 64 * (c - 128) + (d - 128)
  }

  lemma EncodedLength(c: Scalar, rest: seq<Byte>)
    ensures CharacterLength(Encode(c) + rest) == |Encode(c)|
  {
    var bytes := Encode(c) + rest;
    assert forall i :: 0 <= i < |Encode(c)| ==> bytes[i] == Encode(c)[i];
    if 0x800 <= c < 0x1_0000 {
      assert c / 4096 == 0 ==> c / 64 % 64 >= 32;
      assert c / 4096 == 13 ==> c / 64 % 64 < 32;
    } else if 0x1_0000 <= c {
      assert c / 262144 == 0 ==> c / 4096 % 64 >= 16;
      assert c / 262144 == 4 ==> c / 4096 % 64 < 16;
    }
  }

  lemma LastSix(high: nat, low: nat)
    requires low < 64
    ensures (64 * high + low) / 64 == high && (64 * high + low) % 64 == low
  {
  }

  lemma TwoAreEncoded(a: Byte, b: Byte)
    requires 194 <= a < 224 && 128 <= b < 192
    ensures 0x80 <= Decoded2(a, b) < 0x800 && Encode(Decoded2(a, b)) == [a, b]
  {
    LastSix(a - 192, b - 128);
  }

  lemma ThreeAreEncoded(a: Byte, b: Byte, c: Byte)
    requires 224 <= a < 240 && 128 <= b < 192 && 128 <= c < 192
    requires !(a == 224 && b < 160) && !(a == 237 && b >= 160)
    ensures var scalar := Decoded3(a, b, c);
            && 0x800 <= scalar < 0x1_0000 && (scalar < 0xD800 || 0xE000 <= scalar)
            && Encode(scalar) == [a, b, c]
  {
    LastSix(a - 224, b - 128);
    LastSix(64 * (a - 224) + (b - 128), c - 128);
    SplitThree(Decoded3(a, b, c), a - 224, b - 128, c - 128);
  }

  lemma SplitThree(scalar: nat, high: nat, middle: nat, low: nat)
    requires middle < 64 && low < 64 && scalar == 4096 * high + 64 * middle + low
    ensures scalar / 4096 == high && scalar / 64 % 64 == middle && scalar % 64 == low
  {
    LastSix(high, middle);
    LastSix(64 * high + middle, low);
    assert scalar == 64 * (64 * high + middle) + low;
  }

  lemma FourAreEncoded(a: Byte, b: Byte, c: Byte, d: Byte)
    requires 240 <= a < 245 && 128 <= b < 192 && 128 <= c < 192 && 128 <= d < 192
    requires !(a == 240 && b < 144) && !(a == 244 && b >= 144)
    ensures var scalar := Decoded4(a, b, c, d);
            0x1_0000 <= scalar < 0x11_0000 && Encode(scalar) == [a, b, c, d]
  {
    var scalar, upper := Decoded4(a, b, c, d), 64 * (a - 240) + (b - 128);
    SplitThree(scalar, upper, c - 128, d - 128);
    LastSix(a - 240, b - 128);
    assert scalar / 262144 == a - 240;
  }

  /** A well-formed character is the encoding of a scalar value. */
  lemma CharacterIsEncoded(bytes: seq<Byte>) returns (c: Scalar)
    requires bytes != [] && CharacterLength(bytes) > 0
    ensures Encode(c) == bytes[..CharacterLength(bytes)]
  {
    var n := CharacterLength(bytes);
    if n == 1 {
      c := bytes[0];
    } else if n == 2 {
      TwoAreEncoded(bytes[0], bytes[1]);
      c := Decoded2(bytes[0], bytes[1]);
    } else if n == 3 {
      ThreeAreEncoded(bytes[0], bytes[1], bytes[2]);
      c := Decoded3(bytes[0], bytes[1], bytes[2]);
    } else {
      FourAreEncoded(bytes[0], bytes[1], bytes[2], bytes[3]);
      c := Decoded4(bytes[0], bytes[1], bytes[2], bytes[3]);
    }
  }

  lemma {:induction false} EncodedIsUtf8(scalars: seq<Scalar>)
    ensures IsUtf8(EncodeAll(scalars))
  {
    if scalars != [] {
      var rest := EncodeAll(scalars[1..]);
      EncodedIsUtf8(scalars[1..]);
      EncodedLength(scalars[0], rest);
      assert (Encode(scalars[0]) + rest)[|Encode(scalars[0])|..] == rest;
    }
  }

  lemma {:induction false} Utf8IsEncoded(bytes: seq<Byte>) returns (scalars: seq<Scalar>)
    requires IsUtf8(bytes)
    ensures EncodeAll(scalars) == bytes
    decreases |bytes|
  {
    scalars := [];
    if bytes != [] {
      var n := CharacterLength(bytes);
      var c := CharacterIsEncoded(bytes);
      var rest := Utf8IsEncoded(bytes[n..]);
      scalars := [c] + rest;
      assert scalars[1..] == rest;
      assert bytes == bytes[..n] + bytes[n..];
    }
  }

  ghost predicate IsEncoded(bytes: seq<Byte>) {
    exists scalars :: EncodeAll(scalars) == bytes
  }

  /** Text is accepted exactly when it is the encoding of some scalar values. */
  lemma Utf8IffEncoded(bytes: seq<Byte>)
    ensures IsUtf8(bytes) <==> IsEncoded(bytes)
  {
    if IsUtf8(bytes) {
      var scalars := Utf8IsEncoded(bytes);
    }
    if scalars :| EncodeAll(scalars) == bytes {
      EncodedIsUtf8(scalars);
    }
  }
}

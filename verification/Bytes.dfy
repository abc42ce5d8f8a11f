/** Bytes, big-endian integers and NUL-terminated text, as the wire formats use them. */
module Bytes {

  type byte = n: int | 0 <= n < 0x100
  type Text = seq<byte>
  type uint16 = n: int | 0 <= n < 0x1_0000
  type uint32 = n: int | 0 <= n < 0x1_0000_0000

  datatype Option<+T> = None | Some(value: T)

  const NUL: byte := 0
  const BACKSLASH: byte := 0x5C

  /** The cast to `unsigned char`: keeps the low eight bits. */
  function ToByte(n: int): (b: byte) {
    n % 0x100
  }

  /** Addition of two `unsigned char`. */
  function Plus(a: byte, b: byte): byte {
    ToByte(a as int + b as int)
  }

  function Min(a: nat, b: nat): nat {
    if a < b then a else b
  }

  function U16Bytes(n: uint16): (s: seq<byte>)
    ensures |s| == 2
  {
    [ToByte(n / 0x100), ToByte(n)]
  }

  function U16(s: seq<byte>): uint16
    requires |s| == 2
  {
    s[0] as int * 0x100 + s[1] as int
  }

  function U32Bytes(n: uint32): (s: seq<byte>)
    ensures |s| == 4
  {
    U16Bytes(n / 0x1_0000) + U16Bytes(n % 0x1_0000)
  }

  function U32(s: seq<byte>): uint32
    requires |s| == 4
  {
    U16(s[..2]) * 0x1_0000 + U16(s[2..])
  }

  lemma U16RoundTrip(n: uint16)
    ensures U16(U16Bytes(n)) == n
  {
  }

  lemma U32RoundTrip(n: uint32)
    ensures U32(U32Bytes(n)) == n
  {
    U16RoundTrip(n / 0x1_0000);
    U16RoundTrip(n % 0x1_0000);
    assert U32Bytes(n)[..2] == U16Bytes(n / 0x1_0000);
    assert U32Bytes(n)[2..] == U16Bytes(n % 0x1_0000);
  }

  lemma U32BytesInverse(s: seq<byte>)
    requires |s| == 4
    ensures U32Bytes(U32(s)) == s
  {
    assert U32(s) / 0x1_0000 == U16(s[..2]) && U32(s) % 0x1_0000 == U16(s[2..]);
    assert U16Bytes(U16(s[..2])) == s[..2] && U16Bytes(U16(s[2..])) == s[2..];
  }

  // ---- exclusive or ----

  function Pow2(n: nat): (p: nat)
    ensures p > 0
  {
    if n == 0 then 1 else 2 * Pow2(n - 1)
  }

  /** Exclusive or of the low `bits` bits, from the least significant bit up. */
  function XorBits(a: nat, b: nat, bits: nat): (r: nat)
    ensures r < Pow2(bits)
    decreases bits
  {
    if bits == 0 then 0
    else 2 * XorBits(a / 2, b / 2, bits - 1) + (if a % 2 == b % 2 then 0 else 1)
  }

  function Xor(a: byte, b: byte): byte {
    assert Pow2(8) == 256 by { assert Pow2(4) == 16; }
    XorBits(a, b, 8)
  }

  lemma {:induction false} XorBitsAssoc(a: nat, b: nat, c: nat, bits: nat)
    ensures XorBits(XorBits(a, b, bits), c, bits) == XorBits(a, XorBits(b, c, bits), bits)
    decreases bits
  {
    if bits > 0 {
      var l, r := XorBits(a, b, bits), XorBits(b, c, bits);
      assert l / 2 == XorBits(a / 2, b / 2, bits - 1);
      assert r / 2 == XorBits(b / 2, c / 2, bits - 1);
      XorBitsAssoc(a / 2, b / 2, c / 2, bits - 1);
    }
  }

  lemma {:induction false} XorBitsCancel(a: nat, b: nat, bits: nat)
    requires a < Pow2(bits)
    ensures XorBits(XorBits(a, b, bits), b, bits) == a
    decreases bits
  {
    if bits > 0 {
      assert XorBits(a, b, bits) / 2 == XorBits(a / 2, b / 2, bits - 1);
      XorBitsCancel(a / 2, b / 2, bits - 1);
    }
  }

  lemma XorAssoc(a: byte, b: byte, c: byte)
    ensures Xor(Xor(a, b), c) == Xor(a, Xor(b, c))
  {
    XorBitsAssoc(a, b, c, 8);
  }

  /** Applying the same mask twice gives the byte back. */
  lemma XorCancel(a: byte, b: byte)
    ensures Xor(Xor(a, b), b) == a
  {
    assert Pow2(8) == 256 by { assert Pow2(4) == 16; }
    XorBitsCancel(a, b, 8);
  }

  lemma {:induction false} XorBitsZero(a: nat, b: nat, bits: nat)
    requires a < Pow2(bits) && b < Pow2(bits)
    ensures XorBits(a, b, bits) == 0 <==> a == b
    decreases bits
  {
    if bits > 0 {
      XorBitsZero(a / 2, b / 2, bits - 1);
    }
  }

  /** A byte vanishes exactly under a mask equal to itself. */
  lemma XorZero(a: byte, b: byte)
    ensures Xor(a, b) == 0 <==> a == b
  {
    assert Pow2(8) == 256 by { assert Pow2(4) == 16; }
    XorBitsZero(a, b, 8);
  }

  // The machine's operations, named so that a proof can keep bit vectors and numbers apart.

  function XorOf(a: bv8, b: bv8): bv8 {
    a ^ b
  }

  function HalfOf(a: bv8): bv8 {
    a >> 1
  }

  function LowBit(a: bv8): bv8 {
    a & 1
  }

  function ValueOf(a: bv8): nat {
    a as int
  }

  /** The definition above is the machine's exclusive or of two eight-bit values. */
  lemma XorIsMachineXor(a: bv8, b: bv8)
    ensures Xor(a as int, b as int) == (a ^ b) as int
  {
    hide XorBits;
    assert Pow2(8) == 256 by { assert Pow2(4) == 16; }
    MachineXorFrom(a, b, 8);
  }

  lemma {:induction false} MachineXorFrom(a: bv8, b: bv8, bits: nat)
    requires ValueOf(a) < Pow2(bits) && ValueOf(b) < Pow2(bits)
    ensures XorBits(ValueOf(a), ValueOf(b), bits) == ValueOf(XorOf(a, b))
    decreases bits
  {
    hide XorOf, HalfOf, ValueOf;
    if bits > 0 {
      HalfValue(a);
      HalfValue(b);
      XorHalves(a, b);
      MachineXorFrom(HalfOf(a), HalfOf(b), bits - 1);
    } else {
      XorOfZero(a, b);
    }
  }

  lemma XorOfZero(a: bv8, b: bv8)
    ensures ValueOf(a) == 0 && ValueOf(b) == 0 ==> ValueOf(XorOf(a, b)) == 0
  {
  }

  /** On bit vectors alone: halves and low bits of an exclusive or. */
  lemma XorSplits(a: bv8, b: bv8)
    ensures HalfOf(XorOf(a, b)) == XorOf(HalfOf(a), HalfOf(b))
    ensures LowBit(XorOf(a, b)) == if LowBit(a) == LowBit(b) then 0 else 1
  {
  }

  /** From bit vectors to numbers, for one value. */
  lemma HalfValue(a: bv8)
    ensures ValueOf(HalfOf(a)) == ValueOf(a) / 2
  {
  }

  lemma LowBitValue(a: bv8)
    ensures LowBit(a) == if ValueOf(a) % 2 == 0 then 0 else 1
  {
  }

  lemma XorHalves(a: bv8, b: bv8)
    ensures ValueOf(XorOf(a, b))
         == 2 * ValueOf(XorOf(HalfOf(a), HalfOf(b))) + (if ValueOf(a) % 2 == ValueOf(b) % 2 then 0 else 1)
  {
    hide XorOf, HalfOf, LowBit, ValueOf;
    XorSplits(a, b);
    HalfValue(XorOf(a, b));
    LowBitValue(a);
    LowBitValue(b);
    LowBitValue(XorOf(a, b));
  }

  // ---- searching ----

  /** `std::find`: the first position that holds `x`, or the end. */
  function FindByte(s: seq<byte>, x: byte): (i: nat)
    ensures i <= |s|
    ensures x !in s[..i]
    ensures i < |s| ==> s[i] == x
  {
    if s == [] || s[0] == x then 0
    else
      var i := FindByte(s[1..], x);
      assert s[..i + 1] == [s[0]] + s[1..][..i];
      i + 1
  }

  lemma {:induction false} FindByteIs(s: seq<byte>, x: byte, i: nat)
    requires i < |s| && s[i] == x && x !in s[..i]
    ensures FindByte(s, x) == i
  {
    if i > 0 {
      assert s[0] == s[..i][0];
      assert s[1..][..i - 1] == s[..i][1..];
      FindByteIs(s[1..], x, i - 1);
    }
  }

  lemma FindByteNone(s: seq<byte>, x: byte)
    requires x !in s
    ensures FindByte(s, x) == |s|
  {
    assert forall k :: 0 <= k < |s| ==> s[k] in s;
  }

  /** Text without `x`, followed by `x`: the search stops exactly at that `x`. */
  lemma FindByteAfter(text: seq<byte>, x: byte, rest: seq<byte>)
    requires x !in text
    ensures FindByte(text + [x] + rest, x) == |text|
  {
    var s := text + [x] + rest;
    assert s[..|text|] == text;
    FindByteIs(s, x, |text|);
  }

  /** The bytes of a literal written in the source as an ASCII string. */
  function Ascii(s: string): (t: Text)
    ensures |t| == |s|
    ensures forall i :: 0 <= i < |s| ==> t[i] == ToByte(s[i] as int)
  {
    seq(|s|, i requires 0 <= i < |s| => ToByte(s[i] as int))
  }
}

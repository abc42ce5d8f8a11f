/** The MD5 digest: the buffer-filling code, and the algorithm as sections 3.1 to 3.5 of RFC 1321 give it. */
module Md5 {

  type Octet = bv8
  type Word = bv32

  // ---- sections 3.1 and 3.2: padding ----

  function Zeros(n: nat): seq<Octet> {
    seq(n, _ => 0)
  }

  /** The length of a message in bits, modulo 2^64. */
  function BitLength(octets: nat): bv64 {
    (octets * 8 % 0x1_0000_0000_0000_0000) as bv64
  }

  /** A 64-bit number, least significant octet first. */
  function LengthOctets(bits: bv64): (s: seq<Octet>)
    ensures |s| == 8
  {
    [(bits & 0xFF) as bv8, ((bits >> 8) & 0xFF) as bv8, ((bits >> 16) & 0xFF) as bv8, ((bits >> 24) & 0xFF) as bv8,
     ((bits >> 32) & 0xFF) as bv8, ((bits >> 40) & 0xFF) as bv8,
     ((bits >> 48) & 0xFF) as bv8, ((bits >> 56) & 0xFF) as bv8]
  }

  /** One bit, zeros up to 56 octets modulo 64, and the length, for a message of `n` octets. */
  function Padding(n: nat): (p: seq<Octet>)
    ensures (n + |p|) % 64 == 0 && 9 <= |p| <= 72
  {
    [0x80] + Zeros((55 - n) % 64) + LengthOctets(BitLength(n))
  }

  // ---- section 3.4: sixteen-word blocks ----

  function WordOf(b0: Octet, b1: Octet, b2: Octet, b3: Octet): Word {
    (b0 as bv32) | ((b1 as bv32) << 8) | ((b2 as bv32) << 16) | ((b3 as bv32) << 24)
  }

  function WordAt(s: seq<Octet>, i: nat): Word
    requires 4 * i + 4 <= |s|
  {
    WordOf(s[4 * i], s[4 * i + 1], s[4 * i + 2], s[4 * i + 3])
  }

  type Block = s: seq<Word> | |s| == 16 witness seq(16, _ => 0)

  function Words(s: seq<Octet>): Block
    requires |s| == 64
  {
    seq(16, i requires 0 <= i < 16 => WordAt(s, i))
  }

  datatype Registers = Registers(a: Word, b: Word, c: Word, d: Word)

  const T1: seq<Word> := [
    0xd76aa478, 0xe8c7b756, 0x242070db, 0xc1bdceee, 0xf57c0faf, 0x4787c62a, 0xa8304613, 0xfd469501,
    0x698098d8, 0x8b44f7af, 0xffff5bb1, 0x895cd7be, 0x6b901122, 0xfd987193, 0xa679438e, 0x49b40821]

  const T2: seq<Word> := [
    0xf61e2562, 0xc040b340, 0x265e5a51, 0xe9b6c7aa, 0xd62f105d, 0x02441453, 0xd8a1e681, 0xe7d3fbc8,
    0x21e1cde6, 0xc33707d6, 0xf4d50d87, 0x455a14ed, 0xa9e3e905, 0xfcefa3f8, 0x676f02d9, 0x8d2a4c8a]

  const T3: seq<Word> := [
    0xfffa3942, 0x8771f681, 0x6d9d6122, 0xfde5380c, 0xa4beea44, 0x4bdecfa9, 0xf6bb4b60, 0xbebfbc70,
    0x289b7ec6, 0xeaa127fa, 0xd4ef3085, 0x04881d05, 0xd9d4d039, 0xe6db99e5, 0x1fa27cf8, 0xc4ac5665]

  const T4: seq<Word> := [
    0xf4292244, 0x432aff97, 0xab9423a7, 0xfc93a039, 0x655b59c3, 0x8f0ccc92, 0xffeff47d, 0x85845dd1,
    0x6fa87e4f, 0xfe2ce6e0, 0xa3014314, 0x4e0811a1, 0xf7537e82, 0xbd3af235, 0x2ad7d2bb, 0xeb86d391]

  /** The 64 constants of section 3.4, round by round. */
  const T: seq<Word> := T1 + T2 + T3 + T4

  function Start(round: nat): nat {
    if round == 0 then 0 else if round == 1 then 1 else if round == 2 then 5 else 0
  }

  function Stride(round: nat): nat {
    if round == 0 then 1 else if round == 1 then 5 else if round == 2 then 3 else 7
  }

  /** The word operation `j` of a round reads: it starts at the round's own word and advances by its stride. */
  function K(round: nat, j: nat): (k: nat)
    ensures k < 16
  {
    if j == 0 then Start(round) else (K(round, j - 1) + Stride(round)) % 16
  }

  /** The four rotations each round cycles through. */
  function S(round: nat, j: nat): (s: nat)
    ensures 0 < s < 32
  {
    var p := j % 4;
    if round == 0 then (if p == 0 then 7 else if p == 1 then 12 else if p == 2 then 17 else 22)
    else if round == 1 then (if p == 0 then 5 else if p == 1 then 9 else if p == 2 then 14 else 20)
    else if round == 2 then (if p == 0 then 4 else if p == 1 then 11 else if p == 2 then 16 else 23)
    else (if p == 0 then 6 else if p == 1 then 10 else if p == 2 then 15 else 21)
  }

  function F(x: Word, y: Word, z: Word): Word { (x & y) | (!x & z) }
  function G(x: Word, y: Word, z: Word): Word { (x & z) | (y & !z) }
  function H(x: Word, y: Word, z: Word): Word { x ^ y ^ z }
  function I(x: Word, y: Word, z: Word): Word { y ^ (x | !z) }

  function Auxiliary(i: nat, x: Word, y: Word, z: Word): Word {
    if i < 16 then F(x, y, z) else if i < 32 then G(x, y, z) else if i < 48 then H(x, y, z) else I(x, y, z)
  }

  /** Addition modulo 2^32. */
  function Add(x: Word, y: Word): Word {
    x + y
  }

  /** `b + ((a + f + t + x) <<< s)`. */
  function Turned(b: Word, a: Word, f: Word, t: Word, x: Word, s: nat): Word
    requires 0 < s < 32
  {
    var n := a + f + t + x;
    b + ((n << s) | (n >> (32 - s)))
  }

  // ---- section 3.4: one operation, one block, one message ----

  /** The operation [abcd k s i] with the registers in the order given. */
  function Operation(i: nat, x: Block, a: Word, b: Word, c: Word, d: Word): Word
    requires i < 64
  {
    Turned(b, a, Auxiliary(i, b, c, d), T[i], x[K(i / 16, i % 16)], S(i / 16, i % 16))
  }

  /** The operations take ABCD, DABC, CDAB and BCDA in turn. */
  function Operate(i: nat, x: Block, r: Registers): Registers
    requires i < 64
  {
    if i % 4 == 0 then r.(a := Operation(i, x, r.a, r.b, r.c, r.d))
    else if i % 4 == 1 then r.(d := Operation(i, x, r.d, r.a, r.b, r.c))
    else if i % 4 == 2 then r.(c := Operation(i, x, r.c, r.d, r.a, r.b))
    else r.(b := Operation(i, x, r.b, r.c, r.d, r.a))
  }

  function Operations(count: nat, x: Block, r: Registers): Registers
    requires count <= 64
  {
    if count == 0 then r else Operate(count - 1, x, Operations(count - 1, x, r))
  }

  function Sum(r: Registers, s: Registers): Registers {
    Registers(Add(r.a, s.a), Add(r.b, s.b), Add(r.c, s.c), Add(r.d, s.d))
  }

  function Compress(r: Registers, x: Block): Registers {
    Sum(r, Operations(64, x, r))
  }

  /** All whole blocks of a padded message, in order. */
  function Blocks(r: Registers, padded: seq<Octet>): Registers
    decreases |padded|
  {
    if |padded| < 64 then r else Blocks(Compress(r, Words(padded[..64])), padded[64..])
  }

  function Digested(r: Registers, message: seq<Octet>): Registers {
    Blocks(r, message + Padding(|message|))
  }

  const INITIAL := Registers(0x67452301, 0xefcdab89, 0x98badcfe, 0x10325476)

  // ---- the code computes the same operations ----

  lemma ModuloSum(x: nat, y: nat)
    ensures (x % 16 + y) % 16 == (x + y) % 16
  {
    var q := x / 16;
    assert x + y == x % 16 + y + 16 * q;
  }

  lemma {:induction false} WordIndexInRound(round: nat, j: nat)
    requires round < 4
    ensures K(round, j)
         == if round == 0 then j % 16 else if round == 1 then (5 * j + 1) % 16
            else if round == 2 then (3 * j + 5) % 16 else 7 * j % 16
  {
    if j > 0 {
      WordIndexInRound(round, j - 1);
      ModuloSum(if round == 0 then j - 1 else if round == 1 then 5 * (j - 1) + 1
                else if round == 2 then 3 * (j - 1) + 5 else 7 * (j - 1), Stride(round));
    }
  }

  /** The closed forms the code uses for the word index. */
  lemma WordIndex(i: nat)
    requires i < 64
    ensures K(i / 16, i % 16)
         == if i < 16 then i else if i < 32 then (5 * i + 1) % 16 else if i < 48 then (3 * i + 5) % 16 else 7 * i % 16
  {
    hide K;
    var j := i % 16;
    WordIndexInRound(i / 16, j);
    if i < 16 {
    } else if i < 32 {
      assert i / 16 == 1 && j == i - 16;
      ModuloShift(5 * j + 1, 5);
    } else if i < 48 {
      assert i / 16 == 2 && j == i - 32;
      ModuloShift(3 * j + 5, 6);
    } else {
      assert i / 16 == 3 && j == i - 48;
      ModuloShift(7 * j, 21);
    }
  }

  lemma ModuloShift(x: nat, q: nat)
    ensures (x + 16 * q) % 16 == x % 16
  {
  }

  /** How the four shifting variables of the code stand for the four registers after `i` operations. */
  function Shifted(i: nat, r: Registers): (Word, Word, Word, Word) {
    if i % 4 == 0 then (r.a, r.b, r.c, r.d)
    else if i % 4 == 1 then (r.d, r.a, r.b, r.c)
    else if i % 4 == 2 then (r.c, r.d, r.a, r.b)
    else (r.b, r.c, r.d, r.a)
  }

  lemma ShiftedStep(i: nat, x: Block, r: Registers)
    requires i < 64
    ensures var (a, b, c, d) := Shifted(i, r);
            Shifted(i + 1, Operate(i, x, r)) == (d, Operation(i, x, a, b, c, d), b, c)
  {
    hide Operation;
    var m := i % 4;
    assert (i + 1) % 4 == if m == 3 then 0 else m + 1;
    if m == 0 {
    } else if m == 1 {
    } else if m == 2 {
    } else {
    }
  }

  /** The four expressions of the loop in `hash_chunk`. */
  function Mix(i: nat, b: Word, c: Word, d: Word): Word {
    if i < 16 then (b & c) | (!b & d)
    else if i < 32 then (d & b) | (!d & c)
    else if i < 48 then b ^ c ^ d
    else c ^ (b | !d)
  }

  lemma GForm(b: Word, c: Word, d: Word)
    ensures (d & b) | (!d & c) == G(b, c, d)
  {
    assert d & b == b & d;
    assert !d & c == c & !d;
  }

  lemma MixIsAuxiliary(i: nat, b: Word, c: Word, d: Word)
    ensures Mix(i, b, c, d) == Auxiliary(i, b, c, d)
  {
    if 16 <= i < 32 {
      GForm(b, c, d);
    }
  }

  lemma LowWord(bits: bv64)
    ensures var s := LengthOctets(bits); WordOf(s[0], s[1], s[2], s[3]) == (bits & 0xFFFF_FFFF) as bv32
  {
  }

  lemma HighWord(bits: bv64)
    ensures var s := LengthOctets(bits); WordOf(s[4], s[5], s[6], s[7]) == ((bits >> 32) & 0xFFFF_FFFF) as bv32
  {
  }

  lemma OctetsOfWord(b0: Octet, b1: Octet, b2: Octet, b3: Octet)
    ensures WordOf(b0, b1, b2, b3) == (b0 as bv32) | ((b1 as bv32) << 8) | ((b2 as bv32) << 16) | ((b3 as bv32) << 24)
  {
  }

  // The one bit behind one, two or three octets.

  function OneOctet(b0: Octet): Word {
    (b0 as bv32) | 0x0000_8000
  }

  function TwoOctets(b0: Octet, b1: Octet): Word {
    (b0 as bv32) | ((b1 as bv32) << 8) | 0x0080_0000
  }

  function ThreeOctets(b0: Octet, b1: Octet, b2: Octet): Word {
    (b0 as bv32) | ((b1 as bv32) << 8) | ((b2 as bv32) << 16) | 0x8000_0000
  }

  lemma TailWords(b0: Octet, b1: Octet, b2: Octet)
    ensures WordOf(0x80, 0, 0, 0) == 0x0000_0080
    ensures WordOf(b0, 0x80, 0, 0) == OneOctet(b0)
    ensures WordOf(b0, b1, 0x80, 0) == TwoOctets(b0, b1)
    ensures WordOf(b0, b1, b2, 0x80) == ThreeOctets(b0, b1, b2)
    ensures WordOf(0, 0, 0, 0) == 0
  {
  }

  /** The four octets are the last ones of a message, the one bit, and zeros. */
  predicate IsTail(b0: Octet, b1: Octet, b2: Octet, b3: Octet, last: seq<Octet>)
    requires |last| < 4
  {
    match |last|
    case 0 => b0 == 0x80 && b1 == 0 && b2 == 0 && b3 == 0
    case 1 => b0 == last[0] && b1 == 0x80 && b2 == 0 && b3 == 0
    case 2 => b0 == last[0] && b1 == last[1] && b2 == 0x80 && b3 == 0
    case _ => b0 == last[0] && b1 == last[1] && b2 == last[2] && b3 == 0x80
  }

  function TailWord(last: seq<Octet>): Word
    requires |last| < 4
  {
    match |last|
    case 0 => 0x0000_0080
    case 1 => OneOctet(last[0])
    case 2 => TwoOctets(last[0], last[1])
    case _ => ThreeOctets(last[0], last[1], last[2])
  }

  /** The word that holds them, by how many octets are left. */
  lemma TailIsWord(b0: Octet, b1: Octet, b2: Octet, b3: Octet, last: seq<Octet>)
    requires |last| < 4 && IsTail(b0, b1, b2, b3, last)
    ensures WordOf(b0, b1, b2, b3) == TailWord(last)
  {
    hide WordOf, OneOctet, TwoOctets, ThreeOctets;
    if |last| == 0 {
      TailWords(0, 0, 0);
    } else if |last| == 1 {
      TailWords(last[0], 0, 0);
    } else if |last| == 2 {
      TailWords(last[0], last[1], 0);
    } else {
      TailWords(last[0], last[1], last[2]);
    }
  }

  lemma TailOctets(message: seq<Octet>, first: nat, chunkLength: nat, block: seq<Octet>)
    requires |block| == 64 && chunkLength < 64 && first + chunkLength % 4 == |message|
    requires block[4 * (chunkLength / 4)..chunkLength] == message[first..]
    requires block[chunkLength] == 0x80
    requires forall k :: chunkLength < k < 4 * (chunkLength / 4) + 4 ==> block[k] == 0
    ensures var b := 4 * (chunkLength / 4);
      IsTail(block[b], block[b + 1], block[b + 2], block[b + 3], message[first..])
  {
    var b, last := 4 * (chunkLength / 4), message[first..];
    assert chunkLength == b + |last|;
    assert forall k :: 0 <= k < |last| ==> last[k] == block[b..chunkLength][k] == block[b + k];
    assert |last| > 0 ==> last[0] == block[b];
    assert |last| > 1 ==> last[1] == block[b + 1];
    assert |last| > 2 ==> last[2] == block[b + 2];
  }

  // ---- the digest object ----

  class Digest {
    var a0: Word
    var b0: Word
    var c0: Word
    var d0: Word
    const mArray: array<Word>
    var mArrayFirst: nat

    ghost predicate Valid()
      reads this
    {
      mArray.Length == 16 && mArrayFirst <= 16
    }

    ghost function Value(): Registers
      reads this
    {
      Registers(a0, b0, c0, d0)
    }

    /** The words written so far are those of the block being assembled. */
    ghost predicate Holds(block: seq<Octet>)
      reads this, mArray
      requires Valid()
    {
      && |block| == 64
      && forall k :: 0 <= k < mArrayFirst ==> mArray[k] == WordAt(block, k)
    }

    constructor ()
      ensures Valid() && fresh(mArray) && Value() == INITIAL
    {
      a0, b0, c0, d0 := 0x67452301, 0xefcdab89, 0x98badcfe, 0x10325476;
      mArray := new Word[16];
      mArrayFirst := 0;
    }

    method ResetMArray()
      requires Valid()
      modifies this`mArrayFirst
      ensures Valid() && mArrayFirst == 0
    {
      mArrayFirst := 0;
    }

    method BytesToMArray(message: seq<Octet>, first: nat, mArrayLast: nat, ghost block: seq<Octet>) returns (next: nat)
      requires Valid() && mArrayFirst == 0 && mArrayLast <= 16 && Holds(block)
      requires first + 4 * mArrayLast <= |message| && block[..4 * mArrayLast] == message[first..first + 4 * mArrayLast]
      modifies this`mArrayFirst, mArray
      ensures Valid() && Holds(block) && mArrayFirst == mArrayLast && next == first + 4 * mArrayLast
    {
      hide WordOf;
      next := first;
      while mArrayFirst != mArrayLast
        invariant mArrayFirst <= mArrayLast && next == first + 4 * mArrayFirst && Holds(block)
        decreases mArrayLast - mArrayFirst
      {
        ghost var at, taken := 4 * mArrayFirst, message[first..first + 4 * mArrayLast];
        assert block[at] == taken[at] && block[at + 1] == taken[at + 1];
        assert block[at + 2] == taken[at + 2] && block[at + 3] == taken[at + 3];
        OctetsOfWord(message[next], message[next + 1], message[next + 2], message[next + 3]);
        var word := message[next] as bv32;
        next := next + 1;
        word := word | (message[next] as bv32 << 8);
        next := next + 1;
        word := word | (message[next] as bv32 << 16);
        next := next + 1;
        word := word | (message[next] as bv32 << 24);
        next := next + 1;
        mArray[mArrayFirst] := word;
        mArrayFirst := mArrayFirst + 1;
      }
    }

    /** Puts the one bit behind the last octets of the message: four cases. */
    method TrueBitToMArray(message: seq<Octet>, first: nat, chunkLength: nat, ghost block: seq<Octet>)
      requires Valid() && chunkLength < 64 && mArrayFirst == chunkLength / 4 && Holds(block)
      requires first + chunkLength % 4 == |message|
      requires block[4 * (chunkLength / 4)..chunkLength] == message[first..]
      requires block[chunkLength] == 0x80
      requires forall k :: chunkLength < k < 4 * (chunkLength / 4) + 4 ==> block[k] == 0
      modifies this`mArrayFirst, mArray
      ensures Valid() && Holds(block) && mArrayFirst == old(mArrayFirst) + 1
    {
      hide WordOf, OneOctet, TwoOctets, ThreeOctets, TailWord;
      ghost var b, last := 4 * mArrayFirst, message[first..];
      TailOctets(message, first, chunkLength, block);
      TailIsWord(block[b], block[b + 1], block[b + 2], block[b + 3], last);
      var word := LastWord(message, first);
      mArray[mArrayFirst] := word;
      mArrayFirst := mArrayFirst + 1;
    }

    static method LastWord(message: seq<Octet>, first: nat) returns (word: Word)
      requires first <= |message| < first + 4
      ensures word == TailWord(message[first..])
    {
      match |message| - first {
        case 0 =>
          word := 0x0000_0080;
        case 1 =>
          word := message[first] as bv32;
          word := word | 0x0000_8000;
        case 2 =>
          word := message[first] as bv32;
          word := word | (message[first + 1] as bv32 << 8);
          word := word | 0x0080_0000;
        case _ =>
          word := message[first] as bv32;
          word := word | (message[first + 1] as bv32 << 8);
          word := word | (message[first + 2] as bv32 << 16);
          word := word | 0x8000_0000;
      }
    }

    method ZerosToMArray(mArrayLast: nat, ghost block: seq<Octet>)
      requires Valid() && mArrayFirst <= mArrayLast <= 16 && Holds(block)
      requires forall k :: 4 * mArrayFirst <= k < 4 * mArrayLast ==> block[k] == 0
      modifies this`mArrayFirst, mArray
      ensures Valid() && Holds(block) && mArrayFirst == mArrayLast
    {
      TailWords(0, 0, 0);
      hide WordOf;
      while mArrayFirst != mArrayLast
        invariant old(mArrayFirst) <= mArrayFirst <= mArrayLast && Holds(block)
        decreases mArrayLast - mArrayFirst
      {
        assert WordAt(block, mArrayFirst) == WordOf(0, 0, 0, 0);
        mArray[mArrayFirst] := 0;
        mArrayFirst := mArrayFirst + 1;
      }
    }

    method OriginalLengthBitsToMArray(bits: bv64, ghost block: seq<Octet>)
      requires Valid() && mArrayFirst == 14 && Holds(block)
      requires block[56..] == LengthOctets(bits)
      modifies this`mArrayFirst, mArray
      ensures Valid() && Holds(block) && mArrayFirst == 16
    {
      LowWord(bits);
      HighWord(bits);
      hide WordOf;
      assert forall k :: 0 <= k < 8 ==> block[56 + k] == block[56..][k];
      mArray[mArrayFirst] := (bits & 0xFFFF_FFFF) as bv32;
      mArrayFirst := mArrayFirst + 1;
      mArray[mArrayFirst] := ((bits >> 32) & 0xFFFF_FFFF) as bv32;
      mArrayFirst := mArrayFirst + 1;
    }

    method HashChunk()
      requires Valid()
      modifies this`a0, this`b0, this`c0, this`d0
      ensures Valid() && Value() == Compress(old(Value()), mArray[..])
    {
      hide Operate, Shifted, Add;
      var a, b, c, d := a0, b0, c0, d0;
      ghost var start, x := Value(), mArray[..];
      ShiftedEnds(start);
      for i := 0 to 64
        invariant Value() == start
        invariant (a, b, c, d) == Shifted(i, Operations(i, x, start))
      {
        a, b, c, d := Round(i, a, b, c, d, x, Operations(i, x, start));
      }
      ShiftedEnds(Operations(64, x, start));
      a0 := Add(a0, a);
      b0 := Add(b0, b);
      c0 := Add(c0, c);
      d0 := Add(d0, d);
    }

    /** One pass of the loop in `hash_chunk`. */
    method Round(i: nat, a: Word, b: Word, c: Word, d: Word, ghost x: Block, ghost r: Registers)
      returns (a': Word, b': Word, c': Word, d': Word)
      requires Valid() && i < 64 && x == mArray[..] && (a, b, c, d) == Shifted(i, r)
      ensures (a', b', c', d') == Shifted(i + 1, Operate(i, x, r))
    {
      hide Operate, Shifted, K, S, Turned, Auxiliary, Mix;
      ShiftedStep(i, x, r);
      MixIsAuxiliary(i, b, c, d);
      var f := Mix(i, b, c, d);
      var g :=
        if i < 16 then i
        else if i < 32 then (5 * i + 1) % 16
        else if i < 48 then (3 * i + 5) % 16
        else 7 * i % 16;
      WordIndex(i);
      b' := Turned(b, a, f, T[i], mArray[g], S(i / 16, i % 16));
      a', c', d' := d, b, c;
    }

    /** Digests one message: whole chunks, then the tail with its padding in one or two blocks. */
    method Update(message: seq<Octet>)
      requires Valid()
      modifies this`a0, this`b0, this`c0, this`d0, this`mArrayFirst, mArray
      ensures Valid() && Value() == Digested(old(Value()), message)
    {
      hide Blocks, Compress, Padding, Words, WordAt, BitLength, LengthOctets;
      var bits := BitLength(|message|);
      ghost var padding := Padding(|message|);
      var first := 0;
      assert message[0..] == message;
      while |message| - first >= 64
        invariant Valid() && first <= |message| && first % 64 == 0
        invariant Blocks(Value(), message[first..] + padding) == Digested(old(Value()), message)
        decreases |message| - first
      {
        ghost var chunk := message[first..first + 64];
        BlocksStep(Value(), chunk, message[first + 64..] + padding);
        assert message[first..] + padding == chunk + (message[first + 64..] + padding);
        ResetMArray();
        assert chunk[..64] == chunk;
        first := BytesToMArray(message, first, 16, chunk);
        HeldBlock(chunk);
        HashChunk();
      }
      Finish(message, first, bits);
    }

    method Finish(message: seq<Octet>, first: nat, bits: bv64)
      requires Valid() && first <= |message| && first % 64 == 0 && |message| - first < 64
      requires bits == BitLength(|message|)
      modifies this`a0, this`b0, this`c0, this`d0, this`mArrayFirst, mArray
      ensures Valid() && Value() == Blocks(old(Value()), message[first..] + Padding(|message|))
    {
      hide Blocks, Compress, Words, WordAt, BitLength, LengthOctets;
      var chunkLength := |message| - first;
      ghost var tail := message[first..];
      ghost var length := LengthOctets(bits);
      TailLength(|message|, first);
      ResetMArray();
      if chunkLength >= 56 {
        ghost var one := tail + [0x80] + Zeros(63 - chunkLength);
        ghost var two := Zeros(56) + length;
        assert tail + Padding(|message|) == one + two;
        BlocksStep(Value(), one, two);
        FillTail(message, first, one);
        ZerosToMArray(16, one);
        HeldBlock(one);
        HashChunk();
        ResetMArray();
        BlocksOne(Value(), two);
        ZerosToMArray(14, two);
        assert two[56..] == length;
        OriginalLengthBitsToMArray(bits, two);
        HeldBlock(two);
        HashChunk();
      } else {
        ghost var block := tail + [0x80] + Zeros(55 - chunkLength) + length;
        assert tail + Padding(|message|) == block;
        BlocksOne(Value(), block);
        FillTail(message, first, block);
        ZerosToMArray(14, block);
        assert block[56..] == length;
        OriginalLengthBitsToMArray(bits, block);
        HeldBlock(block);
        HashChunk();
      }
    }

    /** The last octets of the message and the one bit behind them. */
    method FillTail(message: seq<Octet>, first: nat, ghost block: seq<Octet>)
      requires Valid() && mArrayFirst == 0 && first <= |message| && |message| - first < 64
      requires |block| == 64 && block[..|message| - first] == message[first..]
      requires block[|message| - first] == 0x80
      requires forall k :: |message| - first < k < |message| - first + 4 && k < 56 ==> block[k] == 0
      requires forall k :: |message| - first < k < 64 && |message| - first >= 56 ==> block[k] == 0
      modifies this`mArrayFirst, mArray
      ensures Valid() && Holds(block) && mArrayFirst == (|message| - first) / 4 + 1
    {
      hide WordAt;
      var chunkLength := |message| - first;
      var words := chunkLength / 4;
      assert block[..4 * words] == block[..chunkLength][..4 * words] == message[first..][..4 * words];
      var next := BytesToMArray(message, first, words, block);
      assert block[4 * words..chunkLength] == block[..chunkLength][4 * words..] == message[first..][4 * words..];
      TrueBitToMArray(message, next, chunkLength, block);
    }

    /** The 16 octets of the digest, four per register, least significant first. */
    method ToBytes() returns (out: seq<Octet>)
      requires Valid()
      ensures out == DigestOctets(Value())
    {
      out := UInt32ToByte(a0, []);
      out := UInt32ToByte(b0, out);
      out := UInt32ToByte(c0, out);
      out := UInt32ToByte(d0, out);
    }

    method ToHex() returns (out: string)
      requires Valid()
      ensures out == HexText(DigestOctets(Value()))
    {
      hide HexWord;
      out := UInt32ToHex(a0, []);
      out := UInt32ToHex(b0, out);
      out := UInt32ToHex(c0, out);
      out := UInt32ToHex(d0, out);
      HexOfDigest(a0, b0, c0, d0);
    }

    /** A completely filled array holds the words of the block. */
    lemma HeldBlock(block: seq<Octet>)
      requires Valid() && mArrayFirst == 16 && |block| == 64 && Holds(block)
      ensures mArray[..] == Words(block)
    {
      hide WordAt;
    }
  }

  lemma TailLength(n: nat, first: nat)
    requires first <= n && first % 64 == 0 && n - first < 64
    ensures (55 - n) % 64 == if n - first < 56 then 55 - (n - first) else 119 - (n - first)
  {
    var q := first / 64;
    assert 55 - n == 55 - (n - first) - 64 * q;
  }

  lemma ShiftedEnds(r: Registers)
    ensures Shifted(0, r) == Shifted(64, r) == (r.a, r.b, r.c, r.d)
  {
  }

  // ---- printing the digest ----

  /** Octet `k` of a word, least significant first. */
  function WordOctets(n: Word): (s: seq<Octet>)
    ensures |s| == 4
  {
    [(n & 0xff) as bv8, ((n >> 8) & 0xff) as bv8, ((n >> 16) & 0xff) as bv8, ((n >> 24) & 0xff) as bv8]
  }

  function DigestOctets(r: Registers): (s: seq<Octet>)
    ensures |s| == 16
  {
    WordOctets(r.a) + WordOctets(r.b) + WordOctets(r.c) + WordOctets(r.d)
  }

  const HEX_CHARS := "0123456789abcdef"

  function HexChar(nibble: Octet): char
    requires nibble < 16
  {
    HEX_CHARS[nibble as int]
  }

  /** Two digits per octet, the high one first. */
  function HexText(octets: seq<Octet>): (text: string)
    ensures |text| == 2 * |octets|
  {
    if octets == [] then []
    else [HexChar(octets[0] >> 4), HexChar(octets[0] & 0xf)] + HexText(octets[1..])
  }

  /** The digit of the nibble that starts at bit `j`. */
  function NibbleChar(n: Word, j: nat): char
    requires j < 32
  {
    HexChar(((n >> j) & 0xf) as bv8)
  }

  /** `i ^ 4` for a multiple of four. */
  function Flip(i: nat): (j: nat)
    requires i % 4 == 0 && i < 32
    ensures j < 32
  {
    if i / 4 % 2 == 0 then i + 4 else i - 4
  }

  function HexWord(n: Word): (text: string)
    ensures |text| == 8
  {
    [NibbleChar(n, 4), NibbleChar(n, 0), NibbleChar(n, 12), NibbleChar(n, 8),
     NibbleChar(n, 20), NibbleChar(n, 16), NibbleChar(n, 28), NibbleChar(n, 24)]
  }

  lemma HexWordIsHexText(n: Word)
    ensures HexText(WordOctets(n)) == HexWord(n)
  {
    hide NibbleChar, HexText, HexChar, WordOctets;
    LowNibbles(n);
    HighNibbles(n);
    var s := WordOctets(n);
    HexTextFour(s[0], s[1], s[2], s[3]);
    assert s == [s[0], s[1], s[2], s[3]];
  }

  lemma HexTextFour(p: Octet, q: Octet, r: Octet, s: Octet)
    ensures HexText([p, q, r, s]) == [HexChar(p >> 4), HexChar(p & 0xf), HexChar(q >> 4), HexChar(q & 0xf),
                                      HexChar(r >> 4), HexChar(r & 0xf), HexChar(s >> 4), HexChar(s & 0xf)]
  {
    hide HexChar, HexText;
    HexTextOne(p);
    HexTextOne(q);
    HexTextOne(r);
    HexTextOne(s);
    HexTextConcat([p], [q]);
    HexTextConcat([r], [s]);
    HexTextConcat([p] + [q], [r] + [s]);
    assert [p, q, r, s] == ([p] + [q]) + ([r] + [s]);
  }

  lemma HexTextOne(o: Octet)
    ensures HexText([o]) == [HexChar(o >> 4), HexChar(o & 0xf)]
  {
  }

  lemma LowNibbles(n: Word)
    ensures var s := WordOctets(n);
      && HexChar(s[0] >> 4) == NibbleChar(n, 4) && HexChar(s[0] & 0xf) == NibbleChar(n, 0)
      && HexChar(s[1] >> 4) == NibbleChar(n, 12) && HexChar(s[1] & 0xf) == NibbleChar(n, 8)
  {
    hide HexChar;
  }

  lemma HighNibbles(n: Word)
    ensures var s := WordOctets(n);
      && HexChar(s[2] >> 4) == NibbleChar(n, 20) && HexChar(s[2] & 0xf) == NibbleChar(n, 16)
      && HexChar(s[3] >> 4) == NibbleChar(n, 28) && HexChar(s[3] & 0xf) == NibbleChar(n, 24)
  {
    hide HexChar;
  }

  lemma {:induction false} HexTextConcat(s: seq<Octet>, t: seq<Octet>)
    ensures HexText(s + t) == HexText(s) + HexText(t)
  {
    hide HexChar;
    if s == [] {
      assert s + t == t;
    } else {
      assert (s + t)[1..] == s[1..] + t;
      HexTextConcat(s[1..], t);
    }
  }

  lemma HexOfDigest(a: Word, b: Word, c: Word, d: Word)
    ensures HexText(DigestOctets(Registers(a, b, c, d))) == [] + HexWord(a) + HexWord(b) + HexWord(c) + HexWord(d)
  {
    hide HexText, HexWord, WordOctets;
    HexWordIsHexText(a);
    HexWordIsHexText(b);
    HexWordIsHexText(c);
    HexWordIsHexText(d);
    HexTextConcat(WordOctets(a), WordOctets(b));
    HexTextConcat(WordOctets(a) + WordOctets(b), WordOctets(c));
    HexTextConcat(WordOctets(a) + WordOctets(b) + WordOctets(c), WordOctets(d));
  }

  method UInt32ToByte(n: Word, start: seq<Octet>) returns (out: seq<Octet>)
    ensures out == start + WordOctets(n)
  {
    out := start + [(n & 0xff) as bv8];
    out := out + [((n >> 8) & 0xff) as bv8];
    out := out + [((n >> 16) & 0xff) as bv8];
    out := out + [((n >> 24) & 0xff) as bv8];
  }

  /** Nibbles low octet first, but the high nibble of each octet before its low one. */
  method UInt32ToHex(n: Word, start: string) returns (out: string)
    ensures out == start + HexWord(n)
  {
    hide NibbleChar, HexWord;
    out := start;
    var i := 0;
    while i < 32
      invariant i <= 32 && i % 4 == 0
      invariant out == start + HexWord(n)[..i / 4]
    {
      HexDigitAtIs(n, i / 4);
      out := out + [NibbleChar(n, Flip(i))];
      i := i + 4;
    }
    assert HexWord(n)[..8] == HexWord(n);
  }

  lemma HexDigitAtIs(n: Word, k: nat)
    requires k < 8
    ensures NibbleChar(n, Flip(4 * k)) == HexWord(n)[k]
  {
    hide NibbleChar;
    if k < 4 {
      assert k == 0 || k == 1 || k == 2 || k == 3;
    } else {
      assert k == 4 || k == 5 || k == 6 || k == 7;
    }
  }

  // ---- a whole message ----

  lemma BlocksStep(r: Registers, chunk: seq<Octet>, rest: seq<Octet>)
    requires |chunk| == 64
    ensures Blocks(r, chunk + rest) == Blocks(Compress(r, Words(chunk)), rest)
  {
    hide Compress, Words;
    assert (chunk + rest)[..64] == chunk && (chunk + rest)[64..] == rest;
  }

  lemma BlocksOne(r: Registers, chunk: seq<Octet>)
    requires |chunk| == 64
    ensures Blocks(r, chunk) == Compress(r, Words(chunk))
  {
    hide Compress, Words;
    BlocksStep(r, chunk, []);
    assert chunk + [] == chunk;
  }

  /** The digest of a message, as 32 hexadecimal digits. */
  function Hex(message: seq<Octet>): string {
    HexText(DigestOctets(Digested(INITIAL, message)))
  }

  method Md5(message: seq<Octet>) returns (text: string)
    ensures text == Hex(message) && |text| == 32
  {
    hide HexText, Digested;
    var hash := new Digest();
    hash.Update(message);
    text := hash.ToHex();
    HexTextLength(DigestOctets(hash.Value()));
  }

  lemma HexTextLength(octets: seq<Octet>)
    ensures |HexText(octets)| == 2 * |octets|
  {
  }
}

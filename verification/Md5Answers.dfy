/** The compression as the reference implementation of RFC 1321 writes it out, and the answers of its test suite. */
module Md5Answers {
  import opened Md5

  // ---- Appendix A.3: operation by operation, with every constant in its place ----

  type Words4 = (Word, Word, Word, Word)

  /** Four operations of round 1, on four words with four constants. */
  function FourF(r: Registers, x0: Word, x1: Word, x2: Word, x3: Word,
                 t0: Word, t1: Word, t2: Word, t3: Word): Registers
  {
    var a := Turned(r.b, r.a, F(r.b, r.c, r.d), t0, x0, 7);
    var d := Turned(a, r.d, F(a, r.b, r.c), t1, x1, 12);
    var c := Turned(d, r.c, F(d, a, r.b), t2, x2, 17);
    var b := Turned(c, r.b, F(c, d, a), t3, x3, 22);
    Registers(a, b, c, d)
  }

  /** Four operations of round 2, on four words with four constants. */
  function FourG(r: Registers, x0: Word, x1: Word, x2: Word, x3: Word,
                 t0: Word, t1: Word, t2: Word, t3: Word): Registers
  {
    var a := Turned(r.b, r.a, G(r.b, r.c, r.d), t0, x0, 5);
    var d := Turned(a, r.d, G(a, r.b, r.c), t1, x1, 9);
    var c := Turned(d, r.c, G(d, a, r.b), t2, x2, 14);
    var b := Turned(c, r.b, G(c, d, a), t3, x3, 20);
    Registers(a, b, c, d)
  }

  /** Four operations of round 3, on four words with four constants. */
  function FourH(r: Registers, x0: Word, x1: Word, x2: Word, x3: Word,
                 t0: Word, t1: Word, t2: Word, t3: Word): Registers
  {
    var a := Turned(r.b, r.a, H(r.b, r.c, r.d), t0, x0, 4);
    var d := Turned(a, r.d, H(a, r.b, r.c), t1, x1, 11);
    var c := Turned(d, r.c, H(d, a, r.b), t2, x2, 16);
    var b := Turned(c, r.b, H(c, d, a), t3, x3, 23);
    Registers(a, b, c, d)
  }

  /** Four operations of round 4, on four words with four constants. */
  function FourI(r: Registers, x0: Word, x1: Word, x2: Word, x3: Word,
                 t0: Word, t1: Word, t2: Word, t3: Word): Registers
  {
    var a := Turned(r.b, r.a, I(r.b, r.c, r.d), t0, x0, 6);
    var d := Turned(a, r.d, I(a, r.b, r.c), t1, x1, 10);
    var c := Turned(d, r.c, I(d, a, r.b), t2, x2, 15);
    var b := Turned(c, r.b, I(c, d, a), t3, x3, 21);
    Registers(a, b, c, d)
  }

  function Four(q: nat, x: Block, r: Registers): Registers
    requires q < 16
  {
    match q
    case 0 => FourF(r, x[0], x[1], x[2], x[3], 0xd76aa478, 0xe8c7b756, 0x242070db, 0xc1bdceee)
    case 1 => FourF(r, x[4], x[5], x[6], x[7], 0xf57c0faf, 0x4787c62a, 0xa8304613, 0xfd469501)
    case 2 => FourF(r, x[8], x[9], x[10], x[11], 0x698098d8, 0x8b44f7af, 0xffff5bb1, 0x895cd7be)
    case 3 => FourF(r, x[12], x[13], x[14], x[15], 0x6b901122, 0xfd987193, 0xa679438e, 0x49b40821)
    case 4 => FourG(r, x[1], x[6], x[11], x[0], 0xf61e2562, 0xc040b340, 0x265e5a51, 0xe9b6c7aa)
    case 5 => FourG(r, x[5], x[10], x[15], x[4], 0xd62f105d, 0x02441453, 0xd8a1e681, 0xe7d3fbc8)
    case 6 => FourG(r, x[9], x[14], x[3], x[8], 0x21e1cde6, 0xc33707d6, 0xf4d50d87, 0x455a14ed)
    case 7 => FourG(r, x[13], x[2], x[7], x[12], 0xa9e3e905, 0xfcefa3f8, 0x676f02d9, 0x8d2a4c8a)
    case 8 => FourH(r, x[5], x[8], x[11], x[14], 0xfffa3942, 0x8771f681, 0x6d9d6122, 0xfde5380c)
    case 9 => FourH(r, x[1], x[4], x[7], x[10], 0xa4beea44, 0x4bdecfa9, 0xf6bb4b60, 0xbebfbc70)
    case 10 => FourH(r, x[13], x[0], x[3], x[6], 0x289b7ec6, 0xeaa127fa, 0xd4ef3085, 0x04881d05)
    case 11 => FourH(r, x[9], x[12], x[15], x[2], 0xd9d4d039, 0xe6db99e5, 0x1fa27cf8, 0xc4ac5665)
    case 12 => FourI(r, x[0], x[7], x[14], x[5], 0xf4292244, 0x432aff97, 0xab9423a7, 0xfc93a039)
    case 13 => FourI(r, x[12], x[3], x[10], x[1], 0x655b59c3, 0x8f0ccc92, 0xffeff47d, 0x85845dd1)
    case 14 => FourI(r, x[8], x[15], x[6], x[13], 0x6fa87e4f, 0xfe2ce6e0, 0xa3014314, 0x4e0811a1)
    case _ => FourI(r, x[4], x[11], x[2], x[9], 0xf7537e82, 0xbd3af235, 0x2ad7d2bb, 0xeb86d391)
  }

  function Fours(n: nat, x: Block, r: Registers): Registers
    requires n <= 16
  {
    if n == 0 then r else Four(n - 1, x, Fours(n - 1, x, r))
  }

  // ---- the loop of the code computes just that ----

  /** The word that operation `i` reads. */
  function WordRead(i: nat): (k: nat)
    requires i < 64
    ensures k < 16
  {
    if i < 16 then i else if i < 32 then (5 * i + 1) % 16 else if i < 48 then (3 * i + 5) % 16 else 7 * i % 16
  }

  lemma OperationIs(i: nat, x: Block, a: Word, b: Word, c: Word, d: Word)
    requires i < 64
    ensures Operation(i, x, a, b, c, d)
         == Turned(b, a, Auxiliary(i, b, c, d), T[i], x[WordRead(i)], S(i / 16, i % 16))
  {
    hide S, K, Auxiliary, Turned, T;
    WordIndex(i);
  }

  /** The next four operations, on the registers in turn. */
  function OperateFour(q: nat, x: Block, r: Registers): Registers
    requires q < 16
  {
    Operate(4 * q + 3, x, Operate(4 * q + 2, x, Operate(4 * q + 1, x, Operate(4 * q, x, r))))
  }

  lemma OperateFourIs(q: nat, x: Block, r: Registers)
    requires q < 16
    ensures var a := Operation(4 * q, x, r.a, r.b, r.c, r.d);
      var d := Operation(4 * q + 1, x, r.d, a, r.b, r.c);
      var c := Operation(4 * q + 2, x, r.c, d, a, r.b);
      var b := Operation(4 * q + 3, x, r.b, c, d, a);
      OperateFour(q, x, r) == Registers(a, b, c, d)
  {
    hide Operation;
    InTurn(q);
  }

  lemma InTurn(q: nat)
    ensures 4 * q % 4 == 0 && (4 * q + 1) % 4 == 1 && (4 * q + 2) % 4 == 2 && (4 * q + 3) % 4 == 3
  {
  }

  /** Four operations lie in one round, and take its four rotations in turn. */
  lemma Rotations(q: nat)
    ensures var i, round := 4 * q, q / 4;
      && i / 16 == round && (i + 1) / 16 == round && (i + 2) / 16 == round && (i + 3) / 16 == round
      && i % 16 % 4 == 0 && (i + 1) % 16 % 4 == 1 && (i + 2) % 16 % 4 == 2 && (i + 3) % 16 % 4 == 3
  {
  }


  lemma RoundF(q: nat, x: Block, r: Registers)
    requires 0 <= q < 4
    ensures OperateFour(q, x, r)
         == FourF(r, x[WordRead(4 * q)], x[WordRead(4 * q + 1)], x[WordRead(4 * q + 2)], x[WordRead(4 * q + 3)],
                  T[4 * q], T[4 * q + 1], T[4 * q + 2], T[4 * q + 3])
  {
    hide Turned, Operation, OperateFour, WordRead, T, F, G, H, I;
    OperateFourIs(q, x, r);
    Rotations(q);
    var i := 4 * q;
    var a := Operation(i, x, r.a, r.b, r.c, r.d);
    var d := Operation(i + 1, x, r.d, a, r.b, r.c);
    var c := Operation(i + 2, x, r.c, d, a, r.b);
    OperationIs(i, x, r.a, r.b, r.c, r.d);
    OperationIs(i + 1, x, r.d, a, r.b, r.c);
    OperationIs(i + 2, x, r.c, d, a, r.b);
    OperationIs(i + 3, x, r.b, c, d, a);
  }

  lemma RoundG(q: nat, x: Block, r: Registers)
    requires 4 <= q < 8
    ensures OperateFour(q, x, r)
         == FourG(r, x[WordRead(4 * q)], x[WordRead(4 * q + 1)], x[WordRead(4 * q + 2)], x[WordRead(4 * q + 3)],
                  T[4 * q], T[4 * q + 1], T[4 * q + 2], T[4 * q + 3])
  {
    hide Turned, Operation, OperateFour, WordRead, T, F, G, H, I;
    OperateFourIs(q, x, r);
    Rotations(q);
    var i := 4 * q;
    var a := Operation(i, x, r.a, r.b, r.c, r.d);
    var d := Operation(i + 1, x, r.d, a, r.b, r.c);
    var c := Operation(i + 2, x, r.c, d, a, r.b);
    OperationIs(i, x, r.a, r.b, r.c, r.d);
    OperationIs(i + 1, x, r.d, a, r.b, r.c);
    OperationIs(i + 2, x, r.c, d, a, r.b);
    OperationIs(i + 3, x, r.b, c, d, a);
  }

  lemma RoundH(q: nat, x: Block, r: Registers)
    requires 8 <= q < 12
    ensures OperateFour(q, x, r)
         == FourH(r, x[WordRead(4 * q)], x[WordRead(4 * q + 1)], x[WordRead(4 * q + 2)], x[WordRead(4 * q + 3)],
                  T[4 * q], T[4 * q + 1], T[4 * q + 2], T[4 * q + 3])
  {
    hide Turned, Operation, OperateFour, WordRead, T, F, G, H, I;
    OperateFourIs(q, x, r);
    Rotations(q);
    var i := 4 * q;
    var a := Operation(i, x, r.a, r.b, r.c, r.d);
    var d := Operation(i + 1, x, r.d, a, r.b, r.c);
    var c := Operation(i + 2, x, r.c, d, a, r.b);
    OperationIs(i, x, r.a, r.b, r.c, r.d);
    OperationIs(i + 1, x, r.d, a, r.b, r.c);
    OperationIs(i + 2, x, r.c, d, a, r.b);
    OperationIs(i + 3, x, r.b, c, d, a);
  }

  lemma RoundI(q: nat, x: Block, r: Registers)
    requires 12 <= q < 16
    ensures OperateFour(q, x, r)
         == FourI(r, x[WordRead(4 * q)], x[WordRead(4 * q + 1)], x[WordRead(4 * q + 2)], x[WordRead(4 * q + 3)],
                  T[4 * q], T[4 * q + 1], T[4 * q + 2], T[4 * q + 3])
  {
    hide Turned, Operation, OperateFour, WordRead, T, F, G, H, I;
    OperateFourIs(q, x, r);
    Rotations(q);
    var i := 4 * q;
    var a := Operation(i, x, r.a, r.b, r.c, r.d);
    var d := Operation(i + 1, x, r.d, a, r.b, r.c);
    var c := Operation(i + 2, x, r.c, d, a, r.b);
    OperationIs(i, x, r.a, r.b, r.c, r.d);
    OperationIs(i + 1, x, r.d, a, r.b, r.c);
    OperationIs(i + 2, x, r.c, d, a, r.b);
    OperationIs(i + 3, x, r.b, c, d, a);
  }

  lemma RoundF1(q: nat, x: Block, r: Registers)
    requires q == 0 || q == 1
    ensures OperateFour(q, x, r) == Four(q, x, r)
  {
    hide OperateFour, FourF, FourG, FourH, FourI;
    if q == 0 {
      RoundF(0, x, r);
    } else {
      RoundF(1, x, r);
    }
  }

  lemma RoundF2(q: nat, x: Block, r: Registers)
    requires q == 2 || q == 3
    ensures OperateFour(q, x, r) == Four(q, x, r)
  {
    hide OperateFour, FourF, FourG, FourH, FourI;
    if q == 2 {
      RoundF(2, x, r);
    } else {
      RoundF(3, x, r);
    }
  }

  lemma RoundG1(q: nat, x: Block, r: Registers)
    requires q == 4 || q == 5
    ensures OperateFour(q, x, r) == Four(q, x, r)
  {
    hide OperateFour, FourF, FourG, FourH, FourI;
    if q == 4 {
      RoundG(4, x, r);
    } else {
      RoundG(5, x, r);
    }
  }

  lemma RoundG2(q: nat, x: Block, r: Registers)
    requires q == 6 || q == 7
    ensures OperateFour(q, x, r) == Four(q, x, r)
  {
    hide OperateFour, FourF, FourG, FourH, FourI;
    if q == 6 {
      RoundG(6, x, r);
    } else {
      RoundG(7, x, r);
    }
  }

  lemma RoundH1(q: nat, x: Block, r: Registers)
    requires q == 8 || q == 9
    ensures OperateFour(q, x, r) == Four(q, x, r)
  {
    hide OperateFour, FourF, FourG, FourH, FourI;
    if q == 8 {
      RoundH(8, x, r);
    } else {
      RoundH(9, x, r);
    }
  }

  lemma RoundH2(q: nat, x: Block, r: Registers)
    requires q == 10 || q == 11
    ensures OperateFour(q, x, r) == Four(q, x, r)
  {
    hide OperateFour, FourF, FourG, FourH, FourI;
    if q == 10 {
      RoundH(10, x, r);
    } else {
      RoundH(11, x, r);
    }
  }

  lemma RoundI1(q: nat, x: Block, r: Registers)
    requires q == 12 || q == 13
    ensures OperateFour(q, x, r) == Four(q, x, r)
  {
    hide OperateFour, FourF, FourG, FourH, FourI;
    if q == 12 {
      RoundI(12, x, r);
    } else {
      RoundI(13, x, r);
    }
  }

  lemma RoundI2(q: nat, x: Block, r: Registers)
    requires q == 14 || q == 15
    ensures OperateFour(q, x, r) == Four(q, x, r)
  {
    hide OperateFour, FourF, FourG, FourH, FourI;
    if q == 14 {
      RoundI(14, x, r);
    } else {
      RoundI(15, x, r);
    }
  }

  lemma FourIs(q: nat, x: Block, r: Registers)
    requires q < 16
    ensures OperateFour(q, x, r) == Four(q, x, r)
  {
    hide OperateFour, Four;
    match q / 2
    case 0 => RoundF1(q, x, r);
    case 1 => RoundF2(q, x, r);
    case 2 => RoundG1(q, x, r);
    case 3 => RoundG2(q, x, r);
    case 4 => RoundH1(q, x, r);
    case 5 => RoundH2(q, x, r);
    case 6 => RoundI1(q, x, r);
    case _ => RoundI2(q, x, r);
  }

  /** All sixty-four operations, for every block and all registers. */
  lemma {:induction false} OperationsAreFours(n: nat, x: Block, r: Registers)
    requires n <= 16
    ensures Operations(4 * n, x, r) == Fours(n, x, r)
  {
    hide Operate, Four;
    if n > 0 {
      OperationsAreFours(n - 1, x, r);
      NextFour(n - 1, x, r);
      FourIs(n - 1, x, Operations(4 * n - 4, x, r));
    }
  }

  lemma NextFour(q: nat, x: Block, r: Registers)
    requires q < 16
    ensures Operations(4 * q + 4, x, r) == OperateFour(q, x, Operations(4 * q, x, r))
  {
    hide Operate;
    assert Operations(4 * q + 1, x, r) == Operate(4 * q, x, Operations(4 * q, x, r));
    assert Operations(4 * q + 2, x, r) == Operate(4 * q + 1, x, Operations(4 * q + 1, x, r));
    assert Operations(4 * q + 3, x, r) == Operate(4 * q + 2, x, Operations(4 * q + 2, x, r));
  }

  /** The compression of a block is the reference implementation's, for every block and all registers. */
  lemma CompressIs(x: Block, r: Registers)
    ensures Compress(r, x) == Sum(r, Fours(16, x, r))
  {
    hide Operate, Four, Sum;
    OperationsAreFours(16, x, r);
  }

  // ---- Appendix A.5: the test suite ----

  /** Twice four operations, from `r` to `last`. */
  ghost predicate Half(n: nat, x: Block, r: Registers, last: Registers) {
    n < 8 && Four(2 * n + 1, x, Four(2 * n, x, r)) == last
  }

  lemma HalfIs(n: nat, x: Block, r: Registers, mid: Registers, last: Registers)
    requires n < 8 && Four(2 * n, x, r) == mid && Four(2 * n + 1, x, mid) == last
    ensures Half(n, x, r, last)
  {
    hide Four;
  }

  /** A round of sixteen operations. */
  ghost predicate Round(n: nat, x: Block, r: Registers, last: Registers) {
    n < 4 && Four(4 * n + 3, x, Four(4 * n + 2, x, Four(4 * n + 1, x, Four(4 * n, x, r)))) == last
  }

  lemma RoundIs(n: nat, x: Block, r: Registers, mid: Registers, last: Registers)
    requires n < 4 && Half(2 * n, x, r, mid) && Half(2 * n + 1, x, mid, last)
    ensures Round(n, x, r, last)
  {
    hide Four;
  }

  lemma RoundNext(n: nat, x: Block, r: Registers, mid: Registers, last: Registers)
    requires n < 4 && Fours(4 * n, x, r) == mid && Round(n, x, mid, last)
    ensures Fours(4 * n + 4, x, r) == last
  {
    hide Four;
    assert Fours(4 * n + 1, x, r) == Four(4 * n, x, mid);
    assert Fours(4 * n + 2, x, r) == Four(4 * n + 1, x, Fours(4 * n + 1, x, r));
    assert Fours(4 * n + 3, x, r) == Four(4 * n + 2, x, Fours(4 * n + 2, x, r));
  }

  /** The registers after each round give the compression. */
  lemma RoundsCompress(x: Block, r: Registers, r1: Registers, r2: Registers, r3: Registers, r4: Registers)
    requires Round(0, x, r, r1) && Round(1, x, r1, r2) && Round(2, x, r2, r3) && Round(3, x, r3, r4)
    ensures Compress(r, x) == Sum(r, r4)
  {
    hide Round, Compress, Sum, Four;
    assert Fours(0, x, r) == r;
    RoundNext(0, x, r, r, r1);
    RoundNext(1, x, r, r1, r2);
    RoundNext(2, x, r, r2, r3);
    RoundNext(3, x, r, r3, r4);
    CompressIs(x, r);
  }

  /** The block of the empty message. */
  const EMPTY: Block := [
    0x00000080, 0x00000000, 0x00000000, 0x00000000, 0x00000000, 0x00000000, 0x00000000, 0x00000000,
    0x00000000, 0x00000000, 0x00000000, 0x00000000, 0x00000000, 0x00000000, 0x00000000, 0x00000000]

  lemma EmptyHalf1()
    ensures Half(0, EMPTY, Registers(0x67452301, 0xefcdab89, 0x98badcfe, 0x10325476),
                 Registers(0x32033344, 0x9bc13ce9, 0xf5b158db, 0x2f35d494))
  {
    hide Half;
    var r := Registers(0x67452301, 0xefcdab89, 0x98badcfe, 0x10325476);
    var mid := Registers(0xa5202774, 0x1b163203, 0xe7f06b23, 0xf59592dd);
    var last := Registers(0x32033344, 0x9bc13ce9, 0xf5b158db, 0x2f35d494);
    assert Four(0, EMPTY, r) == mid;
    assert Four(1, EMPTY, mid) == last;
    HalfIs(0, EMPTY, r, mid, last);
  }

  lemma EmptyHalf2()
    ensures Half(1, EMPTY, Registers(0x32033344, 0x9bc13ce9, 0xf5b158db, 0x2f35d494),
                 Registers(0xf56c7cf1, 0xd6819c6a, 0x5aa53f75, 0x374943a7))
  {
    hide Half;
    var r := Registers(0x32033344, 0x9bc13ce9, 0xf5b158db, 0x2f35d494);
    var mid := Registers(0x3893b991, 0x70768a29, 0xe1ef0576, 0xfce4a312);
    var last := Registers(0xf56c7cf1, 0xd6819c6a, 0x5aa53f75, 0x374943a7);
    assert Four(2, EMPTY, r) == mid;
    assert Four(3, EMPTY, mid) == last;
    HalfIs(1, EMPTY, r, mid, last);
  }

  lemma EmptyHalf3()
    ensures Half(2, EMPTY, Registers(0xf56c7cf1, 0xd6819c6a, 0x5aa53f75, 0x374943a7),
                 Registers(0x3d1e3e6c, 0xe422531a, 0xeb41643e, 0x68b7b3e3))
  {
    hide Half;
    var r := Registers(0xf56c7cf1, 0xd6819c6a, 0x5aa53f75, 0x374943a7);
    var mid := Registers(0x1c7d7513, 0xbd782e17, 0xc095f13a, 0x7bd57a3a);
    var last := Registers(0x3d1e3e6c, 0xe422531a, 0xeb41643e, 0x68b7b3e3);
    assert Four(4, EMPTY, r) == mid;
    assert Four(5, EMPTY, mid) == last;
    HalfIs(2, EMPTY, r, mid, last);
  }

  lemma EmptyHalf4()
    ensures Half(3, EMPTY, Registers(0x3d1e3e6c, 0xe422531a, 0xeb41643e, 0x68b7b3e3),
                 Registers(0x13707036, 0xa2205f1f, 0x1c31c384, 0xae7813db))
  {
    hide Half;
    var r := Registers(0x3d1e3e6c, 0xe422531a, 0xeb41643e, 0x68b7b3e3);
    var mid := Registers(0x306ec122, 0xa0572807, 0xa3c663da, 0xd28c77c2);
    var last := Registers(0x13707036, 0xa2205f1f, 0x1c31c384, 0xae7813db);
    assert Four(6, EMPTY, r) == mid;
    assert Four(7, EMPTY, mid) == last;
    HalfIs(3, EMPTY, r, mid, last);
  }

  lemma EmptyHalf5()
    ensures Half(4, EMPTY, Registers(0x13707036, 0xa2205f1f, 0x1c31c384, 0xae7813db),
                 Registers(0x5f7a9b2e, 0xc5dc8c15, 0x91ca4cb7, 0xabc34e16))
  {
    hide Half;
    var r := Registers(0x13707036, 0xa2205f1f, 0x1c31c384, 0xae7813db);
    var mid := Registers(0xdf63eaa1, 0x004b6669, 0x12f3e755, 0xc3689f5b);
    var last := Registers(0x5f7a9b2e, 0xc5dc8c15, 0x91ca4cb7, 0xabc34e16);
    assert Four(8, EMPTY, r) == mid;
    assert Four(9, EMPTY, mid) == last;
    HalfIs(4, EMPTY, r, mid, last);
  }

  lemma EmptyHalf6()
    ensures Half(5, EMPTY, Registers(0x5f7a9b2e, 0xc5dc8c15, 0x91ca4cb7, 0xabc34e16),
                 Registers(0x3f55edfd, 0xca7d2dbd, 0x68d84ea2, 0x22a31f54))
  {
    hide Half;
    var r := Registers(0x5f7a9b2e, 0xc5dc8c15, 0x91ca4cb7, 0xabc34e16);
    var mid := Registers(0x4497169d, 0x0fe32453, 0xfd95f243, 0x76fd93d4);
    var last := Registers(0x3f55edfd, 0xca7d2dbd, 0x68d84ea2, 0x22a31f54);
    assert Four(10, EMPTY, r) == mid;
    assert Four(11, EMPTY, mid) == last;
    HalfIs(5, EMPTY, r, mid, last);
  }

  lemma EmptyHalf7()
    ensures Half(6, EMPTY, Registers(0x3f55edfd, 0xca7d2dbd, 0x68d84ea2, 0x22a31f54),
                 Registers(0x5625a114, 0x1e77fa61, 0x392ad0d0, 0x3450f42b))
  {
    hide Half;
    var r := Registers(0x3f55edfd, 0xca7d2dbd, 0x68d84ea2, 0x22a31f54);
    var mid := Registers(0x93aa2577, 0x561e0689, 0xcd85b8cb, 0x1688dc85);
    var last := Registers(0x5625a114, 0x1e77fa61, 0x392ad0d0, 0x3450f42b);
    assert Four(12, EMPTY, r) == mid;
    assert Four(13, EMPTY, mid) == last;
    HalfIs(6, EMPTY, r, mid, last);
  }

  lemma EmptyHalf8()
    ensures Half(7, EMPTY, Registers(0x5625a114, 0x1e77fa61, 0x392ad0d0, 0x3450f42b),
                 Registers(0x7246fad3, 0x14e45506, 0xff4ea3eb, 0x6e10a476))
  {
    hide Half;
    var r := Registers(0x5625a114, 0x1e77fa61, 0x392ad0d0, 0x3450f42b);
    var mid := Registers(0x474a9c8c, 0x30130182, 0x36594b14, 0xdfce00bc);
    var last := Registers(0x7246fad3, 0x14e45506, 0xff4ea3eb, 0x6e10a476);
    assert Four(14, EMPTY, r) == mid;
    assert Four(15, EMPTY, mid) == last;
    HalfIs(7, EMPTY, r, mid, last);
  }

  lemma EmptyCompressed()
    ensures Compress(Registers(0x67452301, 0xefcdab89, 0x98badcfe, 0x10325476), EMPTY)
         == Registers(0xd98c1dd4, 0x04b2008f, 0x980980e9, 0x7e42f8ec)
  {
    hide Half, Round, Compress;
    EmptyHalf1();
    EmptyHalf2();
    EmptyHalf3();
    EmptyHalf4();
    EmptyHalf5();
    EmptyHalf6();
    EmptyHalf7();
    EmptyHalf8();
    var r := Registers(0x67452301, 0xefcdab89, 0x98badcfe, 0x10325476);
    var r1 := Registers(0xf56c7cf1, 0xd6819c6a, 0x5aa53f75, 0x374943a7);
    var r2 := Registers(0x13707036, 0xa2205f1f, 0x1c31c384, 0xae7813db);
    var r3 := Registers(0x3f55edfd, 0xca7d2dbd, 0x68d84ea2, 0x22a31f54);
    var r4 := Registers(0x7246fad3, 0x14e45506, 0xff4ea3eb, 0x6e10a476);
    RoundIs(0, EMPTY, r, Registers(0x32033344, 0x9bc13ce9, 0xf5b158db, 0x2f35d494), r1);
    RoundIs(1, EMPTY, r1, Registers(0x3d1e3e6c, 0xe422531a, 0xeb41643e, 0x68b7b3e3), r2);
    RoundIs(2, EMPTY, r2, Registers(0x5f7a9b2e, 0xc5dc8c15, 0x91ca4cb7, 0xabc34e16), r3);
    RoundIs(3, EMPTY, r3, Registers(0x5625a114, 0x1e77fa61, 0x392ad0d0, 0x3450f42b), r4);
    RoundsCompress(EMPTY, r, r1, r2, r3, r4);
  }

  /** The block of "abc". */
  const ABC: Block := [
    0x80636261, 0x00000000, 0x00000000, 0x00000000, 0x00000000, 0x00000000, 0x00000000, 0x00000000,
    0x00000000, 0x00000000, 0x00000000, 0x00000000, 0x00000000, 0x00000000, 0x00000018, 0x00000000]

  lemma AbcHalf1()
    ensures Half(0, ABC, Registers(0x67452301, 0xefcdab89, 0x98badcfe, 0x10325476),
                 Registers(0xc73741ef, 0x928d99f6, 0x207dc67b, 0x8bac3051))
  {
    hide Half;
    var r := Registers(0x67452301, 0xefcdab89, 0x98badcfe, 0x10325476);
    var mid := Registers(0xd6d117b4, 0x7ad956f2, 0x2f6fbd72, 0x344a8432);
    var last := Registers(0xc73741ef, 0x928d99f6, 0x207dc67b, 0x8bac3051);
    assert Four(0, ABC, r) == mid;
    assert Four(1, ABC, mid) == last;
    HalfIs(0, ABC, r, mid, last);
  }

  lemma AbcHalf2()
    ensures Half(1, ABC, Registers(0xc73741ef, 0x928d99f6, 0x207dc67b, 0x8bac3051),
                 Registers(0xdda9b9a6, 0x72aff2e0, 0xe396856b, 0xa1051895))
  {
    hide Half;
    var r := Registers(0xc73741ef, 0x928d99f6, 0x207dc67b, 0x8bac3051);
    var mid := Registers(0x854b3712, 0x5ed49596, 0x3020401c, 0x74e2f284);
    var last := Registers(0xdda9b9a6, 0x72aff2e0, 0xe396856b, 0xa1051895);
    assert Four(2, ABC, r) == mid;
    assert Four(3, ABC, mid) == last;
    HalfIs(1, ABC, r, mid, last);
  }

  lemma AbcHalf3()
    ensures Half(2, ABC, Registers(0xdda9b9a6, 0x72aff2e0, 0xe396856b, 0xa1051895),
                 Registers(0x59a8ffda, 0x47092c07, 0xabfc7920, 0x6d002f1e))
  {
    hide Half;
    var r := Registers(0xdda9b9a6, 0x72aff2e0, 0xe396856b, 0xa1051895);
    var mid := Registers(0x3e9e9126, 0xb5b204e4, 0xe25e1652, 0x4a1d804e);
    var last := Registers(0x59a8ffda, 0x47092c07, 0xabfc7920, 0x6d002f1e);
    assert Four(4, ABC, r) == mid;
    assert Four(5, ABC, mid) == last;
    HalfIs(2, ABC, r, mid, last);
  }

  lemma AbcHalf4()
    ensures Half(3, ABC, Registers(0x59a8ffda, 0x47092c07, 0xabfc7920, 0x6d002f1e),
                 Registers(0x790a77fb, 0x726342d3, 0xa62884aa, 0x9f47e4f8))
  {
    hide Half;
    var r := Registers(0x59a8ffda, 0x47092c07, 0xabfc7920, 0x6d002f1e);
    var mid := Registers(0xb7f268cf, 0x786acb8f, 0xfe1623b1, 0x09388eff);
    var last := Registers(0x790a77fb, 0x726342d3, 0xa62884aa, 0x9f47e4f8);
    assert Four(6, ABC, r) == mid;
    assert Four(7, ABC, mid) == last;
    HalfIs(3, ABC, r, mid, last);
  }

  lemma AbcHalf5()
    ensures Half(4, ABC, Registers(0x790a77fb, 0x726342d3, 0xa62884aa, 0x9f47e4f8),
                 Registers(0x21b117b9, 0x5a2f5ea5, 0x3575227e, 0x6e7429d5))
  {
    hide Half;
    var r := Registers(0x790a77fb, 0x726342d3, 0xa62884aa, 0x9f47e4f8);
    var mid := Registers(0xb3707ebf, 0x3b0875c7, 0x8d212ff5, 0x60127b2e);
    var last := Registers(0x21b117b9, 0x5a2f5ea5, 0x3575227e, 0x6e7429d5);
    assert Four(8, ABC, r) == mid;
    assert Four(9, ABC, mid) == last;
    HalfIs(4, ABC, r, mid, last);
  }

  lemma AbcHalf6()
    ensures Half(5, ABC, Registers(0x21b117b9, 0x5a2f5ea5, 0x3575227e, 0x6e7429d5),
                 Registers(0x7f2e507b, 0x7beb9700, 0x8fae6399, 0x99d9679d))
  {
    hide Half;
    var r := Registers(0x21b117b9, 0x5a2f5ea5, 0x3575227e, 0x6e7429d5);
    var mid := Registers(0x11de1779, 0x4c6124f4, 0x31c465ca, 0xfadcaa38);
    var last := Registers(0x7f2e507b, 0x7beb9700, 0x8fae6399, 0x99d9679d);
    assert Four(10, ABC, r) == mid;
    assert Four(11, ABC, mid) == last;
    HalfIs(5, ABC, r, mid, last);
  }

  lemma AbcHalf7()
    ensures Half(6, ABC, Registers(0x7f2e507b, 0x7beb9700, 0x8fae6399, 0x99d9679d),
                 Registers(0x06cc5e8a, 0x3bfa2c27, 0x7d632dd0, 0x5b0d97aa))
  {
    hide Half;
    var r := Registers(0x7f2e507b, 0x7beb9700, 0x8fae6399, 0x99d9679d);
    var mid := Registers(0x7b201df8, 0x8bf025c4, 0xb298cefd, 0xf4e8e96e);
    var last := Registers(0x06cc5e8a, 0x3bfa2c27, 0x7d632dd0, 0x5b0d97aa);
    assert Four(12, ABC, r) == mid;
    assert Four(13, ABC, mid) == last;
    HalfIs(6, ABC, r, mid, last);
  }

  lemma AbcHalf8()
    ensures Half(7, ABC, Registers(0x06cc5e8a, 0x3bfa2c27, 0x7d632dd0, 0x5b0d97aa),
                 Registers(0x310ade8f, 0xc08226b3, 0xe484b9d8, 0x624d8cb2))
  {
    hide Half;
    var r := Registers(0x06cc5e8a, 0x3bfa2c27, 0x7d632dd0, 0x5b0d97aa);
    var mid := Registers(0x7f81cc35, 0x7327d604, 0x4f9dbe3f, 0x094454ab);
    var last := Registers(0x310ade8f, 0xc08226b3, 0xe484b9d8, 0x624d8cb2);
    assert Four(14, ABC, r) == mid;
    assert Four(15, ABC, mid) == last;
    HalfIs(7, ABC, r, mid, last);
  }

  lemma AbcCompressed()
    ensures Compress(Registers(0x67452301, 0xefcdab89, 0x98badcfe, 0x10325476), ABC)
         == Registers(0x98500190, 0xb04fd23c, 0x7d3f96d6, 0x727fe128)
  {
    hide Half, Round, Compress;
    AbcHalf1();
    AbcHalf2();
    AbcHalf3();
    AbcHalf4();
    AbcHalf5();
    AbcHalf6();
    AbcHalf7();
    AbcHalf8();
    var r := Registers(0x67452301, 0xefcdab89, 0x98badcfe, 0x10325476);
    var r1 := Registers(0xdda9b9a6, 0x72aff2e0, 0xe396856b, 0xa1051895);
    var r2 := Registers(0x790a77fb, 0x726342d3, 0xa62884aa, 0x9f47e4f8);
    var r3 := Registers(0x7f2e507b, 0x7beb9700, 0x8fae6399, 0x99d9679d);
    var r4 := Registers(0x310ade8f, 0xc08226b3, 0xe484b9d8, 0x624d8cb2);
    RoundIs(0, ABC, r, Registers(0xc73741ef, 0x928d99f6, 0x207dc67b, 0x8bac3051), r1);
    RoundIs(1, ABC, r1, Registers(0x59a8ffda, 0x47092c07, 0xabfc7920, 0x6d002f1e), r2);
    RoundIs(2, ABC, r2, Registers(0x21b117b9, 0x5a2f5ea5, 0x3575227e, 0x6e7429d5), r3);
    RoundIs(3, ABC, r3, Registers(0x06cc5e8a, 0x3bfa2c27, 0x7d632dd0, 0x5b0d97aa), r4);
    RoundsCompress(ABC, r, r1, r2, r3, r4);
  }

  /** The two blocks of eighty digits. */
  const DIGITS: Block := [
    0x34333231, 0x38373635, 0x32313039, 0x36353433, 0x30393837, 0x34333231, 0x38373635, 0x32313039,
    0x36353433, 0x30393837, 0x34333231, 0x38373635, 0x32313039, 0x36353433, 0x30393837, 0x34333231]

  lemma DigitsHalf1()
    ensures Half(0, DIGITS, Registers(0x67452301, 0xefcdab89, 0x98badcfe, 0x10325476),
                 Registers(0x8c17de9f, 0xc57e78c1, 0xe99fec1b, 0xc0f32d81))
  {
    hide Half;
    var r := Registers(0x67452301, 0xefcdab89, 0x98badcfe, 0x10325476);
    var mid := Registers(0xbeb8ff8e, 0x862797b0, 0xf8cdf95d, 0x7d989d89);
    var last := Registers(0x8c17de9f, 0xc57e78c1, 0xe99fec1b, 0xc0f32d81);
    assert Four(0, DIGITS, r) == mid;
    assert Four(1, DIGITS, mid) == last;
    HalfIs(0, DIGITS, r, mid, last);
  }

  lemma DigitsHalf2()
    ensures Half(1, DIGITS, Registers(0x8c17de9f, 0xc57e78c1, 0xe99fec1b, 0xc0f32d81),
                 Registers(0x5157e49e, 0xaf506a03, 0x27e983a0, 0xffac907e))
  {
    hide Half;
    var r := Registers(0x8c17de9f, 0xc57e78c1, 0xe99fec1b, 0xc0f32d81);
    var mid := Registers(0x7c0aceb7, 0xa5f36f8d, 0x5186a8ba, 0x8869d2d8);
    var last := Registers(0x5157e49e, 0xaf506a03, 0x27e983a0, 0xffac907e);
    assert Four(2, DIGITS, r) == mid;
    assert Four(3, DIGITS, mid) == last;
    HalfIs(1, DIGITS, r, mid, last);
  }

  lemma DigitsHalf3()
    ensures Half(2, DIGITS, Registers(0x5157e49e, 0xaf506a03, 0x27e983a0, 0xffac907e),
                 Registers(0x78929ee0, 0xad400a91, 0xb18aca50, 0x375c6c2c))
  {
    hide Half;
    var r := Registers(0x5157e49e, 0xaf506a03, 0x27e983a0, 0xffac907e);
    var mid := Registers(0x8d18e0e8, 0x04280170, 0xef223167, 0x07de0df2);
    var last := Registers(0x78929ee0, 0xad400a91, 0xb18aca50, 0x375c6c2c);
    assert Four(4, DIGITS, r) == mid;
    assert Four(5, DIGITS, mid) == last;
    HalfIs(2, DIGITS, r, mid, last);
  }

  lemma DigitsHalf4()
    ensures Half(3, DIGITS, Registers(0x78929ee0, 0xad400a91, 0xb18aca50, 0x375c6c2c),
                 Registers(0xf8bcfbb0, 0x1bf25662, 0x99a0f1b8, 0xd760ed39))
  {
    hide Half;
    var r := Registers(0x78929ee0, 0xad400a91, 0xb18aca50, 0x375c6c2c);
    var mid := Registers(0xbb45f43f, 0xb70e35a9, 0x98ade6b5, 0xd61f8a0f);
    var last := Registers(0xf8bcfbb0, 0x1bf25662, 0x99a0f1b8, 0xd760ed39);
    assert Four(6, DIGITS, r) == mid;
    assert Four(7, DIGITS, mid) == last;
    HalfIs(3, DIGITS, r, mid, last);
  }

  lemma DigitsHalf5()
    ensures Half(4, DIGITS, Registers(0xf8bcfbb0, 0x1bf25662, 0x99a0f1b8, 0xd760ed39),
                 Registers(0x3b32c408, 0x1d4d6f72, 0x9ef871ad, 0x7338d8b7))
  {
    hide Half;
    var r := Registers(0xf8bcfbb0, 0x1bf25662, 0x99a0f1b8, 0xd760ed39);
    var mid := Registers(0x3dbd76ca, 0xe0162f49, 0xc7ed7c30, 0xfd056171);
    var last := Registers(0x3b32c408, 0x1d4d6f72, 0x9ef871ad, 0x7338d8b7);
    assert Four(8, DIGITS, r) == mid;
    assert Four(9, DIGITS, mid) == last;
    HalfIs(4, DIGITS, r, mid, last);
  }

  lemma DigitsHalf6()
    ensures Half(5, DIGITS, Registers(0x3b32c408, 0x1d4d6f72, 0x9ef871ad, 0x7338d8b7),
                 Registers(0x697032ec, 0xdb4197da, 0xefc2c171, 0xfa597bfc))
  {
    hide Half;
    var r := Registers(0x3b32c408, 0x1d4d6f72, 0x9ef871ad, 0x7338d8b7);
    var mid := Registers(0xc661460a, 0x89e3c4d7, 0xd6d5b879, 0xd2bf04c9);
    var last := Registers(0x697032ec, 0xdb4197da, 0xefc2c171, 0xfa597bfc);
    assert Four(10, DIGITS, r) == mid;
    assert Four(11, DIGITS, mid) == last;
    HalfIs(5, DIGITS, r, mid, last);
  }

  lemma DigitsHalf7()
    ensures Half(6, DIGITS, Registers(0x697032ec, 0xdb4197da, 0xefc2c171, 0xfa597bfc),
                 Registers(0x633d3f7c, 0x7713f5df, 0xccaa1524, 0x1a4d3beb))
  {
    hide Half;
    var r := Registers(0x697032ec, 0xdb4197da, 0xefc2c171, 0xfa597bfc);
    var mid := Registers(0x57b91aca, 0xcaa25b01, 0x21efbd88, 0x210c9ebc);
    var last := Registers(0x633d3f7c, 0x7713f5df, 0xccaa1524, 0x1a4d3beb);
    assert Four(12, DIGITS, r) == mid;
    assert Four(13, DIGITS, mid) == last;
    HalfIs(6, DIGITS, r, mid, last);
  }

  lemma DigitsHalf8()
    ensures Half(7, DIGITS, Registers(0x633d3f7c, 0x7713f5df, 0xccaa1524, 0x1a4d3beb),
                 Registers(0x614868eb, 0xb4d33102, 0x5133129b, 0xa09f38a7))
  {
    hide Half;
    var r := Registers(0x633d3f7c, 0x7713f5df, 0xccaa1524, 0x1a4d3beb);
    var mid := Registers(0x8448b430, 0x660a801d, 0x7e294727, 0x71c93463);
    var last := Registers(0x614868eb, 0xb4d33102, 0x5133129b, 0xa09f38a7);
    assert Four(14, DIGITS, r) == mid;
    assert Four(15, DIGITS, mid) == last;
    HalfIs(7, DIGITS, r, mid, last);
  }

  lemma DigitsCompressed()
    ensures Compress(Registers(0x67452301, 0xefcdab89, 0x98badcfe, 0x10325476), DIGITS)
         == Registers(0xc88d8bec, 0xa4a0dc8b, 0xe9edef99, 0xb0d18d1d)
  {
    hide Half, Round, Compress;
    DigitsHalf1();
    DigitsHalf2();
    DigitsHalf3();
    DigitsHalf4();
    DigitsHalf5();
    DigitsHalf6();
    DigitsHalf7();
    DigitsHalf8();
    var r := Registers(0x67452301, 0xefcdab89, 0x98badcfe, 0x10325476);
    var r1 := Registers(0x5157e49e, 0xaf506a03, 0x27e983a0, 0xffac907e);
    var r2 := Registers(0xf8bcfbb0, 0x1bf25662, 0x99a0f1b8, 0xd760ed39);
    var r3 := Registers(0x697032ec, 0xdb4197da, 0xefc2c171, 0xfa597bfc);
    var r4 := Registers(0x614868eb, 0xb4d33102, 0x5133129b, 0xa09f38a7);
    RoundIs(0, DIGITS, r, Registers(0x8c17de9f, 0xc57e78c1, 0xe99fec1b, 0xc0f32d81), r1);
    RoundIs(1, DIGITS, r1, Registers(0x78929ee0, 0xad400a91, 0xb18aca50, 0x375c6c2c), r2);
    RoundIs(2, DIGITS, r2, Registers(0x3b32c408, 0x1d4d6f72, 0x9ef871ad, 0x7338d8b7), r3);
    RoundIs(3, DIGITS, r3, Registers(0x633d3f7c, 0x7713f5df, 0xccaa1524, 0x1a4d3beb), r4);
    RoundsCompress(DIGITS, r, r1, r2, r3, r4);
  }

  const LAST: Block := [
    0x38373635, 0x32313039, 0x36353433, 0x30393837, 0x00000080, 0x00000000, 0x00000000, 0x00000000,
    0x00000000, 0x00000000, 0x00000000, 0x00000000, 0x00000000, 0x00000000, 0x00000280, 0x00000000]

  lemma LastHalf1()
    ensures Half(0, LAST, Registers(0xc88d8bec, 0xa4a0dc8b, 0xe9edef99, 0xb0d18d1d),
                 Registers(0x3527497e, 0x377c7d0a, 0x948347ae, 0xab92660e))
  {
    hide Half;
    var r := Registers(0xc88d8bec, 0xa4a0dc8b, 0xe9edef99, 0xb0d18d1d);
    var mid := Registers(0x353af7cf, 0x45e88f2c, 0x63356537, 0x3a4f735a);
    var last := Registers(0x3527497e, 0x377c7d0a, 0x948347ae, 0xab92660e);
    assert Four(0, LAST, r) == mid;
    assert Four(1, LAST, mid) == last;
    HalfIs(0, LAST, r, mid, last);
  }

  lemma LastHalf2()
    ensures Half(1, LAST, Registers(0x3527497e, 0x377c7d0a, 0x948347ae, 0xab92660e),
                 Registers(0xdb4ff71c, 0x58b12eab, 0x04396a39, 0x9b6b4960))
  {
    hide Half;
    var r := Registers(0x3527497e, 0x377c7d0a, 0x948347ae, 0xab92660e);
    var mid := Registers(0xcc912f27, 0xb9ede40c, 0xae23894d, 0x6945a3d5);
    var last := Registers(0xdb4ff71c, 0x58b12eab, 0x04396a39, 0x9b6b4960);
    assert Four(2, LAST, r) == mid;
    assert Four(3, LAST, mid) == last;
    HalfIs(1, LAST, r, mid, last);
  }

  lemma LastHalf3()
    ensures Half(2, LAST, Registers(0xdb4ff71c, 0x58b12eab, 0x04396a39, 0x9b6b4960),
                 Registers(0x0d6e6d91, 0x043cb080, 0xd5b7a850, 0x17d64195))
  {
    hide Half;
    var r := Registers(0xdb4ff71c, 0x58b12eab, 0x04396a39, 0x9b6b4960);
    var mid := Registers(0x52c00cae, 0x50f8de8c, 0xa476af6f, 0xaad2a216);
    var last := Registers(0x0d6e6d91, 0x043cb080, 0xd5b7a850, 0x17d64195);
    assert Four(4, LAST, r) == mid;
    assert Four(5, LAST, mid) == last;
    HalfIs(2, LAST, r, mid, last);
  }

  lemma LastHalf4()
    ensures Half(3, LAST, Registers(0x0d6e6d91, 0x043cb080, 0xd5b7a850, 0x17d64195),
                 Registers(0x8761f38e, 0x67092c33, 0x061bc867, 0x7a516116))
  {
    hide Half;
    var r := Registers(0x0d6e6d91, 0x043cb080, 0xd5b7a850, 0x17d64195);
    var mid := Registers(0x74f9377e, 0xcb00b96e, 0xe775c8ca, 0x01f2addd);
    var last := Registers(0x8761f38e, 0x67092c33, 0x061bc867, 0x7a516116);
    assert Four(6, LAST, r) == mid;
    assert Four(7, LAST, mid) == last;
    HalfIs(3, LAST, r, mid, last);
  }

  lemma LastHalf5()
    ensures Half(4, LAST, Registers(0x8761f38e, 0x67092c33, 0x061bc867, 0x7a516116),
                 Registers(0xae26ed7d, 0xdbd1bff6, 0xff4a94dc, 0x71d8ecea))
  {
    hide Half;
    var r := Registers(0x8761f38e, 0x67092c33, 0x061bc867, 0x7a516116);
    var mid := Registers(0x91044d5d, 0x2ee1e3fe, 0xc0175fa8, 0x610954eb);
    var last := Registers(0xae26ed7d, 0xdbd1bff6, 0xff4a94dc, 0x71d8ecea);
    assert Four(8, LAST, r) == mid;
    assert Four(9, LAST, mid) == last;
    HalfIs(4, LAST, r, mid, last);
  }

  lemma LastHalf6()
    ensures Half(5, LAST, Registers(0xae26ed7d, 0xdbd1bff6, 0xff4a94dc, 0x71d8ecea),
                 Registers(0x71123afa, 0x1df7010a, 0xe6a8a386, 0xdc9c8ddb))
  {
    hide Half;
    var r := Registers(0xae26ed7d, 0xdbd1bff6, 0xff4a94dc, 0x71d8ecea);
    var mid := Registers(0x9c350028, 0x56b3692f, 0xfacaaf06, 0x97e5da92);
    var last := Registers(0x71123afa, 0x1df7010a, 0xe6a8a386, 0xdc9c8ddb);
    assert Four(10, LAST, r) == mid;
    assert Four(11, LAST, mid) == last;
    HalfIs(5, LAST, r, mid, last);
  }

  lemma LastHalf7()
    ensures Half(6, LAST, Registers(0x71123afa, 0x1df7010a, 0xe6a8a386, 0xdc9c8ddb),
                 Registers(0x7a504abd, 0x9b31b114, 0xa290d6ce, 0x211cc65d))
  {
    hide Half;
    var r := Registers(0x71123afa, 0x1df7010a, 0xe6a8a386, 0xdc9c8ddb);
    var mid := Registers(0xd29007e7, 0xc8797828, 0xd3248109, 0x7241a77e);
    var last := Registers(0x7a504abd, 0x9b31b114, 0xa290d6ce, 0x211cc65d);
    assert Four(12, LAST, r) == mid;
    assert Four(13, LAST, mid) == last;
    HalfIs(6, LAST, r, mid, last);
  }

  lemma LastHalf8()
    ensures Half(7, LAST, Registers(0x7a504abd, 0x9b31b114, 0xa290d6ce, 0x211cc65d),
                 Registers(0xda67616b, 0xb12906a0, 0x44ec5a13, 0xc9e47a04))
  {
    hide Half;
    var r := Registers(0x7a504abd, 0x9b31b114, 0xa290d6ce, 0x211cc65d);
    var mid := Registers(0x723fd22d, 0x4dc4f33d, 0x3d79cf74, 0xd21d6a3b);
    var last := Registers(0xda67616b, 0xb12906a0, 0x44ec5a13, 0xc9e47a04);
    assert Four(14, LAST, r) == mid;
    assert Four(15, LAST, mid) == last;
    HalfIs(7, LAST, r, mid, last);
  }

  lemma LastCompressed()
    ensures Compress(Registers(0xc88d8bec, 0xa4a0dc8b, 0xe9edef99, 0xb0d18d1d), LAST)
         == Registers(0xa2f4ed57, 0x55c9e32b, 0x2eda49ac, 0x7ab60721)
  {
    hide Half, Round, Compress;
    LastHalf1();
    LastHalf2();
    LastHalf3();
    LastHalf4();
    LastHalf5();
    LastHalf6();
    LastHalf7();
    LastHalf8();
    var r := Registers(0xc88d8bec, 0xa4a0dc8b, 0xe9edef99, 0xb0d18d1d);
    var r1 := Registers(0xdb4ff71c, 0x58b12eab, 0x04396a39, 0x9b6b4960);
    var r2 := Registers(0x8761f38e, 0x67092c33, 0x061bc867, 0x7a516116);
    var r3 := Registers(0x71123afa, 0x1df7010a, 0xe6a8a386, 0xdc9c8ddb);
    var r4 := Registers(0xda67616b, 0xb12906a0, 0x44ec5a13, 0xc9e47a04);
    RoundIs(0, LAST, r, Registers(0x3527497e, 0x377c7d0a, 0x948347ae, 0xab92660e), r1);
    RoundIs(1, LAST, r1, Registers(0x0d6e6d91, 0x043cb080, 0xd5b7a850, 0x17d64195), r2);
    RoundIs(2, LAST, r2, Registers(0xae26ed7d, 0xdbd1bff6, 0xff4a94dc, 0x71d8ecea), r3);
    RoundIs(3, LAST, r3, Registers(0x7a504abd, 0x9b31b114, 0xa290d6ce, 0x211cc65d), r4);
    RoundsCompress(LAST, r, r1, r2, r3, r4);
  }

  // ---- from messages to blocks ----

  lemma SmallBitLength(octets: nat, bits: nat)
    requires bits == 8 * octets < 1000
    ensures BitLength(octets) == bits as bv64
  {
  }

  lemma BitLengths()
    ensures BitLength(0) == 0 && BitLength(3) == 24 && BitLength(80) == 640
  {
    hide BitLength;
    SmallBitLength(0, 0);
    SmallBitLength(3, 24);
    SmallBitLength(80, 640);
  }

  lemma LengthsInOctets()
    ensures LengthOctets(0) == [0, 0, 0, 0, 0, 0, 0, 0]
    ensures LengthOctets(24) == [24, 0, 0, 0, 0, 0, 0, 0]
    ensures LengthOctets(640) == [0x80, 0x02, 0, 0, 0, 0, 0, 0]
  {
  }

  lemma LiteralWords()
    ensures WordOf(0, 0, 0, 0) == 0 && WordOf(0x80, 0, 0, 0) == 0x80 && WordOf(24, 0, 0, 0) == 24
    ensures WordOf(0x61, 0x62, 0x63, 0x80) == 0x80636261 && WordOf(0x80, 0x02, 0, 0) == 0x280
    ensures WordOf(0x31, 0x32, 0x33, 0x34) == 0x34333231 && WordOf(0x35, 0x36, 0x37, 0x38) == 0x38373635
    ensures WordOf(0x39, 0x30, 0x31, 0x32) == 0x32313039 && WordOf(0x33, 0x34, 0x35, 0x36) == 0x36353433
    ensures WordOf(0x37, 0x38, 0x39, 0x30) == 0x30393837
  {
  }

  lemma WordsAre(s: seq<Octet>, x: Block)
    requires |s| == 64 && forall k :: 0 <= k < 16 ==> WordAt(s, k) == x[k]
    ensures Words(s) == x
  {
    hide WordAt;
  }

  lemma EmptyBlock()
    ensures Words([] + Padding(0)) == EMPTY
  {
    hide WordOf, LengthOctets, BitLength;
    var s := [] + Padding(0);
    BitLengths();
    LengthsInOctets();
    LiteralWords();
    assert s[0] == 0x80 && forall i :: 1 <= i < 64 ==> s[i] == 0;
    WordsAre(s, EMPTY);
  }

  const ABC_TEXT: seq<Octet> := [0x61, 0x62, 0x63]

  lemma AbcBlock()
    ensures Words(ABC_TEXT + Padding(3)) == ABC
  {
    hide WordOf, LengthOctets, BitLength;
    var s := ABC_TEXT + Padding(3);
    BitLengths();
    LengthsInOctets();
    LiteralWords();
    assert s[0] == 0x61 && s[1] == 0x62 && s[2] == 0x63 && s[3] == 0x80 && s[56] == 24;
    assert forall i :: 4 <= i < 64 && i != 56 ==> s[i] == 0;
    WordsAre(s, ABC);
  }

  /** The digits 1 to 9 and 0, eight times over. */
  function Eighty(): (s: seq<Octet>)
    ensures |s| == 80
  {
    seq(80, i requires 0 <= i < 80 => Figure((i + 1) % 10))
  }

  function Figure(n: nat): Octet
    requires n < 10
  {
    [0x30, 0x31, 0x32, 0x33, 0x34, 0x35, 0x36, 0x37, 0x38, 0x39][n]
  }

  lemma EightyOctets(k: nat, j: nat)
    requires k < 20 && 1 <= j <= 4
    ensures Eighty()[4 * k + j - 1] == Figure((4 * (k % 5) + j) % 10)
  {
    hide Figure;
    var m, c := k / 5, k % 5;
    assert 4 * k + j == 4 * c + j + 10 * (2 * m);
    TensDrop(4 * c + j, 2 * m);
  }

  lemma TensDrop(n: nat, m: nat)
    ensures (n + 10 * m) % 10 == n % 10
  {
  }

  /** Five words come round again and again. */
  lemma EightyWords(k: nat)
    requires k < 20
    ensures WordAt(Eighty(), k)
         == if k % 5 == 0 then 0x34333231 else if k % 5 == 1 then 0x38373635
            else if k % 5 == 2 then 0x32313039 else if k % 5 == 3 then 0x36353433 else 0x30393837
  {
    hide WordOf, Figure, Eighty;
    Figures();
    LiteralWords();
    EightyOctets(k, 1);
    EightyOctets(k, 2);
    EightyOctets(k, 3);
    EightyOctets(k, 4);
    match k % 5
    case 0 =>
    case 1 =>
    case 2 =>
    case 3 =>
    case _ =>
  }

  lemma Figures()
    ensures Figure(0) == 0x30 && Figure(1) == 0x31 && Figure(2) == 0x32 && Figure(3) == 0x33 && Figure(4) == 0x34
    ensures Figure(5) == 0x35 && Figure(6) == 0x36 && Figure(7) == 0x37 && Figure(8) == 0x38 && Figure(9) == 0x39
  {
  }

  lemma DigitsBlock()
    ensures Words(Eighty()[..64]) == DIGITS
  {
    hide WordAt, Eighty;
    forall k: nat | k < 16 ensures WordAt(Eighty()[..64], k) == DIGITS[k] {
      SameWord(Eighty(), 0, 64, k);
      EightyWords(k);
    }
    WordsAre(Eighty()[..64], DIGITS);
  }

  /** A word of a slice. */
  lemma SameWord(s: seq<Octet>, first: nat, last: nat, k: nat)
    requires first % 4 == 0 && first + 4 * k + 4 <= last <= |s|
    ensures WordAt(s[first..last], k) == WordAt(s, first / 4 + k)
  {
    hide WordOf;
  }

  lemma LastBlock()
    ensures Words(Eighty()[64..] + Padding(80)) == LAST
  {
    hide WordOf, LengthOctets, BitLength, Figure, Eighty, Words;
    var s := Eighty()[64..] + Padding(80);
    BitLengths();
    LengthsInOctets();
    assert s[16] == 0x80 && s[56] == 0x80 && s[57] == 0x02;
    assert forall i :: 17 <= i < 64 && i != 56 && i != 57 ==> s[i] == 0;
    assert s[..16] == Eighty()[64..];
    LastWords(s);
  }

  lemma LastWords(s: seq<Octet>)
    requires |s| == 64 && s[..16] == Eighty()[64..] && s[16] == 0x80 && s[56] == 0x80 && s[57] == 0x02
    requires forall i :: 17 <= i < 64 && i != 56 && i != 57 ==> s[i] == 0
    ensures Words(s) == LAST
  {
    hide WordOf, Eighty, Words;
    LiteralWords();
    forall k: nat | k < 4 ensures WordAt(s, k) == LAST[k] {
      hide WordAt, LAST;
      LastDigits(s, k);
    }
    WordsAre(s, LAST);
  }

  lemma LastDigits(s: seq<Octet>, k: nat)
    requires k < 4 && |s| == 64 && s[..16] == Eighty()[64..]
    ensures WordAt(s, k) == LAST[k]
  {
    hide WordAt, Eighty;
    SameWord(s, 0, 16, k);
    SameWord(Eighty(), 64, 80, k);
    assert Eighty()[64..80] == Eighty()[64..];
    EightyWords(16 + k);
  }

  // ---- the answers ----

  lemma HexIs(a: Word, b: Word, c: Word, d: Word, message: seq<Octet>)
    requires Digested(INITIAL, message) == Registers(a, b, c, d)
    ensures Hex(message) == HexWord(a) + HexWord(b) + HexWord(c) + HexWord(d)
  {
    hide Digested, HexText, HexWord, DigestOctets;
    HexOfDigest(a, b, c, d);
    assert [] + HexWord(a) == HexWord(a);
  }

  /** A word in hexadecimal, octet by octet. */
  lemma HexWordIs(n: Word, text: string)
    requires |text| == 8
    requires NibbleChar(n, 4) == text[0] && NibbleChar(n, 0) == text[1]
    requires NibbleChar(n, 12) == text[2] && NibbleChar(n, 8) == text[3]
    requires NibbleChar(n, 20) == text[4] && NibbleChar(n, 16) == text[5]
    requires NibbleChar(n, 28) == text[6] && NibbleChar(n, 24) == text[7]
    ensures HexWord(n) == text
  {
    hide NibbleChar;
  }

  lemma EmptyHex()
    ensures HexWord(0xd98c1dd4) == "d41d8cd9"
    ensures HexWord(0x04b2008f) == "8f00b204"
    ensures HexWord(0x980980e9) == "e9800998"
    ensures HexWord(0x7e42f8ec) == "ecf8427e"
  {
    hide HexWord;
    HexWordIs(0xd98c1dd4, "d41d8cd9");
    HexWordIs(0x04b2008f, "8f00b204");
    HexWordIs(0x980980e9, "e9800998");
    HexWordIs(0x7e42f8ec, "ecf8427e");
  }

  /** The digest of the empty message. */
  lemma EmptyAnswer()
    ensures Hex([]) == "d41d8cd98f00b204e9800998ecf8427e"
  {
    hide HexWord, Hex, Words, Compress, Padding;
    EmptyBlock();
    EmptyCompressed();
    BlocksOne(INITIAL, [] + Padding(0));
    EmptyHex();
    HexIs(0xd98c1dd4, 0x04b2008f, 0x980980e9, 0x7e42f8ec, []);
  }

  lemma AbcHex()
    ensures HexWord(0x98500190) == "90015098"
    ensures HexWord(0xb04fd23c) == "3cd24fb0"
    ensures HexWord(0x7d3f96d6) == "d6963f7d"
    ensures HexWord(0x727fe128) == "28e17f72"
  {
    hide HexWord;
    HexWordIs(0x98500190, "90015098");
    HexWordIs(0xb04fd23c, "3cd24fb0");
    HexWordIs(0x7d3f96d6, "d6963f7d");
    HexWordIs(0x727fe128, "28e17f72");
  }

  /** The digest of "abc". */
  lemma AbcAnswer()
    ensures Hex(ABC_TEXT) == "900150983cd24fb0d6963f7d28e17f72"
  {
    hide HexWord, Hex, Words, Compress, Padding;
    AbcBlock();
    AbcCompressed();
    BlocksOne(INITIAL, ABC_TEXT + Padding(3));
    AbcHex();
    HexIs(0x98500190, 0xb04fd23c, 0x7d3f96d6, 0x727fe128, ABC_TEXT);
  }

  lemma EightyHex()
    ensures HexWord(0xa2f4ed57) == "57edf4a2"
    ensures HexWord(0x55c9e32b) == "2be3c955"
    ensures HexWord(0x2eda49ac) == "ac49da2e"
    ensures HexWord(0x7ab60721) == "2107b67a"
  {
    hide HexWord;
    HexWordIs(0xa2f4ed57, "57edf4a2");
    HexWordIs(0x55c9e32b, "2be3c955");
    HexWordIs(0x2eda49ac, "ac49da2e");
    HexWordIs(0x7ab60721, "2107b67a");
  }

  /** The digest of eighty digits, which take two blocks. */
  lemma EightyAnswer()
    ensures Hex(Eighty()) == "57edf4a22be3c955ac49da2e2107b67a"
  {
    hide HexWord, Hex, Words, Compress, Padding, Eighty;
    DigitsBlock();
    DigitsCompressed();
    LastBlock();
    LastCompressed();
    assert Eighty() + Padding(80) == Eighty()[..64] + (Eighty()[64..] + Padding(80));
    BlocksStep(INITIAL, Eighty()[..64], Eighty()[64..] + Padding(80));
    BlocksOne(Compress(INITIAL, DIGITS), Eighty()[64..] + Padding(80));
    EightyHex();
    HexIs(0xa2f4ed57, 0x55c9e32b, 0x2eda49ac, 0x7ab60721, Eighty());
  }
}

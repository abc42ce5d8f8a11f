/** Known answers of the two stream ciphers and of the encodings around them. */
module CipherAnswers {
  import opened Bytes
  import opened Decks
  import opened Streams
  import opened Sapphire
  import Base64
  import Challenge
  import Passwords

  /** An exclusive or of literals, as the machine computes it. */
  lemma MachineXor(a: bv8, b: bv8, c: bv8)
    requires a ^ b == c
    ensures Xor(a as int, b as int) == c as int
  {
    hide Xor;
    XorIsMachineXor(a, b);
  }

  // ---- the cipher of the browser connection, from its fixed state ----

  const HASH1: Deck := Reversed()[1 := 248][2 := 244][7 := 253][11 := 254]

  lemma Hash1()
    ensures EncryptByte(State(Reversed(), 1, 3, 5, 7, 11), 0)
         == (State(HASH1, 2, 1, 16, 0, 239), 239)
  {
    hide Xor, Advance, Keystream;
    HashShuffle1();
    HashKeystream1();
    MachineXor(28, 243, 239);
    MachineXor(0, 239, 239);
  }

  lemma HashShuffle1()
    ensures Advance(State(Reversed(), 1, 3, 5, 7, 11))
         == State(HASH1, 2, 1, 16, 7, 11)
  {
    assert Advance(State(Reversed(), 1, 3, 5, 7, 11)).cards == HASH1;
  }

  lemma HashKeystream1()
    ensures Keystream(State(HASH1, 2, 1, 16, 7, 11)) == Xor(28, 243)
  {
    hide Xor;
  }

  const HASH2: Deck := HASH1[0 := 252][3 := 16][239 := 10][245 := 255]

  lemma Hash2()
    ensures EncryptByte(State(HASH1, 2, 1, 16, 0, 239), 0)
         == (State(HASH2, 3, 245, 255, 0, 234), 234)
  {
    hide Xor, Advance, Keystream;
    HashShuffle2();
    HashKeystream2();
    MachineXor(239, 5, 234);
    MachineXor(0, 234, 234);
  }

  lemma HashShuffle2()
    ensures Advance(State(HASH1, 2, 1, 16, 0, 239))
         == State(HASH2, 3, 245, 255, 0, 239)
  {
    assert Advance(State(HASH1, 2, 1, 16, 0, 239)).cards == HASH2;
  }

  lemma HashKeystream2()
    ensures Keystream(State(HASH2, 3, 245, 255, 0, 239)) == Xor(239, 5)
  {
    hide Xor;
  }

  const HASH3: Deck := HASH2[0 := 251][4 := 21][5 := 252][234 := 250]

  lemma Hash3()
    ensures EncryptByte(State(HASH2, 3, 245, 255, 0, 234), 0)
         == (State(HASH3, 4, 5, 233, 0, 37), 37)
  {
    hide Xor, Advance, Keystream;
    HashShuffle3();
    HashKeystream3();
    MachineXor(212, 241, 37);
    MachineXor(0, 37, 37);
  }

  lemma HashShuffle3()
    ensures Advance(State(HASH2, 3, 245, 255, 0, 234))
         == State(HASH3, 4, 5, 233, 0, 234)
  {
    assert Advance(State(HASH2, 3, 245, 255, 0, 234)).cards == HASH3;
  }

  lemma HashKeystream3()
    ensures Keystream(State(HASH3, 4, 5, 233, 0, 234)) == Xor(212, 241)
  {
    hide Xor;
  }

  /** The same state, but 1 in the place of the second byte. */
  lemma HashOther()
    ensures EncryptByte(State(HASH1, 2, 1, 16, 0, 239), 1) == (State(HASH2, 3, 245, 255, 1, 235), 235)
  {
    hide Xor;
    hide Advance, Keystream;
    Hash2();
    HashOtherXor(Keystream(Advance(State(HASH1, 2, 1, 16, 0, 239))));
  }

  lemma HashOtherXor(k: byte)
    requires Xor(0, k) == 234
    ensures Xor(1, k) == 235
  {
    XorCancel(0, k);
    XorZero(0, k);
  }

  lemma EncryptNext(st: State, b: byte, rest: seq<byte>)
    ensures var (next, out) := EncryptByte(st, b);
      var (last, later) := EncryptAll(next, rest);
      EncryptAll(st, [b] + rest) == (last, [out] + later)
  {
    hide EncryptByte;
    assert ([b] + rest)[1..] == rest;
  }

  lemma EncryptThree(st: State, a: byte, b: byte, c: byte)
    ensures var first := EncryptByte(st, a);
      var second := EncryptByte(first.0, b);
      var third := EncryptByte(second.0, c);
      EncryptAll(st, [a, b, c]) == (third.0, [first.1, second.1, third.1])
  {
    hide EncryptByte, EncryptAll;
    var first := EncryptByte(st, a);
    var second := EncryptByte(first.0, b);
    EncryptNext(st, a, [b, c]);
    EncryptNext(first.0, b, [c]);
    EncryptOne(second.0, c);
    assert [a] + [b, c] == [a, b, c] && [b] + [c] == [b, c];
    var third := EncryptByte(second.0, c);
    assert [second.1] + [third.1] == [second.1, third.1];
    assert [first.1] + [second.1, third.1] == [first.1, second.1, third.1];
  }

  /** Three bytes from the fixed state, and all five indices after two. */
  lemma HashAnswers()
    ensures EncryptAll(Keyed([]), [0, 0, 0]) == (State(HASH3, 4, 5, 233, 0, 37), [239, 234, 37])
    ensures EncryptAll(Keyed([]), [0, 1]) == (State(HASH2, 3, 245, 255, 1, 235), [239, 235])
  {
    hide EncryptByte, HASH1, HASH2, HASH3, EncryptAll;
    Hash1();
    Hash2();
    Hash3();
    HashOther();
    var s1 := State(HASH1, 2, 1, 16, 0, 239);
    EncryptThree(Keyed([]), 0, 0, 0);
    EncryptOne(s1, 1);
    EncryptNext(Keyed([]), 0, [1]);
    assert [0] + [1] == [0, 1] && [239] + [235] == [239, 235];
  }

  // ---- the key schedule ----

  /** A draw that is refused eleven times: the twelfth try takes the remainder. */
  lemma TwelfthTry()
    ensures KeyRand(Ordered(), [3], 2, 3, 0) == Drawn(1, 51, 0, 12)
  {
    hide Draw;
    Refused(0);
  }

  lemma {:induction false} Refused(tries: nat)
    requires tries <= 11
    ensures Draw(Ordered(), [3], 2, 4 * tries + 3, 0, tries) == Drawn(1, 51, 0, 12)
    decreases 11 - tries
  {
    hide Stir, Ordered;
    assert Mask(2, 1) == 3;
    ThreeStir(tries);
    if tries < 11 {
      Refused(tries + 1);
    }
  }

  lemma ThreeStir(tries: nat)
    requires tries <= 11
    ensures Stir(Ordered(), [3], 4 * tries + 3, 0) == (4 * tries + 7, 0)
  {
  }

  /** A key whose bytes, with what is added at its end, take one from the running sum at every draw. */
  predicate Descending(key: seq<byte>) {
    && 0 < |key| < 256 && key[|key| - 1] == 255 - |key|
    && forall i :: 0 <= i < |key| - 1 ==> key[i] == 255
  }

  lemma DescendingStir(key: seq<byte>, sum: byte, keypos: nat)
    requires Descending(key) && keypos < |key|
    ensures Stir(Ordered(), key, sum, keypos)
         == (ToByte(sum as int - 1), if keypos + 1 < |key| then keypos + 1 else 0)
  {
    OneLess(sum, |key|);
    assert At(Ordered(), sum) == sum;
    hide Plus, ToByte, Ordered;
  }

  /** Bytes and what wraps around once. */
  lemma Wrapped(n: int)
    ensures 0 <= n < 256 ==> ToByte(n) == n
    ensures 256 <= n < 512 ==> ToByte(n) == n - 256
    ensures -256 <= n < 0 ==> ToByte(n) == n + 256
  {
  }

  lemma OneLess(sum: byte, n: nat)
    requires n < 256
    ensures Plus(sum, 255) == ToByte(sum as int - 1)
    ensures Plus(Plus(sum, 255 - n), n) == ToByte(sum as int - 1)
  {
    hide ToByte;
    Wrapped(sum as int - 1);
    Wrapped(sum as int + 255);
    Wrapped(sum as int + 255 - n);
    Wrapped(ToByte(sum as int + 255 - n) as int + n);
  }

  lemma MaskedLimit(limit: nat)
    requires 0 < limit < 256
    ensures Masked(Mask(limit, 1), limit) == limit
  {
    hide Mask;
    Remainder(limit, Mask(limit, 1) + 1, 0, limit);
  }

  /** Such a key draws each position for itself. */
  lemma DescendingDraw(key: seq<byte>, limit: nat, sum: byte, keypos: nat)
    requires Descending(key) && keypos < |key| && 0 < limit < 256 && sum == ToByte(limit + 1)
    ensures KeyRand(Ordered(), key, limit, sum, keypos)
         == Drawn(limit, limit, if keypos + 1 < |key| then keypos + 1 else 0, 1)
  {
    hide Stir, Masked, Mask, Ordered;
    DescendingStir(key, sum, keypos);
    MaskedLimit(limit);
  }

  lemma {:induction false} DescendingDeal(key: seq<byte>, top: nat, keypos: nat)
    requires Descending(key) && keypos < |key| && 0 < top <= 256
    ensures Deal(Ordered(), key, top, ToByte(top), keypos) == (Ordered(), 1)
    decreases top
  {
    hide KeyRand;
    if top > 1 {
      SwapWithItself(Ordered(), top - 1);
      hide Ordered, Swap;
      DescendingDraw(key, top - 1, ToByte(top), keypos);
      DescendingDeal(key, top - 1, if keypos + 1 < |key| then keypos + 1 else 0);
    } else {
      hide Deal;
      LastDeal(key, keypos);
    }
  }

  lemma SwapWithItself(cards: Deck, i: nat)
    requires i < 256
    ensures Swap(cards, i, i) == cards
  {
  }

  lemma LastDeal(key: seq<byte>, keypos: nat)
    requires keypos < |key| < 256
    ensures Deal(Ordered(), key, 1, 1, keypos) == (Ordered(), 1)
  {
    hide Ordered, Swap;
    SwapWithItself(Ordered(), 0);
  }

  /** Whatever its length, it leaves the cards in order: every step of the schedule is known. */
  lemma DescendingKeyed(key: seq<byte>)
    requires Descending(key)
    ensures Keyed(key) == State(Ordered(), 1, 3, 5, 7, 1)
  {
    DescendingDeal(key, 256, 0);
    hide Deal;
  }

  const SECRET_KEY: Text := [0x68, 0x57, 0x36, 0x6D, 0x39, 0x61]

  const DEAL7: Deck := Ordered()[0 := 7][7 := 0]

  const DEAL6: Deck := DEAL7[5 := 6][6 := 5]

  const DEAL5: Deck := DEAL6[2 := 6][5 := 2]

  const DEAL4: Deck := DEAL5[3 := 4][4 := 3]

  const DEAL3: Deck := DEAL4[2 := 4][3 := 6]

  const DEAL2: Deck := DEAL3[0 := 4][2 := 7]

  lemma Draw7()
    ensures KeyRand(Ordered(), SECRET_KEY, 7, 0, 0) == Drawn(0, 104, 1, 1)
  {
    assert Mask(7, 1) == 7;
    assert Stir(Ordered(), SECRET_KEY, 0, 0) == (104, 1);
  }

  lemma Draw6()
    ensures KeyRand(DEAL7, SECRET_KEY, 6, 104, 1) == Drawn(5, 245, 3, 2)
  {
    assert Mask(6, 1) == 7;
    assert Stir(DEAL7, SECRET_KEY, 104, 1) == (191, 2);
    assert Stir(DEAL7, SECRET_KEY, 191, 2) == (245, 3);
  }

  lemma Draw5()
    ensures KeyRand(DEAL6, SECRET_KEY, 5, 245, 3) == Drawn(2, 98, 4, 1)
  {
    assert Mask(5, 1) == 7;
    assert Stir(DEAL6, SECRET_KEY, 245, 3) == (98, 4);
  }

  lemma Draw4()
    ensures KeyRand(DEAL5, SECRET_KEY, 4, 98, 4) == Drawn(3, 155, 5, 1)
  {
    assert Mask(4, 1) == 7;
    assert Stir(DEAL5, SECRET_KEY, 98, 4) == (155, 5);
  }

  lemma Draw3()
    ensures KeyRand(DEAL4, SECRET_KEY, 3, 155, 5) == Drawn(2, 2, 0, 1)
  {
    assert Mask(3, 1) == 3;
    assert Stir(DEAL4, SECRET_KEY, 155, 5) == (2, 0);
  }

  lemma Draw2()
    ensures KeyRand(DEAL3, SECRET_KEY, 2, 2, 0) == Drawn(0, 108, 1, 1)
  {
    assert Mask(2, 1) == 3;
    assert Stir(DEAL3, SECRET_KEY, 2, 0) == (108, 1);
  }

  lemma Draw1()
    ensures KeyRand(DEAL2, SECRET_KEY, 1, 108, 1) == Drawn(1, 195, 2, 1)
  {
    assert Mask(1, 1) == 1;
    assert Stir(DEAL2, SECRET_KEY, 108, 1) == (195, 2);
  }

  lemma DealSwaps()
    ensures Swap(Ordered(), 7, 0) == DEAL7
    ensures Swap(DEAL7, 6, 5) == DEAL6
    ensures Swap(DEAL6, 5, 2) == DEAL5
    ensures Swap(DEAL5, 4, 3) == DEAL4
    ensures Swap(DEAL4, 3, 2) == DEAL3
    ensures Swap(DEAL3, 2, 0) == DEAL2
    ensures Swap(DEAL2, 1, 1) == DEAL2
  {
  }

  /** The last eight cards dealt by the key of Battlefield 2: one draw is refused, and the key starts over. */
  lemma DealAnswer()
    ensures Deal(Ordered(), SECRET_KEY, 8, 0, 0) == (DEAL2, 195)
  {
    hide KeyRand, Swap, Ordered, DEAL7, DEAL6, DEAL5, DEAL4, DEAL3, DEAL2;
    Draw7();
    Draw6();
    Draw5();
    Draw4();
    Draw3();
    Draw2();
    Draw1();
    DealSwaps();
    assert Deal(Ordered(), SECRET_KEY, 8, 0, 0) == Deal(DEAL7, SECRET_KEY, 7, 104, 1);
    assert Deal(DEAL7, SECRET_KEY, 7, 104, 1) == Deal(DEAL6, SECRET_KEY, 6, 245, 3);
    assert Deal(DEAL6, SECRET_KEY, 6, 245, 3) == Deal(DEAL5, SECRET_KEY, 5, 98, 4);
    assert Deal(DEAL5, SECRET_KEY, 5, 98, 4) == Deal(DEAL4, SECRET_KEY, 4, 155, 5);
    assert Deal(DEAL4, SECRET_KEY, 4, 155, 5) == Deal(DEAL3, SECRET_KEY, 3, 2, 0);
    assert Deal(DEAL3, SECRET_KEY, 3, 2, 0) == Deal(DEAL2, SECRET_KEY, 2, 108, 1);
    assert Deal(DEAL2, SECRET_KEY, 2, 108, 1) == Deal(DEAL2, SECRET_KEY, 1, 195, 2);
    hide Deal;
    LastDealAt(DEAL2, SECRET_KEY, 195, 2);
  }

  lemma LastDealAt(cards: Deck, key: seq<byte>, rsum: byte, keypos: nat)
    requires keypos < |key| < 256
    ensures Deal(cards, key, 1, rsum, keypos) == (cards, rsum)
  {
    hide Swap;
    SwapWithItself(cards, 0);
  }

  // ---- a keyed connection ----

  /** Six bytes from the state that any descending key sets up. */

  const OPEN1: Deck := Ordered()[1 := 4][2 := 1][4 := 7][7 := 2]

  lemma Open1()
    ensures EncryptByte(State(Ordered(), 1, 3, 5, 7, 1), 127)
         == (State(OPEN1, 2, 4, 9, 127, 120), 120)
  {
    hide Xor, Advance, Keystream;
    OpenShuffle1();
    OpenKeystream1();
    MachineXor(10, 13, 7);
    MachineXor(127, 7, 120);
  }

  lemma OpenShuffle1()
    ensures Advance(State(Ordered(), 1, 3, 5, 7, 1))
         == State(OPEN1, 2, 4, 9, 7, 1)
  {
    assert Advance(State(Ordered(), 1, 3, 5, 7, 1)).cards == OPEN1;
  }

  lemma OpenKeystream1()
    ensures Keystream(State(OPEN1, 2, 4, 9, 7, 1)) == Xor(10, 13)
  {
    hide Xor;
  }

  const OPEN2: Deck := OPEN1[3 := 120][5 := 127][120 := 5][127 := 3]

  lemma Open2()
    ensures EncryptByte(State(OPEN1, 2, 4, 9, 127, 120), 0)
         == (State(OPEN2, 3, 5, 14, 0, 1), 1)
  {
    hide Xor, Advance, Keystream;
    OpenShuffle2();
    OpenKeystream2();
    MachineXor(134, 135, 1);
    MachineXor(0, 1, 1);
  }

  lemma OpenShuffle2()
    ensures Advance(State(OPEN1, 2, 4, 9, 127, 120))
         == State(OPEN2, 3, 5, 14, 127, 120)
  {
    assert Advance(State(OPEN1, 2, 4, 9, 127, 120)).cards == OPEN2;
  }

  lemma OpenKeystream2()
    ensures Keystream(State(OPEN2, 3, 5, 14, 127, 120)) == Xor(134, 135)
  {
    hide Xor;
  }

  const OPEN3: Deck := OPEN2[0 := 7][1 := 125][4 := 4][125 := 0]

  lemma Open3()
    ensures EncryptByte(State(OPEN2, 3, 5, 14, 0, 1), 0)
         == (State(OPEN3, 4, 125, 18, 0, 146), 146)
  {
    hide Xor, Advance, Keystream;
    OpenShuffle3();
    OpenKeystream3();
    MachineXor(22, 132, 146);
    MachineXor(0, 146, 146);
  }

  lemma OpenShuffle3()
    ensures Advance(State(OPEN2, 3, 5, 14, 0, 1))
         == State(OPEN3, 4, 125, 18, 0, 1)
  {
    assert Advance(State(OPEN2, 3, 5, 14, 0, 1)).cards == OPEN3;
  }

  lemma OpenKeystream3()
    ensures Keystream(State(OPEN3, 4, 125, 18, 0, 1)) == Xor(22, 132)
  {
    hide Xor;
  }

  const OPEN4: Deck := OPEN3[0 := 127][5 := 146][129 := 7][146 := 129]

  lemma Open4()
    ensures EncryptByte(State(OPEN3, 4, 125, 18, 0, 146), 1)
         == (State(OPEN4, 5, 129, 147, 1, 37), 37)
  {
    hide Xor, Advance, Keystream;
    OpenShuffle4();
    OpenKeystream4();
    MachineXor(37, 1, 36);
    MachineXor(1, 36, 37);
  }

  lemma OpenShuffle4()
    ensures Advance(State(OPEN3, 4, 125, 18, 0, 146))
         == State(OPEN4, 5, 129, 147, 0, 146)
  {
    assert Advance(State(OPEN3, 4, 125, 18, 0, 146)).cards == OPEN4;
  }

  lemma OpenKeystream4()
    ensures Keystream(State(OPEN4, 5, 129, 147, 0, 146)) == Xor(37, 1)
  {
    hide Xor;
  }

  const OPEN5: Deck := OPEN4[1 := 6][6 := 37][19 := 125][37 := 19]

  lemma Open5()
    ensures EncryptByte(State(OPEN4, 5, 129, 147, 1, 37), 25)
         == (State(OPEN5, 6, 19, 166, 25, 68), 68)
  {
    hide Xor, Advance, Keystream;
    OpenShuffle5();
    OpenKeystream5();
    MachineXor(203, 150, 93);
    MachineXor(25, 93, 68);
  }

  lemma OpenShuffle5()
    ensures Advance(State(OPEN4, 5, 129, 147, 1, 37))
         == State(OPEN5, 6, 19, 166, 1, 37)
  {
    assert Advance(State(OPEN4, 5, 129, 147, 1, 37)).cards == OPEN5;
  }

  lemma OpenKeystream5()
    ensures Keystream(State(OPEN5, 6, 19, 166, 1, 37)) == Xor(203, 150)
  {
    hide Xor;
  }

  const OPEN6: Deck := OPEN5[7 := 68][25 := 2][56 := 25][68 := 56]

  lemma Open6()
    ensures EncryptByte(State(OPEN5, 6, 19, 166, 25, 68), 100)
         == (State(OPEN6, 7, 56, 222, 100, 21), 21)
  {
    hide Xor, Advance, Keystream;
    OpenShuffle6();
    OpenKeystream6();
    MachineXor(34, 83, 113);
    MachineXor(100, 113, 21);
  }

  lemma OpenShuffle6()
    ensures Advance(State(OPEN5, 6, 19, 166, 25, 68))
         == State(OPEN6, 7, 56, 222, 25, 68)
  {
    assert Advance(State(OPEN5, 6, 19, 166, 25, 68)).cards == OPEN6;
  }

  lemma OpenKeystream6()
    ensures Keystream(State(OPEN6, 7, 56, 222, 25, 68)) == Xor(34, 83)
  {
    hide Xor;
  }

  /** Whatever its length, a descending key encrypts an address and a port to these six bytes. */
  lemma DescendingAnswer(key: seq<byte>)
    requires Descending(key)
    ensures EncryptAll(Keyed(key), [127, 0, 0, 1, 25, 100]).1 == [120, 1, 146, 37, 68, 21]
  {
    hide EncryptByte, EncryptAll, Keyed, Descending, OPEN1, OPEN2, OPEN3, OPEN4, OPEN5, OPEN6, Ordered;
    DescendingKeyed(key);
    FirstThree();
    LastThree();
    EncryptConcat(State(Ordered(), 1, 3, 5, 7, 1), [127, 0, 0], [1, 25, 100]);
    assert [127, 0, 0] + [1, 25, 100] == [127, 0, 0, 1, 25, 100];
    assert [120, 1, 146] + [37, 68, 21] == [120, 1, 146, 37, 68, 21];
  }

  lemma FirstThree()
    ensures EncryptAll(State(Ordered(), 1, 3, 5, 7, 1), [127, 0, 0])
         == (State(OPEN3, 4, 125, 18, 0, 146), [120, 1, 146])
  {
    hide EncryptByte, EncryptAll, OPEN1, OPEN2, OPEN3, Ordered;
    Open1();
    Open2();
    Open3();
    EncryptThree(State(Ordered(), 1, 3, 5, 7, 1), 127, 0, 0);
  }

  lemma LastThree()
    ensures EncryptAll(State(OPEN3, 4, 125, 18, 0, 146), [1, 25, 100]).1 == [37, 68, 21]
  {
    hide EncryptByte, EncryptAll, OPEN3, OPEN4, OPEN5, OPEN6;
    Open4();
    Open5();
    Open6();
    EncryptThree(State(OPEN3, 4, 125, 18, 0, 146), 1, 25, 100);
  }

  // ---- the keyed encoding of a challenge ----

  /** The first character from ordered cards, for every character: its place and twice that place. */
  lemma FirstCharacter(c: byte)
    ensures Challenge.EncodeByte(Challenge.Box(Ordered(), 0, 0), c).1 == Xor(c, ToByte(2 * c + 2))
  {
    hide Xor;
    SwapWithItself(Ordered(), ToByte(c + 1));
  }

  /** Keys that make every step but the last one swap a card with itself. */
  predicate Steady(key: Text) {
    |key| == 256 && key[0] == 0 && forall i :: 1 <= i < 255 ==> key[i] == ToByte(1 - i)
  }

  lemma {:induction false} SteadySchedule(key: Text, count: nat)
    requires Steady(key) && count <= 255
    ensures Challenge.Scheduled(key, count) == Challenge.Box(Ordered(), count, if count == 0 then 0 else count - 1)
  {
    hide Swap, ToByte;
    if count > 0 {
      SteadySchedule(key, count - 1);
      SteadyStep(key, count - 1);
    }
  }

  lemma SteadyStep(key: Text, i: nat)
    requires Steady(key) && i < 255
    ensures var box := Challenge.Box(Ordered(), i, if i == 0 then 0 else i - 1);
      Challenge.ScheduleStep(box, key) == Challenge.Box(Ordered(), i + 1, i)
  {
    hide Swap;
    SwapWithItself(Ordered(), i);
    if i > 0 {
      assert (i - 1 + i + ToByte(1 - i) as int) % 256 == i;
    }
  }

  /** All 256 steps of the key schedule, whatever the last byte of such a key. */
  lemma SteadyScheduled(key: Text)
    requires Steady(key)
    ensures Challenge.Scheduled(key, 256).cards == Swap(Ordered(), 255, ToByte(key[255] as int - 3))
  {
    hide Swap, Ordered, ToByte, Challenge.ScheduleStep;
    SteadySchedule(key, 255);
    SteadyLast(key);
  }

  lemma SteadyLast(key: Text)
    requires |key| == 256
    ensures Challenge.ScheduleStep(Challenge.Box(Ordered(), 255, 254), key).cards
         == Swap(Ordered(), 255, ToByte(key[255] as int - 3))
  {
    hide Swap;
    assert Ordered()[255] == 255;
    assert (509 + key[255] as int) % 256 == ToByte(key[255] as int - 3);
  }

  /** A key is read over and over: twice the same key is the same key. */
  lemma {:induction false} RepeatedKey(key: Text, count: nat)
    requires key != []
    ensures Challenge.Scheduled(key + key, count) == Challenge.Scheduled(key, count)
  {
    hide Challenge.ScheduleStep;
    if count > 0 {
      RepeatedKey(key, count - 1);
      RepeatedStep(key, Challenge.Scheduled(key, count - 1));
    }
  }

  lemma RepeatedStep(key: Text, box: Challenge.Box)
    requires key != []
    ensures Challenge.ScheduleStep(box, key + key) == Challenge.ScheduleStep(box, key)
  {
    hide Swap, ToByte;
    RepeatedAt(key, box.i);
  }

  lemma RepeatedAt(key: Text, i: nat)
    requires key != []
    ensures (key + key)[i % |key + key|] == key[i % |key|]
  {
    var n := |key|;
    var r := i % (2 * n);
    TwicePeriod(i, n);
    if r < n {
      Remainder(r, n, 0, r);
    } else {
      Remainder(r, n, 1, r - n);
    }
  }

  lemma {:induction false} TwicePeriod(i: nat, n: nat)
    requires n > 0
    ensures i % (2 * n) % n == i % n
  {
    var m := 2 * n;
    if i < m {
      Remainder(i, m, 0, i);
    } else {
      TwicePeriod(i - m, n);
      OnePeriod(i - m, m);
      OnePeriod(i - m, n);
      OnePeriod(i - n, n);
    }
  }

  lemma OnePeriod(x: nat, n: nat)
    requires n > 0
    ensures (x + n) % n == x % n
  {
    var d, r := x / n, x % n;
    assert x + n == n * (d + 1) + r;
    Remainder(x + n, n, d + 1, r);
  }

  lemma Remainder(x: nat, n: nat, q: nat, r: nat)
    requires r < n && x == n * q + r
    ensures x % n == r
  {
    var d := x / n;
    if d > q {
      Product(n, q, d - q);
    } else if d < q {
      Product(n, d, q - d);
    }
  }

  lemma Product(n: nat, q: nat, k: nat)
    requires k > 0
    ensures n * (q + k) >= n * q + n
  {
    assert n * (q + k) == n * q + n * k;
    assert n * k == n * (k - 1) + n;
  }

  const BOX1: Deck := Ordered()[0 := 104][104 := 0]

  const BOX2: Deck := BOX1[1 := 192][192 := 1]

  const BOX3: Deck := BOX2[2 := 248][248 := 2]

  const BOX4: Deck := BOX3[3 := 0][104 := 3]

  const BOX5: Deck := BOX4[4 := 165][165 := 4]

  const BOX6: Deck := BOX5[5 := 11][11 := 5]

  const BOX7: Deck := BOX6[6 := 121][121 := 6]

  const BOX8: Deck := BOX7[7 := 215][215 := 7]

  lemma BoxStep1()
    ensures Challenge.ScheduleStep(Challenge.Box(Ordered(), 0, 0), SECRET_KEY) == Challenge.Box(BOX1, 1, 104)
  {
    assert Swap(Ordered(), 0, 104) == BOX1;
  }

  lemma BoxStep2()
    ensures Challenge.ScheduleStep(Challenge.Box(BOX1, 1, 104), SECRET_KEY) == Challenge.Box(BOX2, 2, 192)
  {
    assert Swap(BOX1, 1, 192) == BOX2;
  }

  lemma BoxStep3()
    ensures Challenge.ScheduleStep(Challenge.Box(BOX2, 2, 192), SECRET_KEY) == Challenge.Box(BOX3, 3, 248)
  {
    assert Swap(BOX2, 2, 248) == BOX3;
  }

  lemma BoxStep4()
    ensures Challenge.ScheduleStep(Challenge.Box(BOX3, 3, 248), SECRET_KEY) == Challenge.Box(BOX4, 4, 104)
  {
    assert Swap(BOX3, 3, 104) == BOX4;
  }

  lemma BoxStep5()
    ensures Challenge.ScheduleStep(Challenge.Box(BOX4, 4, 104), SECRET_KEY) == Challenge.Box(BOX5, 5, 165)
  {
    assert Swap(BOX4, 4, 165) == BOX5;
  }

  lemma BoxStep6()
    ensures Challenge.ScheduleStep(Challenge.Box(BOX5, 5, 165), SECRET_KEY) == Challenge.Box(BOX6, 6, 11)
  {
    assert Swap(BOX5, 5, 11) == BOX6;
  }

  lemma BoxStep7()
    ensures Challenge.ScheduleStep(Challenge.Box(BOX6, 6, 11), SECRET_KEY) == Challenge.Box(BOX7, 7, 121)
  {
    assert Swap(BOX6, 6, 121) == BOX7;
  }

  lemma BoxStep8()
    ensures Challenge.ScheduleStep(Challenge.Box(BOX7, 7, 121), SECRET_KEY) == Challenge.Box(BOX8, 8, 215)
  {
    assert Swap(BOX7, 7, 215) == BOX8;
  }

  /** Eight steps with the key of Battlefield 2, which has six characters. */
  lemma ScheduleAnswer()
    ensures Challenge.Scheduled(SECRET_KEY, 8) == Challenge.Box(BOX8, 8, 215)
  {
    hide Challenge.ScheduleStep, BOX1, BOX2, BOX3, BOX4, BOX5, BOX6, BOX7, BOX8, Ordered;
    assert Challenge.Scheduled(SECRET_KEY, 0) == Challenge.Box(Ordered(), 0, 0);
    BoxStep1();
    assert Challenge.Scheduled(SECRET_KEY, 1) == Challenge.Box(BOX1, 1, 104);
    BoxStep2();
    assert Challenge.Scheduled(SECRET_KEY, 2) == Challenge.Box(BOX2, 2, 192);
    BoxStep3();
    assert Challenge.Scheduled(SECRET_KEY, 3) == Challenge.Box(BOX3, 3, 248);
    BoxStep4();
    assert Challenge.Scheduled(SECRET_KEY, 4) == Challenge.Box(BOX4, 4, 104);
    BoxStep5();
    assert Challenge.Scheduled(SECRET_KEY, 5) == Challenge.Box(BOX5, 5, 165);
    BoxStep6();
    assert Challenge.Scheduled(SECRET_KEY, 6) == Challenge.Box(BOX6, 6, 11);
    BoxStep7();
    assert Challenge.Scheduled(SECRET_KEY, 7) == Challenge.Box(BOX7, 7, 121);
    BoxStep8();
    assert Challenge.Scheduled(SECRET_KEY, 8) == Challenge.Box(BOX8, 8, 215);
  }

  /** A key whose last step swaps the first and the last card, and a message that meets both. */
  lemma EncodeAnswer(key: Text)
    requires Steady(key) && key[255] == 3
    ensures Challenge.Encode(key, [0xFF, 0x41, 0x42]) == Ascii("AMIJ")
  {
    hide Challenge.EncodeByte, Challenge.Scheduled, Swap, Base64.Encode, Ascii, Ordered;
    SteadyScheduled(key);
    SteadyBytes();
    EncodeThree(Challenge.Box(Swap(Ordered(), 255, 0), 0, 0), 0xFF, 0x41, 0x42);
    SteadyLetters();
  }

  lemma EncodeThree(box: Challenge.Box, a: byte, b: byte, c: byte)
    ensures var first := Challenge.EncodeByte(box, a);
      var second := Challenge.EncodeByte(first.0, b);
      var third := Challenge.EncodeByte(second.0, c);
      Run(Challenge.EncodeByte, box, [a, b, c]).1 == [first.1, second.1, third.1]
  {
    hide Challenge.EncodeByte;
    var first := Challenge.EncodeByte(box, a);
    var second := Challenge.EncodeByte(first.0, b);
    RunConcat(Challenge.EncodeByte, box, [a], [b, c]);
    RunConcat(Challenge.EncodeByte, first.0, [b], [c]);
    RunOne(Challenge.EncodeByte, box, a);
    RunOne(Challenge.EncodeByte, first.0, b);
    RunOne(Challenge.EncodeByte, second.0, c);
    assert [a] + [b, c] == [a, b, c] && [b] + [c] == [b, c];
  }

  lemma SteadyLetters()
    ensures Base64.Encode([0, 194, 9]) == Ascii("AMIJ")
  {
  }

  lemma SteadyBytes()
    ensures var box := Challenge.Box(Swap(Ordered(), 255, 0), 0, 0);
      var first := Challenge.EncodeByte(box, 0xFF);
      var second := Challenge.EncodeByte(first.0, 0x41);
      var third := Challenge.EncodeByte(second.0, 0x42);
      first.1 == 0 && second.1 == 194 && third.1 == 9
  {
    hide Challenge.EncodeByte, Swap, Ordered;
    SteadyFirst();
    SteadySecond();
    SteadyThird();
  }

  lemma SteadyFirst()
    ensures Challenge.EncodeByte(Challenge.Box(Swap(Ordered(), 255, 0), 0, 0), 0xFF)
         == (Challenge.Box(Ordered(), 0, 255), 0)
  {
    hide Xor;
    MachineXor(0xFF, 255, 0);
    assert Swap(Swap(Ordered(), 255, 0), 0, 255) == Ordered();
  }

  lemma SteadySecond()
    ensures Challenge.EncodeByte(Challenge.Box(Ordered(), 0, 255), 0x41)
         == (Challenge.Box(Swap(Ordered(), 66, 65), 66, 65), 194)
  {
    hide Xor;
    MachineXor(0x41, 131, 194);
  }

  lemma SteadyThird()
    ensures Challenge.EncodeByte(Challenge.Box(Swap(Ordered(), 66, 65), 66, 65), 0x42).1 == 9
  {
    hide Xor;
    MachineXor(0x42, 75, 9);
  }

  /** The sixteen upper-case digits: where their two runs begin and end, and that they are runs. */
  lemma HexDigitAnswers(d: nat)
    requires d < 16
    ensures Challenge.HexDigit(0) == '0' as int && Challenge.HexDigit(9) == '9' as int
    ensures Challenge.HexDigit(10) == 'A' as int && Challenge.HexDigit(15) == 'F' as int
    ensures d < 15 && d != 9 ==> Challenge.HexDigit(d + 1) as int == Challenge.HexDigit(d) as int + 1
  {
  }

  /** The text a server has to encode: prefix, backend, address 127.0.0.1 and port 29000, in columns. */
  lemma ResponseAnswer()
    ensures Challenge.ResponseData(Ascii("ABCDEFG"), 0, 0x7F00_0001, 29000) == Ascii("ABCDEFG 07F0000017148")
  {
    hide Challenge.HexField, Ascii;
    FieldAnswers();
    AddressAnswer();
    assert "ABCDEFG" + " 0" + "7F000001" + "7148" == "ABCDEFG 07F0000017148";
    AsciiConcat("ABCDEFG", " 0");
    AsciiConcat("ABCDEFG" + " 0", "7F000001");
    AsciiConcat("ABCDEFG" + " 0" + "7F000001", "7148");
  }

  lemma AsciiConcat(s: string, t: string)
    ensures Ascii(s + t) == Ascii(s) + Ascii(t)
  {
  }

  lemma FieldAnswers()
    ensures Challenge.HexField(0, 2) == Ascii(" 0") && Challenge.HexField(29000, 4) == Ascii("7148")
  {
    PortDigits();
    assert Challenge.Hex(0) == [0x30];
    hide Challenge.Hex;
  }

  lemma PortDigits()
    ensures Challenge.Hex(29000) == [0x37, 0x31, 0x34, 0x38]
  {
    assert Challenge.Hex(7) == [0x37];
    HexNext(0x7, 1);
    HexNext(0x71, 4);
    HexNext(0x714, 8);
    hide Challenge.Hex;
  }

  lemma AddressAnswer()
    ensures Challenge.HexField(0x7F00_0001, 8) == Ascii("7F000001")
  {
    HighDigits();
    hide Challenge.Hex;
    LastDigits();
  }

  lemma HighDigits()
    ensures Challenge.Hex(0x7F00) == [0x37, 0x46, 0x30, 0x30]
  {
    assert Challenge.Hex(7) == [0x37];
    HexNext(0x7, 15);
    HexNext(0x7F, 0);
    HexNext(0x7F0, 0);
    hide Challenge.Hex;
  }

  lemma LastDigits()
    requires Challenge.Hex(0x7F00) == [0x37, 0x46, 0x30, 0x30]
    ensures Challenge.Hex(0x7F00_0001) == [0x37, 0x46, 0x30, 0x30, 0x30, 0x30, 0x30, 0x31]
  {
    HexNext(0x7F00, 0);
    HexNext(0x7_F000, 0);
    HexNext(0x7F_0000, 0);
    HexNext(0x7F0_0000, 1);
    hide Challenge.Hex;
  }

  lemma HexNext(n: nat, d: nat)
    requires n > 0 && d < 16
    ensures Challenge.Hex(16 * n + d) == Challenge.Hex(n) + [Challenge.HexDigit(d)]
  {
  }

  // ---- base-64 and passwords ----

  /** The alphabet of table 1 of RFC 4648: where its four runs begin and end, and that they are runs. */
  lemma LetterAnswers(v: nat)
    ensures Base64.Letter(0) == 'A' as int && Base64.Letter(25) == 'Z' as int
    ensures Base64.Letter(26) == 'a' as int && Base64.Letter(51) == 'z' as int
    ensures Base64.Letter(52) == '0' as int && Base64.Letter(61) == '9' as int
    ensures Base64.Letter(62) == '+' as int && Base64.Letter(63) == '/' as int
    ensures v < 61 && v != 25 && v != 51 ==> Base64.Letter(v + 1) as int == Base64.Letter(v) as int + 1
  {
  }

  const FOOBAR: Text := [0x66, 0x6F, 0x6F, 0x62, 0x61, 0x72]

  lemma GroupF()
    ensures Base64.GroupLetters([0x66]) == [0x5A, 0x67, 0x3D, 0x3D]
  {
  }

  lemma GroupFo()
    ensures Base64.GroupLetters([0x66, 0x6F]) == [0x5A, 0x6D, 0x38, 0x3D]
  {
  }

  lemma GroupFoo()
    ensures Base64.GroupLetters([0x66, 0x6F, 0x6F]) == [0x5A, 0x6D, 0x39, 0x76]
  {
  }

  lemma GroupB()
    ensures Base64.GroupLetters([0x62]) == [0x59, 0x67, 0x3D, 0x3D]
  {
  }

  lemma GroupBa()
    ensures Base64.GroupLetters([0x62, 0x61]) == [0x59, 0x6D, 0x45, 0x3D]
  {
  }

  lemma GroupBar()
    ensures Base64.GroupLetters([0x62, 0x61, 0x72]) == [0x59, 0x6D, 0x46, 0x79]
  {
  }

  lemma Texts()
    ensures Ascii("Zg==") == [0x5A, 0x67, 0x3D, 0x3D]
    ensures Ascii("Zm8=") == [0x5A, 0x6D, 0x38, 0x3D]
    ensures Ascii("Zm9v") == [0x5A, 0x6D, 0x39, 0x76]
  {
  }

  lemma MoreTexts()
    ensures Ascii("Yg==") == [0x59, 0x67, 0x3D, 0x3D]
    ensures Ascii("YmE=") == [0x59, 0x6D, 0x45, 0x3D]
    ensures Ascii("YmFy") == [0x59, 0x6D, 0x46, 0x79]
  {
  }

  lemma FirstGroup(s: Text)
    requires |s| > 3
    ensures Base64.Encode(s) == Base64.GroupLetters(s[..3]) + Base64.Encode(s[3..])
  {
    hide Base64.Letter, Base64.Sextets;
    assert Base64.FirstSextets(s) == Base64.FirstSextets(s[..3]);
  }

  lemma SecondGroup(s: Text)
    requires 4 <= |s| <= 6
    ensures Base64.Encode(s) == Base64.GroupLetters(s[..3]) + Base64.GroupLetters(s[3..])
  {
    hide Base64.GroupLetters;
    FirstGroup(s);
  }

  /** The test vectors of section 10 of RFC 4648. */
  lemma Base64Answers()
    ensures Base64.Encode(FOOBAR[..0]) == Ascii("")
    ensures Base64.Encode(FOOBAR[..1]) == Ascii("Zg==") && Base64.Encode(FOOBAR[..2]) == Ascii("Zm8=")
    ensures Base64.Encode(FOOBAR[..3]) == Ascii("Zm9v") && Base64.Encode(FOOBAR[..4]) == Ascii("Zm9vYg==")
    ensures Base64.Encode(FOOBAR[..5]) == Ascii("Zm9vYmE=") && Base64.Encode(FOOBAR[..6]) == Ascii("Zm9vYmFy")
  {
    hide Base64.GroupLetters, Ascii;
    Texts();
    MoreTexts();
    GroupF();
    GroupFo();
    GroupFoo();
    GroupB();
    GroupBa();
    GroupBar();
    assert FOOBAR[..1] == [0x66] && FOOBAR[..2] == [0x66, 0x6F] && FOOBAR[..3] == [0x66, 0x6F, 0x6F];
    assert FOOBAR[..4][3..] == [0x62] && FOOBAR[..5][3..] == [0x62, 0x61] && FOOBAR[..6][3..] == [0x62, 0x61, 0x72];
    assert FOOBAR[..4][..3] == FOOBAR[..3] && FOOBAR[..5][..3] == FOOBAR[..3] && FOOBAR[..6][..3] == FOOBAR[..3];
    SecondGroup(FOOBAR[..4]);
    SecondGroup(FOOBAR[..5]);
    SecondGroup(FOOBAR[..6]);
    assert "Zm9v" + "Yg==" == "Zm9vYg==" && "Zm9v" + "YmE=" == "Zm9vYmE=" && "Zm9v" + "YmFy" == "Zm9vYmFy";
    AsciiConcat("Zm9v", "Yg==");
    AsciiConcat("Zm9v", "YmE=");
    AsciiConcat("Zm9v", "YmFy");
    assert |Ascii("")| == 0;
  }

  lemma NextDraw(n: nat, x: nat, y: nat)
    requires Passwords.Generator(n) == x && y == x * 16807 % 2147483647
    ensures Passwords.Generator(n + 1) == y
  {
  }

  lemma Draws()
    ensures Passwords.Generator(1) == 1168682362 && Passwords.Generator(2) == 1159022672
    ensures Passwords.Generator(3) == 2017370014 && Passwords.Generator(4) == 1466006462
    ensures Passwords.Generator(5) == 1090724803 && Passwords.Generator(6) == 891353229
    ensures Passwords.Generator(7) == 127798331 && Passwords.Generator(8) == 422902117
  {
    assert Passwords.Generator(0) == 0x7970_7367;
    hide Passwords.Generator;
    NextDraw(0, 2037412711, 1168682362);
    NextDraw(1, 1168682362, 1159022672);
    NextDraw(2, 1159022672, 2017370014);
    NextDraw(3, 2017370014, 1466006462);
    NextDraw(4, 1466006462, 1090724803);
    NextDraw(5, 1090724803, 891353229);
    NextDraw(6, 891353229, 127798331);
    NextDraw(7, 127798331, 422902117);
  }

  /** The first eight bytes of the keystream, of the generator that C++ calls `minstd_rand0`. */
  lemma KeyBytes()
    ensures Passwords.KeyByte(0) == 22 && Passwords.KeyByte(1) == 242 && Passwords.KeyByte(2) == 244
    ensures Passwords.KeyByte(3) == 242 && Passwords.KeyByte(4) == 43 && Passwords.KeyByte(5) == 219
    ensures Passwords.KeyByte(6) == 236 && Passwords.KeyByte(7) == 172
  {
    hide Passwords.Generator;
    Draws();
  }

  /** The password "y5dQdBWZ", whose base-64 text holds all three characters that are disguised. */
  lemma PasswordAnswer()
    ensures Passwords.PassEncode(Ascii("y5dQdBWZ")) == Ascii("b8eQo0[Zu]Y_")
  {
    hide Passwords.GsPassEnc, Base64.Encode, Passwords.Disguise, Ascii;
    KeystreamAnswer();
    PasswordLetters();
    Disguised();
  }

  lemma KeystreamAnswer()
    ensures Passwords.GsPassEnc(Ascii("y5dQdBWZ")) == [111, 199, 144, 163, 79, 153, 187, 246]
  {
    hide Xor, Passwords.KeyByte;
    KeyBytes();
    MachineXor(0x79, 22, 111);
    MachineXor(0x35, 242, 199);
    MachineXor(0x64, 244, 144);
    MachineXor(0x51, 242, 163);
    MachineXor(0x64, 43, 79);
    MachineXor(0x42, 219, 153);
    MachineXor(0x57, 236, 187);
    MachineXor(0x5A, 172, 246);
  }

  lemma PasswordLetters()
    ensures Base64.Encode([111, 199, 144, 163, 79, 153, 187, 246]) == Ascii("b8eQo0+Zu/Y=")
  {
    hide Base64.GroupLetters, Base64.Encode;
    var s: Text := [111, 199, 144, 163, 79, 153, 187, 246];
    assert s[..3] == [111, 199, 144] && s[3..] == [163, 79, 153, 187, 246];
    assert s[3..][..3] == [163, 79, 153] && s[3..][3..] == [187, 246];
    FirstGroup(s);
    SecondGroup(s[3..]);
    FirstLetters();
    MiddleLetters();
    LastLetters();
  }

  lemma FirstLetters()
    ensures Base64.GroupLetters([111, 199, 144]) == [0x62, 0x38, 0x65, 0x51]
  {
  }

  lemma MiddleLetters()
    ensures Base64.GroupLetters([163, 79, 153]) == [0x6F, 0x30, 0x2B, 0x5A]
  {
  }

  lemma LastLetters()
    ensures Base64.GroupLetters([187, 246]) == [0x75, 0x2F, 0x59, 0x3D]
  {
  }

  lemma Disguised()
    ensures Passwords.Disguise(Ascii("b8eQo0+Zu/Y=")) == Ascii("b8eQo0[Zu]Y_")
  {
  }
}

/**
 The Sapphire II stream cipher as the server browser uses it: a deck of 256
 cards that is reshuffled for every byte, and five bytes of index state.
 */
module Sapphire {
  import opened Bytes
  import opened Decks
  import opened Streams

  // ---- one byte of the stream ----

  datatype State = State(cards: Deck, rotor: byte, ratchet: byte, avalanche: byte, lastPlain: byte, lastCipher: byte)

  /** The reshuffle before each byte: three transpositions, whatever indices coincide. */
  function Advance(st: State): State {
    var ratchet := Plus(st.ratchet, At(st.cards, st.rotor));
    var rotor := Plus(st.rotor, 1);
    var once := Swap(st.cards, st.lastCipher, ratchet);
    var twice := Swap(once, ratchet, st.lastPlain);
    var cards := Swap(twice, st.lastPlain, rotor);
    State(cards, rotor, ratchet, Plus(st.avalanche, At(cards, At(cards, rotor))), st.lastPlain, st.lastCipher)
  }

  /** The keystream byte of an advanced state; it does not depend on the message byte. */
  function Keystream(st: State): byte {
    Xor(At(st.cards, Plus(At(st.cards, st.avalanche), At(st.cards, st.rotor))),
        At(st.cards, At(st.cards,
          Plus(Plus(At(st.cards, st.lastPlain), At(st.cards, st.lastCipher)), At(st.cards, st.ratchet)))))
  }

  function Fed(st: State, plain: byte, cipher: byte): State {
    st.(lastPlain := plain, lastCipher := cipher)
  }

  function EncryptByte(st: State, plain: byte): (State, byte) {
    var next := Advance(st);
    var cipher := Xor(plain, Keystream(next));
    (Fed(next, plain, cipher), cipher)
  }

  function DecryptByte(st: State, cipher: byte): (State, byte) {
    var next := Advance(st);
    var plain := Xor(cipher, Keystream(next));
    (Fed(next, plain, cipher), plain)
  }

  // ---- whole messages ----

  function EncryptAll(st: State, plain: seq<byte>): (State, seq<byte>) {
    Run(EncryptByte, st, plain)
  }

  function DecryptAll(st: State, cipher: seq<byte>): (State, seq<byte>) {
    Run(DecryptByte, st, cipher)
  }

  /** One byte: decryption from an equal state gives the byte back and the same next state. */
  lemma DecryptByteInverts(st: State, plain: byte)
    ensures DecryptByte(st, EncryptByte(st, plain).1) == (EncryptByte(st, plain).0, plain)
  {
    hide Advance, Keystream, Xor;
    XorCancel(plain, Keystream(Advance(st)));
  }

  /** Decryption from an equal state undoes encryption and leaves the two ciphers equal. */
  lemma DecryptEncrypt(st: State, plain: seq<byte>)
    ensures DecryptAll(st, EncryptAll(st, plain).1) == (EncryptAll(st, plain).0, plain)
  {
    hide EncryptByte, DecryptByte;
    forall s, b: byte ensures DecryptByte(s, EncryptByte(s, b).1) == (EncryptByte(s, b).0, b) {
      DecryptByteInverts(s, b);
    }
    RunInverse(EncryptByte, DecryptByte, st, plain);
  }

  /** Encrypting buffer after buffer with one cipher is encrypting their concatenation. */
  lemma EncryptConcat(st: State, a: seq<byte>, b: seq<byte>)
    ensures var (mid, first) := EncryptAll(st, a);
            var (last, second) := EncryptAll(mid, b);
            EncryptAll(st, a + b) == (last, first + second)
  {
    hide EncryptByte;
    RunConcat(EncryptByte, st, a, b);
  }

  lemma EncryptOne(st: State, plain: byte)
    ensures EncryptAll(st, [plain]) == (EncryptByte(st, plain).0, [EncryptByte(st, plain).1])
  {
    hide EncryptByte;
    RunOne(EncryptByte, st, plain);
  }

  lemma EncryptKeepsShuffled(st: State, b: byte)
    requires Shuffled(st.cards)
    ensures Shuffled(EncryptByte(st, b).0.cards)
    ensures Shuffled(DecryptByte(st, b).0.cards)
  {
    hide Swap, Shuffled, Keystream;
    var ratchet := Plus(st.ratchet, At(st.cards, st.rotor));
    SwapShuffled(st.cards, st.lastCipher, ratchet);
    var once := Swap(st.cards, st.lastCipher, ratchet);
    SwapShuffled(once, ratchet, st.lastPlain);
    SwapShuffled(Swap(once, ratchet, st.lastPlain), st.lastPlain, Plus(st.rotor, 1));
  }

  /** The deck is still a permutation after any message, in either direction. */
  lemma StreamKeepsShuffled(st: State, message: seq<byte>)
    requires Shuffled(st.cards)
    ensures Shuffled(EncryptAll(st, message).0.cards)
    ensures Shuffled(DecryptAll(st, message).0.cards)
  {
    hide EncryptByte, DecryptByte, Shuffled;
    forall s: State, b: byte | Shuffled(s.cards)
      ensures Shuffled(EncryptByte(s, b).0.cards) && Shuffled(DecryptByte(s, b).0.cards)
    {
      EncryptKeepsShuffled(s, b);
    }
    RunKeeps(EncryptByte, (s: State) => Shuffled(s.cards), st, message);
    RunKeeps(DecryptByte, (s: State) => Shuffled(s.cards), st, message);
  }

  // ---- the key schedule ----

  /** The narrowest run of one bits, starting from `mask`, that covers `limit`. */
  function Mask(limit: nat, mask: nat): (m: nat)
    requires mask > 0
    ensures m >= limit && m >= mask
    decreases limit - mask
  {
    if mask < limit then Mask(limit, 2 * mask + 1) else mask
  }

  /** Eight doublings at most: the mask of a byte-sized limit is a run of low one bits. */
  lemma {:induction false} MaskFits(limit: nat, mask: nat)
    requires limit < 256 && mask in {1, 3, 7, 15, 31, 63, 127, 255}
    ensures Mask(limit, mask) in {1, 3, 7, 15, 31, 63, 127, 255}
    decreases 255 - mask
  {
    if mask < limit {
      MaskFits(limit, 2 * mask + 1);
    }
  }

  /** A draw: the value, the key cursor after it, and how often the deck was consulted. */
  datatype Drawn = Drawn(value: nat, rsum: byte, keypos: nat, draws: nat)

  /** The running sum and key position after one look at the deck. */
  function Stir(cards: Deck, key: seq<byte>, rsum: byte, keypos: nat): (byte, nat)
    requires keypos < |key| < 256
  {
    var sum := Plus(At(cards, rsum), key[keypos]);
    if keypos + 1 >= |key| then (Plus(sum, |key|), 0) else (sum, keypos + 1)
  }

  /** `mask & sum` for a mask of low one bits. */
  function Masked(mask: nat, sum: byte): nat {
    sum % (mask + 1)
  }

  /** The remainder is the machine's bitwise and, for every mask `keyrand` builds. */
  lemma MaskedIsMachineAnd(mask: bv8, sum: bv8)
    requires mask as int in {1, 3, 7, 15, 31, 63, 127, 255}
    ensures (mask & sum) as int == Masked(mask as int, sum as int)
  {
    if mask == 1 {
      MachineAnd1(sum);
    } else if mask == 3 {
      MachineAnd3(sum);
    } else if mask == 7 {
      MachineAnd7(sum);
    } else if mask == 15 {
      MachineAnd15(sum);
    } else if mask == 31 {
      MachineAnd31(sum);
    } else if mask == 63 {
      MachineAnd63(sum);
    } else if mask == 127 {
      MachineAnd127(sum);
    } else {
      MachineAnd255(sum);
      assert mask == 255;
    }
  }

  lemma MachineAnd1(sum: bv8)
    ensures (1 & sum) as int == sum as int % 2
  {
  }

  lemma MachineAnd3(sum: bv8)
    ensures (3 & sum) as int == sum as int % 4
  {
  }

  lemma MachineAnd7(sum: bv8)
    ensures (7 & sum) as int == sum as int % 8
  {
  }

  lemma MachineAnd15(sum: bv8)
    ensures (15 & sum) as int == sum as int % 16
  {
  }

  lemma MachineAnd31(sum: bv8)
    ensures (31 & sum) as int == sum as int % 32
  {
  }

  lemma MachineAnd63(sum: bv8)
    ensures (63 & sum) as int == sum as int % 64
  {
  }

  lemma MachineAnd127(sum: bv8)
    ensures (127 & sum) as int == sum as int % 128
  {
  }

  lemma MachineAnd255(sum: bv8)
    ensures (255 & sum) as int == sum as int % 256
  {
  }

  /** Rejection sampling below `limit`, falling back to a remainder at the twelfth try. */
  function Draw(cards: Deck, key: seq<byte>, limit: nat, rsum: byte, keypos: nat, tries: nat): (d: Drawn)
    requires 0 < limit < 256 && keypos < |key| < 256 && tries <= 11
    ensures d.value <= limit && d.keypos < |key| && tries < d.draws <= 12
    decreases 12 - tries
  {
    var (sum, pos) := Stir(cards, key, rsum, keypos);
    var masked := Masked(Mask(limit, 1), sum);
    var value := if tries + 1 > 11 then masked % limit else masked;
    if value > limit then Draw(cards, key, limit, sum, pos, tries + 1)
    else Drawn(value, sum, pos, tries + 1)
  }

  /** `keyrand`: zero needs no draw. */
  function KeyRand(cards: Deck, key: seq<byte>, limit: nat, rsum: byte, keypos: nat): (d: Drawn)
    requires limit < 256 && keypos < |key| < 256
    ensures d.value <= limit && d.keypos < |key| && d.draws <= 12
  {
    if limit == 0 then Drawn(0, rsum, keypos, 0)
    else Draw(cards, key, limit, rsum, keypos, 0)
  }

  /** Deals positions `top - 1` down to 0: each is swapped with a drawn position not above it. */
  function Deal(cards: Deck, key: seq<byte>, top: nat, rsum: byte, keypos: nat): (Deck, byte)
    requires top <= 256 && keypos < |key| < 256
    decreases top
  {
    if top == 0 then (cards, rsum)
    else
      var d := KeyRand(cards, key, top - 1, rsum, keypos);
      Deal(Swap(cards, top - 1, d.value), key, top - 1, d.rsum, d.keypos)
  }

  /** The state a key sets up; the empty key gives the fixed hash state. */
  function Keyed(key: seq<byte>): State
    requires |key| < 256
  {
    if key == [] then State(Reversed(), 1, 3, 5, 7, 11)
    else
      var (cards, rsum) := Deal(Ordered(), key, 256, 0, 0);
      State(cards, cards[1], cards[3], cards[5], cards[7], At(cards, rsum))
  }

  lemma {:induction false} DealKeepsShuffled(cards: Deck, key: seq<byte>, top: nat, rsum: byte, keypos: nat)
    requires top <= 256 && keypos < |key| < 256 && Shuffled(cards)
    ensures Shuffled(Deal(cards, key, top, rsum, keypos).0)
    decreases top
  {
    if top > 0 {
      var d := KeyRand(cards, key, top - 1, rsum, keypos);
      SwapShuffled(cards, top - 1, d.value);
      DealKeepsShuffled(Swap(cards, top - 1, d.value), key, top - 1, d.rsum, d.keypos);
    }
  }

  /** Every key sets up a permutation of the 256 cards. */
  lemma KeyedShuffled(key: seq<byte>)
    requires |key| < 256
    ensures Shuffled(Keyed(key).cards)
  {
    if key != [] {
      assert Shuffled(Ordered());
      DealKeepsShuffled(Ordered(), key, 256, 0, 0);
    } else {
      ReversePermutes(Ordered(), Reversed());
    }
  }

  // ---- the cipher object ----

  /** Moving cards through one hole, in the order of the code, is three transpositions. */
  lemma MovesAreSwaps(cards: Deck, a: int, b: int, c: int, d: int)
    requires 0 <= a < 256 && 0 <= b < 256 && 0 <= c < 256 && 0 <= d < 256
    ensures var m1 := cards[a := cards[b]];
            var m2 := m1[b := m1[c]];
            var m3 := m2[c := m2[d]];
            m3[d := cards[a]] == Swap(Swap(Swap(cards, a, b), b, c), c, d)
  {
  }

  class Cipher {
    const cards: array<byte>
    var rotor: byte
    var ratchet: byte
    var avalanche: byte
    var lastPlain: byte
    var lastCipher: byte

    ghost predicate Valid()
      reads this, cards
    {
      cards.Length == 256 && Shuffled(cards[..])
    }

    ghost function Value(): State
      reads this, cards
      requires cards.Length == 256
    {
      State(cards[..], rotor, ratchet, avalanche, lastPlain, lastCipher)
    }

    constructor (key: seq<byte>)
      requires |key| < 256
      ensures fresh(cards) && Valid() && Value() == Keyed(key)
    {
      cards := new byte[256];
      new;
      Initialize(key);
    }

    method KeyRandom(limit: nat, key: seq<byte>, rsum: byte, keypos: nat)
      returns (u: nat, newSum: byte, newPos: nat, draws: nat)
      requires cards.Length == 256 && limit < 256 && keypos < |key| < 256
      ensures Drawn(u, newSum, newPos, draws) == KeyRand(cards[..], key, limit, rsum, keypos)
    {
      newSum, newPos := rsum, keypos;
      if limit == 0 {
        return 0, newSum, newPos, 0;
      }
      var retryLimiter := 0;
      var mask := 1;
      while mask < limit
        invariant mask > 0 && Mask(limit, mask) == Mask(limit, 1)
      {
        mask := mask * 2 + 1;
      }
      u := limit + 1;
      while u > limit
        invariant newPos < |key|
        invariant u > limit ==> retryLimiter <= 11
        invariant u > limit ==>
          Draw(cards[..], key, limit, newSum, newPos, retryLimiter) == KeyRand(cards[..], key, limit, rsum, keypos)
        invariant u <= limit ==> Drawn(u, newSum, newPos, retryLimiter) == KeyRand(cards[..], key, limit, rsum, keypos)
        decreases if u > limit then 12 - retryLimiter else -1
      {
        newSum := Plus(cards[newSum], key[newPos]);
        newPos := newPos + 1;
        if newPos >= |key| {
          newPos := 0;
          newSum := Plus(newSum, |key|);
        }
        u := Masked(mask, newSum);
        retryLimiter := retryLimiter + 1;
        if retryLimiter > 11 {
          u := u % limit;
        }
      }
      draws := retryLimiter;
    }

    method HashInit()
      requires cards.Length == 256
      modifies this`rotor, this`ratchet, this`avalanche, this`lastPlain, this`lastCipher, cards
      ensures Valid() && Value() == Keyed([])
    {
      rotor, ratchet, avalanche, lastPlain, lastCipher := 1, 3, 5, 7, 11;
      var j := 255;
      for i := 0 to 256
        invariant j == 255 - i
        invariant (rotor, ratchet, avalanche, lastPlain, lastCipher) == (1, 3, 5, 7, 11)
        invariant forall k :: 0 <= k < i ==> cards[k] == Reversed()[k]
      {
        cards[i] := j;
        j := j - 1;
      }
      assert cards[..] == Reversed();
      KeyedShuffled([]);
    }

    method Initialize(key: seq<byte>)
      requires cards.Length == 256 && |key| < 256
      modifies this`rotor, this`ratchet, this`avalanche, this`lastPlain, this`lastCipher, cards
      ensures Valid() && Value() == Keyed(key)
    {
      hide Deal, Ordered, Reversed, Shuffled;
      if |key| < 1 {
        HashInit();
        return;
      }
      OrderCards();
      var rsum := DealCards(key);
      ghost var dealt := Deal(Ordered(), key, 256, 0, 0);
      assert dealt == (cards[..], rsum);
      rotor := cards[1];
      ratchet := cards[3];
      avalanche := cards[5];
      lastPlain := cards[7];
      lastCipher := cards[rsum];
      KeyedShuffled(key);
    }

    method OrderCards()
      requires cards.Length == 256
      modifies cards
      ensures cards[..] == Ordered()
    {
      for i := 0 to 256
        invariant forall k :: 0 <= k < i ==> cards[k] == Ordered()[k]
      {
        cards[i] := i;
      }
    }

    /** Swaps the card at each position, from the last down, with a drawn one. */
    method DealCards(key: seq<byte>) returns (rsum: byte)
      requires cards.Length == 256 && 0 < |key| < 256
      modifies cards
      ensures (cards[..], rsum) == Deal(old(cards[..]), key, 256, 0, 0)
    {
      hide KeyRand;
      var keypos: nat;
      keypos, rsum := 0, 0;
      for i := 256 downto 0
        invariant keypos < |key|
        invariant Deal(cards[..], key, i, rsum, keypos) == Deal(old(cards[..]), key, 256, 0, 0)
      {
        ghost var before := cards[..];
        var toswap, newSum, newPos, draws := KeyRandom(i, key, rsum, keypos);
        rsum, keypos := newSum, newPos;
        var swaptemp := cards[i];
        cards[i] := cards[toswap];
        cards[toswap] := swaptemp;
        assert cards[..] == Swap(before, i, toswap);
      }
    }

    /** The five in-place moves that `encrypt` and `decrypt` share. */
    method Shuffle()
      requires Valid()
      modifies this`rotor, this`ratchet, this`avalanche, cards
      ensures cards.Length == 256 && Value() == Advance(old(Value()))
    {
      hide Shuffled, Swap;
      ratchet := Plus(ratchet, cards[rotor]);
      rotor := Plus(rotor, 1);
      ghost var before := cards[..];
      MovesAreSwaps(before, lastCipher, ratchet, lastPlain, rotor);
      var swaptemp := cards[lastCipher];
      cards[lastCipher] := cards[ratchet];
      assert cards[..] == before[lastCipher := before[ratchet]];
      ghost var once := cards[..];
      cards[ratchet] := cards[lastPlain];
      assert cards[..] == once[ratchet := once[lastPlain]];
      ghost var twice := cards[..];
      cards[lastPlain] := cards[rotor];
      assert cards[..] == twice[lastPlain := twice[rotor]];
      ghost var thrice := cards[..];
      cards[rotor] := swaptemp;
      assert cards[..] == thrice[rotor := swaptemp];
      assert swaptemp == At(cards[..], rotor);
      avalanche := Plus(avalanche, cards[swaptemp]);
      ghost var st := old(Value());
      assert st.cards == before;
      assert Plus(st.ratchet, At(st.cards, st.rotor)) == ratchet;
      assert Plus(st.rotor, 1) == rotor;
    }

    method Encrypt(b: byte) returns (r: byte)
      requires Valid()
      modifies this`rotor, this`ratchet, this`avalanche, this`lastPlain, this`lastCipher, cards
      ensures Valid() && (Value(), r) == EncryptByte(old(Value()), b)
    {
      hide Advance, Shuffled, Plus, Xor;
      EncryptKeepsShuffled(Value(), b);
      Shuffle();
      XorAssoc(b, cards[Plus(cards[avalanche], cards[rotor])],
        cards[cards[Plus(Plus(cards[lastPlain], cards[lastCipher]), cards[ratchet])]]);
      lastCipher := Xor(Xor(b, cards[Plus(cards[avalanche], cards[rotor])]),
        cards[cards[Plus(Plus(cards[lastPlain], cards[lastCipher]), cards[ratchet])]]);
      lastPlain := b;
      r := lastCipher;
    }

    method Decrypt(b: byte) returns (r: byte)
      requires Valid()
      modifies this`rotor, this`ratchet, this`avalanche, this`lastPlain, this`lastCipher, cards
      ensures Valid() && (Value(), r) == DecryptByte(old(Value()), b)
    {
      hide Advance, Shuffled, Plus, Xor;
      EncryptKeepsShuffled(Value(), b);
      Shuffle();
      XorAssoc(b, cards[Plus(cards[avalanche], cards[rotor])],
        cards[cards[Plus(Plus(cards[lastPlain], cards[lastCipher]), cards[ratchet])]]);
      lastPlain := Xor(Xor(b, cards[Plus(cards[avalanche], cards[rotor])]),
        cards[cards[Plus(Plus(cards[lastPlain], cards[lastCipher]), cards[ratchet])]]);
      lastCipher := b;
      r := lastPlain;
    }

    /** Overwrites a whole buffer with its encryption, element by element. */
    method EncryptRange(buffer: array<byte>)
      requires Valid() && buffer != cards
      modifies this`rotor, this`ratchet, this`avalanche, this`lastPlain, this`lastCipher, cards, buffer
      ensures Valid() && (Value(), buffer[..]) == EncryptAll(old(Value()), old(buffer[..]))
    {
      hide EncryptByte, Shuffled;
      ghost var plain := buffer[..];
      ghost var st := Value();
      for i := 0 to buffer.Length
        invariant Valid()
        invariant buffer[i..] == plain[i..]
        invariant (Value(), buffer[..i]) == EncryptAll(st, plain[..i])
      {
        ghost var mid := Value();
        ghost var done := buffer[..i];
        var c := Encrypt(buffer[i]);
        buffer[i] := c;
        EncryptConcat(st, plain[..i], [plain[i]]);
        EncryptOne(mid, plain[i]);
        assert plain[..i + 1] == plain[..i] + [plain[i]];
        assert buffer[..i + 1] == done + [c];
      }
      assert plain[..buffer.Length] == plain;
      assert buffer[..buffer.Length] == buffer[..];
    }
  }
}

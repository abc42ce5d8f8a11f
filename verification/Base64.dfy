/** The two base-64 conversions of the helper library; decoding strips all trailing zero bytes. */
module Base64 {
  import opened Bytes

  const PAD: byte := 0x3D
  const PLUS: byte := 0x2B
  const SLASH: byte := 0x2F

  /** The alphabet of section 4 of RFC 4648. */
  function Letter(v: nat): byte
    requires v < 64
  {
    if v < 26 then 0x41 + v
    else if v < 52 then 0x61 + (v - 26)
    else if v < 62 then 0x30 + (v - 52)
    else if v == 62 then PLUS
    else SLASH
  }

  /** The lookup of the decoder; padding counts as zero, other characters are refused. */
  function Lookup(c: byte): (v: Option<nat>)
    ensures v.Some? ==> v.value < 64
  {
    if 0x41 <= c <= 0x5A then Some(c - 0x41)
    else if 0x61 <= c <= 0x7A then Some(c - 0x61 + 26)
    else if 0x30 <= c <= 0x39 then Some(c - 0x30 + 52)
    else if c == PLUS then Some(62)
    else if c == SLASH then Some(63)
    else if c == PAD then Some(0)
    else None
  }

  /** The first, second, third and fourth six bits of three bytes. */
  function Sextets(p: byte, q: byte, r: byte): (x: (nat, nat, nat, nat))
    ensures x.0 < 64 && x.1 < 64 && x.2 < 64 && x.3 < 64
  {
    (p / 4, p % 4 * 16 + q as int / 16, q % 16 * 4 + r as int / 64, r % 64)
  }

  /** A byte of a group; what is missing counts as zero. */
  function Nth(s: seq<byte>, i: nat): byte {
    if i < |s| then s[i] else 0
  }

  function FirstSextets(s: seq<byte>): (x: (nat, nat, nat, nat))
    ensures x.0 < 64 && x.1 < 64 && x.2 < 64 && x.3 < 64
  {
    Sextets(Nth(s, 0), Nth(s, 1), Nth(s, 2))
  }

  /** The letters of the first group; those that carry no bit of it are padding. */
  function GroupLetters(s: seq<byte>): (t: Text)
    requires s != []
    ensures |t| == 4
  {
    var x := FirstSextets(s);
    [Letter(x.0), Letter(x.1), if |s| > 1 then Letter(x.2) else PAD, if |s| > 2 then Letter(x.3) else PAD]
  }

  /** Four letters for every group of three bytes. */
  function Encode(s: seq<byte>): (t: Text)
    ensures |t| == (|s| + 2) / 3 * 4
  {
    if s == [] then []
    else if |s| <= 3 then GroupLetters(s)
    else GroupLetters(s) + Encode(s[3..])
  }

  /** Three bytes from the four six-bit values of a group. */
  function Group(a: nat, b: nat, c: nat, d: nat): (s: seq<byte>)
    requires a < 64 && b < 64 && c < 64 && d < 64
    ensures |s| == 3
  {
    [a * 4 + b / 16, b % 16 * 16 + c / 4, c % 4 * 64 + d]
  }

  /** All bytes the groups stand for; leftover bits are dropped, a lone leftover character is refused. */
  function Raw(t: Text): Option<seq<byte>>
    decreases |t|
  {
    if t == [] then Some([])
    else if |t| == 1 then None
    else
      var a, b := Lookup(t[0]), Lookup(t[1]);
      var c := if |t| > 2 then Lookup(t[2]) else Some(0);
      var d := if |t| > 3 then Lookup(t[3]) else Some(0);
      if a.None? || b.None? || c.None? || d.None? then None
      else
        var group := Group(a.value, b.value, c.value, d.value);
        if |t| < 4 then Some(group[..|t| - 1])
        else
          var rest := Raw(t[4..]);
          if rest.None? then None else Some(group + rest.value)
  }

  /** Without its trailing zero bytes. */
  function TrimRight(s: seq<byte>): (t: seq<byte>)
    ensures t <= s
    ensures t == [] || t[|t| - 1] != 0
    ensures forall i :: |t| <= i < |s| ==> s[i] == 0
  {
    if s != [] && s[|s| - 1] == 0 then TrimRight(s[..|s| - 1]) else s
  }

  function Decode(t: Text): Option<seq<byte>> {
    var raw := Raw(t);
    if raw.None? then None else Some(TrimRight(raw.value))
  }

  lemma LookupLetter(v: nat)
    requires v < 64
    ensures Lookup(Letter(v)) == Some(v) && Letter(v) != PAD
  {
  }

  function Zeros(n: nat): seq<byte> {
    seq(n, _ => 0)
  }

  /** How many zero bytes the padding of an encoded text decodes to. */
  function Missing(n: nat): nat {
    (3 - n % 3) % 3
  }

  lemma FirstByte(p: byte, q: byte)
    ensures p / 4 * 4 + (p % 4 * 16 + q as int / 16) / 16 == p
  {
  }

  lemma SecondByte(p: byte, q: byte, r: byte)
    ensures (p % 4 * 16 + q as int / 16) % 16 * 16 + (q % 16 * 4 + r as int / 64) / 4 == q
  {
    assert (p % 4 * 16 + q as int / 16) % 16 == q as int / 16;
    assert (q % 16 * 4 + r as int / 64) / 4 == q % 16;
  }

  lemma ThirdByte(q: byte, r: byte)
    ensures (q % 16 * 4 + r as int / 64) % 4 * 64 + r % 64 == r
  {
    assert (q % 16 * 4 + r as int / 64) % 4 == r as int / 64;
  }

  /** Four letters carry three bytes. */
  lemma GroupOfBytes(p: byte, q: byte, r: byte)
    ensures var x := Sextets(p, q, r); Group(x.0, x.1, x.2, x.3) == [p, q, r]
  {
    FirstByte(p, q);
    SecondByte(p, q, r);
    ThirdByte(q, r);
  }

  /** Padding stands in the place of letters for zero. */
  lemma SextetsOfMissing(p: byte, q: byte)
    ensures Sextets(p, 0, 0).2 == 0 && Sextets(p, q, 0).3 == 0
  {
  }

  lemma RawGroup(t: Text, a: nat, b: nat, c: nat, d: nat)
    requires |t| >= 4 && a < 64 && b < 64 && c < 64 && d < 64
    requires Lookup(t[0]) == Some(a) && Lookup(t[1]) == Some(b) && Lookup(t[2]) == Some(c) && Lookup(t[3]) == Some(d)
    requires Raw(t[4..]).Some?
    ensures Raw(t) == Some(Group(a, b, c, d) + Raw(t[4..]).value)
  {
    hide Lookup, Group;
  }

  /** The first group of an encoded text carries the first three bytes, or what there is of them. */
  lemma RawFirst(s: seq<byte>)
    requires s != [] && Raw(Encode(s)[4..]).Some?
    ensures Raw(Encode(s)) == Some([Nth(s, 0), Nth(s, 1), Nth(s, 2)] + Raw(Encode(s)[4..]).value)
  {
    hide Lookup, Group, Raw, Sextets, Nth, GroupLetters;
    var x := FirstSextets(s);
    GroupOfBytes(Nth(s, 0), Nth(s, 1), Nth(s, 2));
    EncodeRest(s);
    LettersLookedUp(s);
    RawGroup(Encode(s), x.0, x.1, x.2, x.3);
  }

  /** Every letter of the first group stands for its six bits; padding stands for zero. */
  lemma LettersLookedUp(s: seq<byte>)
    requires s != []
    ensures var t, x := GroupLetters(s), FirstSextets(s);
      && Lookup(t[0]) == Some(x.0) && Lookup(t[1]) == Some(x.1)
      && Lookup(t[2]) == Some(x.2) && Lookup(t[3]) == Some(x.3)
  {
    hide Letter, Lookup, Sextets;
    var x := FirstSextets(s);
    SextetsOfMissing(Nth(s, 0), Nth(s, 1));
    PadIsZero();
    LookupLetter(x.0);
    LookupLetter(x.1);
    LookupLetter(x.2);
    LookupLetter(x.3);
  }

  lemma EncodeRest(s: seq<byte>)
    requires s != []
    ensures Encode(s)[..4] == GroupLetters(s)
    ensures Encode(s)[4..] == if |s| > 3 then Encode(s[3..]) else []
  {
    hide GroupLetters;
  }

  lemma LastGroup(s: seq<byte>)
    requires 0 < |s| <= 3
    ensures [Nth(s, 0), Nth(s, 1), Nth(s, 2)] == s + Zeros(Missing(|s|))
  {
    assert Missing(|s|) == 3 - |s|;
  }

  lemma FullGroup(s: seq<byte>)
    requires |s| > 3
    ensures [Nth(s, 0), Nth(s, 1), Nth(s, 2)] + (s[3..] + Zeros(Missing(|s| - 3))) == s + Zeros(Missing(|s|))
  {
    assert Missing(|s| - 3) == Missing(|s|);
  }

  /** Decoding undoes encoding up to the zero bytes that padding stands for. */
  lemma {:induction false} RawEncode(s: seq<byte>)
    ensures Raw(Encode(s)) == Some(s + Zeros(Missing(|s|)))
    decreases |s|
  {
    RawNothing();
    if s == [] {
      assert s + Zeros(Missing(0)) == [];
    } else {
      EncodeRest(s);
      hide Raw, Encode, Zeros, Missing, Nth;
      if |s| > 3 {
        RawEncode(s[3..]);
        RawFirst(s);
        FullGroup(s);
      } else {
        RawFirst(s);
        LastGroup(s);
        assert forall g: seq<byte> :: g + [] == g;
      }
    }
  }

  lemma RawNothing()
    ensures Raw([]) == Some([])
  {
  }

  lemma PadIsZero()
    ensures Lookup(PAD) == Some(0)
  {
  }

  lemma {:induction false} TrimRightZeros(s: seq<byte>, n: nat)
    ensures TrimRight(s + Zeros(n)) == TrimRight(s)
  {
    if n > 0 {
      assert (s + Zeros(n))[..|s| + n - 1] == s + Zeros(n - 1);
      TrimRightZeros(s, n - 1);
    } else {
      assert s + Zeros(0) == s;
    }
  }

  /** A round trip loses exactly the trailing zero bytes. */
  lemma DecodeEncode(s: seq<byte>)
    ensures Decode(Encode(s)) == Some(TrimRight(s))
  {
    RawEncode(s);
    TrimRightZeros(s, Missing(|s|));
  }

  predicate Alphabetic(c: byte) {
    0x41 <= c <= 0x5A || 0x61 <= c <= 0x7A || 0x30 <= c <= 0x39 || c == PLUS || c == SLASH
  }

  lemma GroupLettersText(s: seq<byte>)
    requires s != []
    ensures forall i :: 0 <= i < 4 ==> Alphabetic(GroupLetters(s)[i]) || GroupLetters(s)[i] == PAD
    ensures PAD in GroupLetters(s) <==> |s| < 3
  {
    hide Alphabetic, Letter, FirstSextets;
    var x := FirstSextets(s);
    LetterAlphabetic(x.0);
    LetterAlphabetic(x.1);
    LetterAlphabetic(x.2);
    LetterAlphabetic(x.3);
  }

  /** Encoded text is alphabetic up to its padding, and has padding exactly when there is a part of a group. */
  lemma {:induction false} EncodedText(s: seq<byte>)
    ensures forall i :: 0 <= i < |Encode(s)| ==> Alphabetic(Encode(s)[i]) || Encode(s)[i] == PAD
    ensures PAD in Encode(s) <==> |s| % 3 != 0
    decreases |s|
  {
    hide Alphabetic, GroupLetters;
    if s != [] {
      GroupLettersText(s);
      if |s| > 3 {
        EncodedText(s[3..]);
      }
    }
  }

  lemma LetterAlphabetic(v: nat)
    requires v < 64
    ensures Alphabetic(Letter(v)) && Letter(v) != PAD
  {
  }
}

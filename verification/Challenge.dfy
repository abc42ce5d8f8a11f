/** The challenge a game server has to answer, and the keyed encoding that is the expected answer. */
module Challenge {
  import opened Bytes
  import opened Decks
  import opened Streams
  import Base64

  // ---- the keyed encoding ----

  datatype Box = Box(cards: Deck, i: byte, j: byte)

  /** One swap of the key schedule. */
  function ScheduleStep(box: Box, key: Text): Box
    requires key != []
  {
    var j := (box.j + box.cards[box.i] as int + key[box.i % |key|] as int) % 256;
    Box(Swap(box.cards, box.i, j), ToByte(box.i + 1), j)
  }

  function Scheduled(key: Text, count: nat): Box
    requires key != []
  {
    if count == 0 then Box(Ordered(), 0, 0) else ScheduleStep(Scheduled(key, count - 1), key)
  }

  /** One character; the first index moves by the clear character, which makes this differ from RC4. */
  function EncodeByte(box: Box, c: byte): (Box, byte) {
    var i := (box.i + c as int + 1) % 256;
    var j := (box.j + box.cards[i] as int) % 256;
    var cards := Swap(box.cards, i, j);
    (Box(cards, i, j), Xor(c, cards[(cards[i] as int + cards[j] as int) % 256]))
  }

  function Keystreamed(key: Text, message: Text): (t: Text)
    requires key != []
    ensures |t| == |message|
  {
    Run(EncodeByte, Scheduled(key, 256).(i := 0, j := 0), message).1
  }

  function Encode(key: Text, message: Text): Text
    requires key != []
  {
    Base64.Encode(Keystreamed(key, message))
  }

  /** The box stays a permutation through the key schedule. */
  lemma {:induction false} ScheduledShuffled(key: Text, count: nat)
    requires key != []
    ensures Shuffled(Scheduled(key, count).cards)
  {
    hide Swap, Shuffled, Ordered;
    if count > 0 {
      ScheduledShuffled(key, count - 1);
      var box := Scheduled(key, count - 1);
      SwapShuffled(box.cards, box.i, Scheduled(key, count).j);
    } else {
      OrderedShuffled();
    }
  }

  lemma OrderedShuffled()
    ensures Shuffled(Ordered())
  {
  }

  lemma EncodeByteShuffled(box: Box, c: byte)
    requires Shuffled(box.cards)
    ensures Shuffled(EncodeByte(box, c).0.cards)
  {
    hide Swap, Shuffled, Xor;
    var i := (box.i + c as int + 1) % 256;
    SwapShuffled(box.cards, i, (box.j + box.cards[i] as int) % 256);
  }

  /** The box stays a permutation through any message. */
  lemma EncodedShuffled(box: Box, message: Text)
    requires Shuffled(box.cards)
    ensures Shuffled(Run(EncodeByte, box, message).0.cards)
  {
    hide EncodeByte, Shuffled;
    forall b: Box, c: byte | Shuffled(b.cards) ensures Shuffled(EncodeByte(b, c).0.cards) {
      EncodeByteShuffled(b, c);
    }
    RunKeeps(EncodeByte, (b: Box) => Shuffled(b.cards), box, message);
  }

  /** The encoder works in place on its box and on the message. */
  method EncodeInPlace(key: Text, message: array<byte>) returns (text: Text)
    requires key != []
    modifies message
    ensures message[..] == Keystreamed(key, old(message[..]))
    ensures text == Encode(key, old(message[..]))
  {
    hide EncodeByte, Ordered, Shuffled, Base64.Encode;
    var sbox := ScheduleKey(key);
    ghost var clear := message[..];
    ghost var start := Scheduled(key, 256).(i := 0, j := 0);
    var i: byte, j: byte := 0, 0;
    for at := 0 to message.Length
      invariant message[at..] == clear[at..]
      invariant Shuffled(sbox[..])
      invariant (Box(sbox[..], i, j), message[..at]) == Run(EncodeByte, start, clear[..at])
    {
      ghost var box, done := Box(sbox[..], i, j), message[..at];
      var c := message[at];
      EncodeByteShuffled(box, c);
      i, j, c := Step(sbox, i, j, c);
      message[at] := c;
      RunConcat(EncodeByte, start, clear[..at], [clear[at]]);
      RunOne(EncodeByte, box, clear[at]);
      assert clear[..at + 1] == clear[..at] + [clear[at]];
      assert message[..at + 1] == done + [c];
    }
    assert clear[..message.Length] == clear && message[..message.Length] == message[..];
    text := Base64.Encode(message[..]);
  }

  method Step(sbox: array<byte>, i: byte, j: byte, c: byte) returns (i': byte, j': byte, c': byte)
    requires sbox.Length == 256
    modifies sbox
    ensures (Box(sbox[..], i', j'), c') == EncodeByte(old(Box(sbox[..], i, j)), c)
  {
    hide Xor;
    i' := (i as int + c as int + 1) % 256;
    j' := (j as int + sbox[i'] as int) % 256;
    sbox[i'], sbox[j'] := sbox[j'], sbox[i'];
    assert sbox[..] == Swap(old(sbox[..]), i', j');
    c' := Xor(c, sbox[(sbox[i'] as int + sbox[j'] as int) % 256]);
  }

  method ScheduleKey(key: Text) returns (sbox: array<byte>)
    requires key != []
    ensures fresh(sbox) && sbox.Length == 256
    ensures sbox[..] == Scheduled(key, 256).cards && Shuffled(sbox[..])
  {
    hide Shuffled;
    sbox := new byte[256];
    for i := 0 to 256
      invariant forall k :: 0 <= k < i ==> sbox[k] == Ordered()[k]
    {
      sbox[i] := i;
    }
    assert sbox[..] == Ordered();
    Mix(key, sbox);
    ScheduledShuffled(key, 256);
  }

  method Mix(key: Text, sbox: array<byte>)
    requires key != [] && sbox.Length == 256 && sbox[..] == Ordered()
    modifies sbox
    ensures sbox[..] == Scheduled(key, 256).cards
  {
    hide Ordered, ScheduleStep;
    var j: byte := 0;
    for i := 0 to 256
      invariant Scheduled(key, i) == Box(sbox[..], ToByte(i), j)
    {
      assert ToByte(i) == i;
      j := MixStep(key, sbox, i, j);
    }
  }

  method MixStep(key: Text, sbox: array<byte>, i: byte, j: byte) returns (j': byte)
    requires key != [] && sbox.Length == 256
    modifies sbox
    ensures Box(sbox[..], ToByte(i + 1), j') == ScheduleStep(old(Box(sbox[..], i, j)), key)
  {
    j' := (j as int + sbox[i] as int + key[i % |key|] as int) % 256;
    sbox[i], sbox[j'] := sbox[j'], sbox[i];
    assert sbox[..] == Swap(old(sbox[..]), i, j');
  }

  // ---- the challenge text ----

  const SPACE: byte := 0x20
  const PREFIX_LENGTH := 7

  function HexDigit(d: nat): byte
    requires d < 16
  {
    if d < 10 then 0x30 + d else 0x41 + (d - 10)
  }

  /** An unsigned number in upper-case hexadecimal, without leading zeros. */
  function Hex(n: nat): (t: Text)
    ensures |t| > 0
  {
    if n < 16 then [HexDigit(n)] else Hex(n / 16) + [HexDigit(n % 16)]
  }

  function Spaces(n: nat): (t: Text)
    ensures |t| == n
  {
    seq(n, _ => SPACE)
  }

  /** The format {:wX}: right-aligned in a field of at least `width` characters. */
  function HexField(n: nat, width: nat): Text {
    var digits := Hex(n);
    if |digits| < width then Spaces(width - |digits|) + digits else digits
  }

  /** A random prefix, then backend, address and port of the server that asked. */
  function ResponseData(prefix: Text, backend: uint16, ip: uint32, port: uint16): Text {
    prefix + HexField(backend, 2) + HexField(ip, 8) + HexField(port, 4)
  }

  function Pow16(n: nat): (p: nat)
    ensures p > 0
  {
    if n == 0 then 1 else 16 * Pow16(n - 1)
  }

  /** A number below 16^width has at most `width` digits, and only such a number. */
  lemma {:induction false} HexLength(n: nat, width: nat)
    requires width > 0
    ensures |Hex(n)| <= width <==> n < Pow16(width)
  {
    if n < 16 {
      assert Pow16(width) >= 16;
    } else if width == 1 {
      assert Pow16(1) == 16;
      assert |Hex(n)| >= 2;
    } else {
      HexLength(n / 16, width - 1);
      assert Pow16(width) == 16 * Pow16(width - 1);
      assert n / 16 < Pow16(width - 1) <==> n < 16 * Pow16(width - 1);
    }
  }

  lemma FieldWidths()
    ensures Pow16(2) == 0x100 && Pow16(4) == 0x1_0000 && Pow16(8) == 0x1_0000_0000
  {
    assert Pow16(1) == 16;
    assert Pow16(3) == 0x1000;
    assert Pow16(5) == 0x10_0000;
    assert Pow16(6) == 0x100_0000;
    assert Pow16(7) == 0x1000_0000;
  }

  /**
   The challenge text is 21 characters long exactly when the backend options fit into two
   digits; the expected answer is then 28 characters of base-64 without padding.
   */
  lemma ProofLength(prefix: Text, backend: uint16, ip: uint32, port: uint16, secretKey: Text)
    requires |prefix| == PREFIX_LENGTH && secretKey != []
    ensures |ResponseData(prefix, backend, ip, port)| == 21 <==> backend < 0x100
    ensures backend < 0x100 ==>
      var proof := Encode(secretKey, ResponseData(prefix, backend, ip, port));
      |proof| == 28 && Base64.PAD !in proof && forall i :: 0 <= i < 28 ==> Base64.Alphabetic(proof[i])
  {
    hide Hex, Base64.Encode, Keystreamed, Pow16;
    FieldWidths();
    HexLength(backend, 2);
    HexLength(ip, 8);
    HexLength(port, 4);
    if backend < 0x100 {
      var encoded := Keystreamed(secretKey, ResponseData(prefix, backend, ip, port));
      Base64.EncodedText(encoded);
      var proof := Base64.Encode(encoded);
      forall i | 0 <= i < |proof| ensures Base64.Alphabetic(proof[i]) {
        assert proof[i] in proof;
      }
    }
  }
}

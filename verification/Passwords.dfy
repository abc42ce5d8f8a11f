/** The reversible password encoding of the login protocol. */
module Passwords {
  import opened Bytes
  import Base64

  // ---- the keystream ----

  const SEED: nat := 0x79707367
  const MULTIPLIER: nat := 16807
  const MODULUS: nat := 2147483647

  /** The state of the minimal standard generator after `n` draws. */
  function Generator(n: nat): nat {
    if n == 0 then SEED else Generator(n - 1) * MULTIPLIER % MODULUS
  }

  function KeyByte(i: nat): byte {
    Generator(i + 1) % 0xFF
  }

  function GsPassEnc(password: seq<byte>): (encoded: seq<byte>)
    ensures |encoded| == |password|
    ensures forall i :: 0 <= i < |password| ==> encoded[i] == Xor(password[i], KeyByte(i))
  {
    seq(|password|, i requires 0 <= i < |password| => Xor(password[i], KeyByte(i)))
  }

  method ApplyKeystream(password: seq<byte>) returns (encoded: seq<byte>)
    ensures encoded == GsPassEnc(password)
  {
    hide Xor;
    var rnd := SEED;
    encoded := password;
    for i := 0 to |password|
      invariant |encoded| == |password| && rnd == Generator(i)
      invariant forall k :: 0 <= k < i ==> encoded[k] == Xor(password[k], KeyByte(k))
      invariant forall k :: i <= k < |password| ==> encoded[k] == password[k]
    {
      rnd := rnd * MULTIPLIER % MODULUS;
      encoded := encoded[i := Xor(encoded[i], rnd % 0xFF)];
    }
  }

  /** The keystream undoes itself. */
  lemma GsPassEncInvolution(password: seq<byte>)
    ensures GsPassEnc(GsPassEnc(password)) == password
  {
    hide Xor, KeyByte;
    forall i | 0 <= i < |password|
      ensures GsPassEnc(GsPassEnc(password))[i] == password[i]
    {
      XorCancel(password[i], KeyByte(i));
    }
  }

  /** It works byte by byte, so it keeps prefixes. */
  lemma GsPassEncPrefix(a: seq<byte>, b: seq<byte>)
    requires a <= b
    ensures GsPassEnc(a) <= GsPassEnc(b)
  {
    hide Xor, KeyByte;
  }

  // ---- the characters that URLs do not like ----

  function Replaced(s: Text, from: byte, to: byte): (t: Text)
    ensures |t| == |s|
    ensures forall i :: 0 <= i < |s| ==> t[i] == if s[i] == from then to else s[i]
  {
    seq(|s|, i requires 0 <= i < |s| => if s[i] == from then to else s[i])
  }

  /** `std::replace` in place. */
  method Replace(a: array<byte>, from: byte, to: byte)
    modifies a
    ensures a[..] == Replaced(old(a[..]), from, to)
  {
    for i := 0 to a.Length
      invariant forall k :: 0 <= k < i ==> a[k] == if old(a[k]) == from then to else old(a[k])
      invariant forall k :: i <= k < a.Length ==> a[k] == old(a[k])
    {
      if a[i] == from {
        a[i] := to;
      }
    }
  }

  const UNDERSCORE: byte := 0x5F
  const OPEN_BRACKET: byte := 0x5B
  const CLOSE_BRACKET: byte := 0x5D

  function Disguise(s: Text): (t: Text)
    ensures |t| == |s|
  {
    Replaced(Replaced(Replaced(s, Base64.PAD, UNDERSCORE), Base64.PLUS, OPEN_BRACKET), Base64.SLASH, CLOSE_BRACKET)
  }

  function Undisguise(s: Text): (t: Text)
    ensures |t| == |s|
  {
    Replaced(Replaced(Replaced(s, UNDERSCORE, Base64.PAD), OPEN_BRACKET, Base64.PLUS), CLOSE_BRACKET, Base64.SLASH)
  }

  /** On text without the substitutes, the substitution is undone. */
  lemma UndisguiseDisguise(s: Text)
    requires UNDERSCORE !in s && OPEN_BRACKET !in s && CLOSE_BRACKET !in s
    ensures Undisguise(Disguise(s)) == s
  {
    hide Replaced;
    forall i | 0 <= i < |s| ensures Undisguise(Disguise(s))[i] == s[i] {
      assert s[i] in s;
    }
  }

  // ---- the encoding ----

  function PassEncode(password: seq<byte>): Text {
    Disguise(Base64.Encode(GsPassEnc(password)))
  }

  /** None where the base-64 decoder throws. */
  function PassDecode(text: Text): Option<seq<byte>> {
    var bytes := Base64.Decode(Undisguise(text));
    if bytes.None? then None else Some(GsPassEnc(bytes.value))
  }

  method PasswordEncode(password: seq<byte>) returns (text: Text)
    ensures text == PassEncode(password)
  {
    hide Base64.Encode, GsPassEnc, Replaced;
    var encoded := ApplyKeystream(password);
    var base64 := Base64.Encode(encoded);
    var a := new byte[|base64|](i requires 0 <= i < |base64| => base64[i]);
    assert a[..] == base64;
    Replace(a, Base64.PAD, UNDERSCORE);
    Replace(a, Base64.PLUS, OPEN_BRACKET);
    Replace(a, Base64.SLASH, CLOSE_BRACKET);
    text := a[..];
  }

  method PasswordDecode(text: Text) returns (password: Option<seq<byte>>)
    ensures password == PassDecode(text)
  {
    hide Base64.Decode, GsPassEnc, Replaced;
    var a := new byte[|text|](i requires 0 <= i < |text| => text[i]);
    assert a[..] == text;
    Replace(a, UNDERSCORE, Base64.PAD);
    Replace(a, OPEN_BRACKET, Base64.PLUS);
    Replace(a, CLOSE_BRACKET, Base64.SLASH);
    var bytes := Base64.Decode(a[..]);
    if bytes.None? {
      return None;
    }
    var decoded := ApplyKeystream(bytes.value);
    password := Some(decoded);
  }

  /** An encoded password can stand between two backslashes of a packet. */
  lemma PassEncodePlain(password: seq<byte>)
    ensures BACKSLASH !in PassEncode(password) && NUL !in PassEncode(password)
  {
    hide GsPassEnc, Base64.Encode;
    Base64.EncodedText(GsPassEnc(password));
  }

  /**
   Decoding an encoded password always yields a prefix of it, and all of it exactly when it is
   empty or its last byte differs from the keystream byte at its place.
   */
  lemma PassDecodeEncode(password: seq<byte>)
    ensures PassDecode(PassEncode(password)).Some?
    ensures var back := PassDecode(PassEncode(password)).value;
      && back <= password
      && (back == password <==> password == [] || password[|password| - 1] != KeyByte(|password| - 1))
  {
    hide Xor, KeyByte, Base64.Encode, Base64.Decode, Disguise, Undisguise;
    var encoded := GsPassEnc(password);
    Base64.EncodedText(encoded);
    UndisguiseDisguise(Base64.Encode(encoded));
    Base64.DecodeEncode(encoded);
    var kept := Base64.TrimRight(encoded);
    GsPassEncPrefix(kept, encoded);
    GsPassEncInvolution(password);
    var back := GsPassEnc(kept);
    assert |back| == |kept|;
    if password != [] {
      var last := |password| - 1;
      XorZero(password[last], KeyByte(last));
      assert encoded[last] == 0 <==> |kept| < |encoded|;
    }
  }

  /** The condition can fail: the password that is the first keystream byte alone comes back empty. */
  lemma LastByteLost()
    ensures PassDecode(PassEncode([KeyByte(0)])) == Some([])
  {
    hide KeyByte, PassEncode, PassDecode;
    PassDecodeEncode([KeyByte(0)]);
    assert [KeyByte(0)][..1] == [KeyByte(0)];
  }
}

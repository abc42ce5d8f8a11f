/** What the parsers share: results, unread rests, text up to NUL, and decimal numbers. */
module Parsing {
  import opened Bytes

  datatype Fallible<+T, +E> = Ok(value: T) | Err(error: E) {
    predicate IsFailure() {
      Err?
    }

    function PropagateFailure<U>(): Fallible<U, E>
      requires Err?
    {
      Err(error)
    }

    function Extract(): T
      requires Ok?
    {
      value
    }
  }

  datatype Taken<+T> = Taken(value: T, rest: seq<byte>)

  /** The text up to the first NUL, and what follows it. */
  function CutText(s: seq<byte>): (r: Option<Taken<Text>>)
    ensures r.Some? ==> |r.value.rest| < |s| && NUL !in r.value.value
    ensures r.Some? ==> s == r.value.value + [NUL] + r.value.rest
  {
    var n := FindByte(s, NUL);
    if n == |s| then None else Some(Taken(s[..n], s[n + 1..]))
  }

  /** A scan that stops at the first NUL, or at the end, finds where to cut. */
  lemma CutAt(s: seq<byte>, n: nat)
    requires n <= |s| && (n < |s| ==> s[n] == NUL)
    requires forall k :: 0 <= k < n ==> s[k] != NUL
    ensures CutText(s) == if n == |s| then None else Some(Taken(s[..n], s[n + 1..]))
  {
    if n == |s| {
      FindByteNone(s, NUL);
    } else {
      FindByteIs(s, NUL, n);
    }
  }

  lemma CutPrinted(text: Text, rest: seq<byte>)
    requires NUL !in text
    ensures CutText(text + [NUL] + rest) == Some(Taken(text, rest))
  {
    hide FindByte;
    FindByteAfter(text, NUL, rest);
    assert (text + [NUL] + rest)[..|text|] == text;
    assert (text + [NUL] + rest)[|text| + 1..] == rest;
  }

  // ---- decimal numbers ----

  predicate Digit(c: byte) {
    0x30 <= c <= 0x39
  }

  function DigitValue(c: byte): nat
    requires Digit(c)
  {
    c - 0x30
  }

  predicate AllDigits(s: Text) {
    forall i :: 0 <= i < |s| ==> Digit(s[i])
  }

  function Number(s: Text): nat
    requires AllDigits(s)
  {
    if s == [] then 0 else 10 * Number(s[..|s| - 1]) + DigitValue(s[|s| - 1])
  }

  /** `std::from_chars` over a whole text, for an unsigned type with the given maximum. */
  function FromChars(s: Text, max: nat): (r: Option<nat>)
    ensures r.Some? ==> r.value <= max
  {
    if s != [] && AllDigits(s) && Number(s) <= max then Some(Number(s)) else None
  }

  /** A number in decimal, as the replies print it. */
  function Decimal(n: nat): (text: Text)
    ensures text != []
  {
    if n < 10 then [0x30 + n] else Decimal(n / 10) + [0x30 + n % 10]
  }

  lemma {:induction false} NumberDecimal(n: nat)
    ensures AllDigits(Decimal(n)) && Number(Decimal(n)) == n
  {
    if n >= 10 {
      NumberDecimal(n / 10);
      assert Decimal(n)[..|Decimal(n)| - 1] == Decimal(n / 10);
    }
  }

  /** A printed number reads back, and only numbers in range do. */
  lemma DecimalRoundTrip(n: nat, max: nat)
    ensures FromChars(Decimal(n), max) == if n <= max then Some(n) else None
  {
    NumberDecimal(n);
  }
}

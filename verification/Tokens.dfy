/** Splitting text at backslashes, and joining it again. */
module Tokens {
  import opened Bytes

  /** The pieces between backslashes; there is one more of them than backslashes. */
  function Pieces(s: Text): (pieces: seq<Text>)
    ensures |pieces| > 0
    decreases |s|
  {
    var n := FindByte(s, BACKSLASH);
    if n == |s| then [s] else [s[..n]] + Pieces(s[n + 1..])
  }

  function Join(fields: seq<Text>): Text {
    if fields == [] then []
    else if |fields| == 1 then fields[0]
    else fields[0] + [BACKSLASH] + Join(fields[1..])
  }

  lemma {:induction false} JoinNulFree(fields: seq<Text>)
    requires forall f :: f in fields ==> NUL !in f
    ensures NUL !in Join(fields)
  {
    if |fields| > 1 {
      JoinNulFree(fields[1..]);
    }
  }

  /** Splitting at backslashes undoes joining with backslashes. */
  lemma {:induction false} PiecesJoin(fields: seq<Text>)
    requires fields != [] && forall f :: f in fields ==> BACKSLASH !in f
    ensures Pieces(Join(fields)) == fields
  {
    hide FindByte;
    var s := Join(fields);
    if |fields| == 1 {
      FindByteNone(s, BACKSLASH);
    } else {
      FindByteAfter(fields[0], BACKSLASH, Join(fields[1..]));
      assert s == fields[0] + [BACKSLASH] + Join(fields[1..]);
      assert s[..|fields[0]|] == fields[0];
      assert s[|fields[0]| + 1..] == Join(fields[1..]);
      PiecesJoin(fields[1..]);
      assert [fields[0]] + fields[1..] == fields;
    }
  }

  lemma {:induction false} JoinPieces(s: Text)
    ensures Join(Pieces(s)) == s
    decreases |s|
  {
    hide FindByte;
    var n := FindByte(s, BACKSLASH);
    if n < |s| {
      JoinPieces(s[n + 1..]);
      assert s == s[..n] + [BACKSLASH] + s[n + 1..];
      JoinFirst(s[..n], Pieces(s[n + 1..]));
    }
  }

  lemma JoinFirst(first: Text, rest: seq<Text>)
    requires rest != []
    ensures Join([first] + rest) == first + [BACKSLASH] + Join(rest)
  {
    assert ([first] + rest)[1..] == rest;
  }
}

/** Reading `\key\value` packets of the login and search protocols. */
module KeyValues {
  import opened Bytes
  import opened Parsing
  import opened Search
  import opened Tokens

  /** The first position that holds `delim` or NUL, or the end. */
  function FindEnd(s: Text, delim: byte): (n: nat)
    ensures n <= |s|
    ensures delim !in s[..n] && NUL !in s[..n]
    ensures n < |s| ==> s[n] == delim || s[n] == NUL
  {
    var a, b := FindByte(s, delim), FindByte(s, NUL);
    var n := if a < b then a else b;
    assert forall k :: 0 <= k < n ==> s[..n][k] == s[..a][k] && s[..n][k] == s[..b][k];
    n
  }

  /** What follows the first occurrence of `key`, up to its own first character or NUL. */
  function ValueForKey(packet: Text, key: Text): Option<Text>
    requires key != []
  {
    var start := Find(packet, key, 0);
    if start.None? then None
    else
      var value := packet[start.value + |key|..];
      var n := FindEnd(value, key[0]);
      if n == |value| then None else Some(value[..n])
  }

  method Lookup(packet: Text, key: Text) returns (value: Option<Text>)
    requires key != []
    ensures value == ValueForKey(packet, key)
  {
    hide Find, FindEnd;
    var found := FindText(packet, key, 0);
    if found.None? {
      return None;
    }
    var start := found.value + |key|;
    var end := start;
    var delim := key[0];
    while end < |packet| && packet[end] != delim && packet[end] != NUL
      invariant start <= end <= |packet|
      invariant forall k :: start <= k < end ==> packet[k] != delim && packet[k] != NUL
    {
      end := end + 1;
    }
    EndIs(packet[start..], delim, end - start);
    if end == |packet| {
      return None;
    }
    assert packet[start..][..end - start] == packet[start..end];
    value := Some(packet[start..end]);
  }

  lemma EndIs(s: Text, delim: byte, n: nat)
    requires n <= |s| && forall k :: 0 <= k < n ==> s[k] != delim && s[k] != NUL
    requires n < |s| ==> s[n] == delim || s[n] == NUL
    ensures FindEnd(s, delim) == n
  {
  }

  // ---- the same as a search for tokens ----

  /** The index of the first token that equals `name` and has a backslash on both sides. */
  function FindToken(tokens: seq<Text>, name: Text): (found: Option<nat>)
    ensures found.Some? ==> 1 <= found.value && found.value + 1 < |tokens| && tokens[found.value] == name
    ensures forall k :: 1 <= k && k + 1 < |tokens| && (found.Some? ==> k < found.value) ==> tokens[k] != name
    decreases |tokens|
  {
    if |tokens| < 3 then None
    else if tokens[1] == name then Some(1)
    else
      var later := FindToken(tokens[1..], name);
      assert forall k :: 2 <= k < |tokens| ==> tokens[k] == tokens[1..][k - 1];
      if later.Some? then Some(later.value + 1) else None
  }

  /** The token after it, when that one ends with a backslash too. */
  function TokenValue(tokens: seq<Text>, name: Text): Option<Text> {
    var found := FindToken(tokens, name);
    if found.Some? && found.value + 2 < |tokens| then Some(tokens[found.value + 1]) else None
  }

  function KeyFor(name: Text): (key: Text)
    ensures key != []
  {
    [BACKSLASH] + name + [BACKSLASH]
  }

  /** No key stands before the first backslash. */
  lemma NoKeyBefore(packet: Text, name: Text, k: nat)
    requires k < FindByte(packet, BACKSLASH)
    ensures !At(packet, KeyFor(name), k)
  {
    hide FindByte;
    assert packet[..FindByte(packet, BACKSLASH)][k] == packet[k];
  }

  /** At a backslash, a key stands exactly when its name runs to the next backslash. */
  lemma KeyAt(packet: Text, name: Text, n: nat)
    requires BACKSLASH !in name && n < |packet| && packet[n] == BACKSLASH
    ensures var rest := packet[n + 1..];
      var m := FindByte(rest, BACKSLASH);
      At(packet, KeyFor(name), n) <==> m < |rest| && rest[..m] == name
  {
    hide FindByte;
    var key := KeyFor(name);
    var rest := packet[n + 1..];
    var m := FindByte(rest, BACKSLASH);
    if At(packet, key, n) {
      var after := packet[n + |key|..];
      assert packet[n..] == packet[n..n + |key|] + after == key + after;
      assert rest == packet[n..][1..] == name + [BACKSLASH] + after;
      FindByteAfter(name, BACKSLASH, after);
    }
  }

  /**
   On packets without NUL and names without backslash, looking a key up is the search for its
   token: the first one between two backslashes counts, even where it stands as a value.
   */
  lemma {:induction false} ValueIsTokenValue(packet: Text, name: Text)
    requires BACKSLASH !in name && NUL !in packet
    ensures ValueForKey(packet, KeyFor(name)) == TokenValue(Pieces(packet), name)
    decreases |packet|
  {
    hide Find, FindByte, FindEnd, At, TokenValue, ValueForKey, Pieces, KeyFor;
    var key := KeyFor(name);
    var n := FindByte(packet, BACKSLASH);
    if n == |packet| {
      NoKeyWithoutBackslash(packet, name);
    } else {
      var rest := packet[n + 1..];
      assert NUL !in rest;
      var m := FindByte(rest, BACKSLASH);
      if m < |rest| && rest[..m] == name {
        KeyFirst(packet, name, n);
        ValueAtToken(packet, name, rest[m + 1..], n);
      } else {
        KeyLater(packet, name, n);
        TokenLater(packet, name, n);
        ValueIsTokenValue(rest, name);
      }
    }
  }

  /** The first backslash starts the key. */
  lemma KeyFirst(packet: Text, name: Text, n: nat)
    requires BACKSLASH !in name && n == FindByte(packet, BACKSLASH) < |packet|
    requires var rest := packet[n + 1..];
      var m := FindByte(rest, BACKSLASH);
      m < |rest| && rest[..m] == name
    ensures Find(packet, KeyFor(name), 0) == Some(n)
    ensures packet[n + 1..][|name| + 1..] == packet[n + |name| + 2..]
  {
    hide Find, FindByte, At;
    var key := KeyFor(name);
    forall k: nat | k < n ensures !At(packet, key, k) {
      NoKeyBefore(packet, name, k);
    }
    KeyAt(packet, name, n);
    FindIs(packet, key, 0, n);
  }

  /** The first backslash does not start the key, so it is looked for behind it. */
  lemma KeyLater(packet: Text, name: Text, n: nat)
    requires BACKSLASH !in name && n == FindByte(packet, BACKSLASH) < |packet|
    requires var rest := packet[n + 1..];
      var m := FindByte(rest, BACKSLASH);
      !(m < |rest| && rest[..m] == name)
    ensures ValueForKey(packet, KeyFor(name)) == ValueForKey(packet[n + 1..], KeyFor(name))
  {
    hide Find, FindByte, At, ValueForKey;
    var key := KeyFor(name);
    forall k: nat | k < n + 1 ensures !At(packet, key, k) {
      if k < n {
        NoKeyBefore(packet, name, k);
      } else {
        KeyAt(packet, name, n);
      }
    }
    FindAfter(packet, key, n + 1);
    ShiftedValue(packet, key, n + 1);
  }

  /** The token behind the first backslash does not count, so the first token can be dropped. */
  lemma TokenLater(packet: Text, name: Text, n: nat)
    requires n == FindByte(packet, BACKSLASH) < |packet|
    requires var rest := packet[n + 1..];
      var m := FindByte(rest, BACKSLASH);
      !(m < |rest| && rest[..m] == name)
    ensures TokenValue(Pieces(packet), name) == TokenValue(Pieces(packet[n + 1..]), name)
  {
    hide FindByte;
    var rest := packet[n + 1..];
    FirstToken(rest);
    var tokens := Pieces(packet);
    assert tokens == [packet[..n]] + Pieces(rest);
    assert tokens[1..] == Pieces(rest);
  }

  lemma NoKeyWithoutBackslash(packet: Text, name: Text)
    requires FindByte(packet, BACKSLASH) == |packet|
    ensures ValueForKey(packet, KeyFor(name)) == None && TokenValue(Pieces(packet), name) == None
  {
    hide FindByte, Find;
    var key := KeyFor(name);
    var found := Find(packet, key, 0);
    if found.Some? {
      NoKeyBefore(packet, name, found.value);
    }
  }

  /** The first token runs to the first backslash; without one it is the only token. */
  lemma FirstToken(s: Text)
    ensures Pieces(s)[0] == s[..FindByte(s, BACKSLASH)]
    ensures |Pieces(s)| == 1 <==> FindByte(s, BACKSLASH) == |s|
  {
  }

  /** Without NUL, a value ends at a backslash. */
  lemma EndIsBackslash(s: Text)
    requires NUL !in s
    ensures FindEnd(s, BACKSLASH) == FindByte(s, BACKSLASH)
  {
    hide FindByte;
    FindByteNone(s, NUL);
  }

  lemma ValueAtToken(packet: Text, name: Text, value: Text, n: nat)
    requires n == FindByte(packet, BACKSLASH) < |packet|
    requires n + |name| + 2 <= |packet| && value == packet[n + |name| + 2..]
    requires FindByte(packet[n + 1..], BACKSLASH) == |name| && packet[n + 1..][..|name|] == name
    requires Find(packet, KeyFor(name), 0) == Some(n)
    requires NUL !in packet
    ensures ValueForKey(packet, KeyFor(name)) == TokenValue(Pieces(packet), name)
  {
    hide Find, At, FindByte, FindEnd, TokenValue, Pieces;
    TokensAt(packet, name, value, n);
    FirstToken(value);
    assert NUL !in value;
    EndIsBackslash(value);
    FoundFirst(Pieces(packet), name, Pieces(value));
  }

  lemma TokensAt(packet: Text, name: Text, value: Text, n: nat)
    requires n == FindByte(packet, BACKSLASH) < |packet|
    requires n + |name| + 2 <= |packet| && value == packet[n + |name| + 2..]
    requires FindByte(packet[n + 1..], BACKSLASH) == |name| && packet[n + 1..][..|name|] == name
    ensures Pieces(packet) == [packet[..n]] + ([name] + Pieces(value))
  {
    hide FindByte;
    var rest := packet[n + 1..];
    assert rest[|name| + 1..] == value;
  }

  lemma FoundFirst(tokens: seq<Text>, name: Text, later: seq<Text>)
    requires |tokens| > 0 && later != [] && tokens == [tokens[0]] + ([name] + later)
    ensures TokenValue(tokens, name) == if |later| > 1 then Some(later[0]) else None
  {
    assert tokens[1] == name && |tokens| >= 3 && tokens[2] == later[0];
  }

  lemma ShiftedValue(packet: Text, key: Text, skipped: nat)
    requires key != [] && skipped <= |packet|
    requires var found, later := Find(packet, key, 0), Find(packet[skipped..], key, 0);
      found == if later.Some? then Some(skipped + later.value) else None
    ensures ValueForKey(packet, key) == ValueForKey(packet[skipped..], key)
  {
    hide Find, FindEnd;
    var later := Find(packet[skipped..], key, 0);
    if later.Some? {
      assert packet[skipped..][later.value + |key|..] == packet[skipped + later.value + |key|..];
    }
  }

  // ---- numbers ----

  function NumberForKey(packet: Text, key: Text): Option<uint32>
    requires key != []
  {
    var value := ValueForKey(packet, key);
    if value.None? then None else ParseUInt32(value.value)
  }

  function ParseUInt32(text: Text): Option<uint32> {
    var number := FromChars(text, 0xFFFF_FFFF);
    if number.None? then None else Some(number.value)
  }
}

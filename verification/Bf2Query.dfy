/** Battlefield 2 clients send filters that are not quite SQL; these are repaired before use. */
module Bf2Query {
  import opened Bytes
  import opened Search

  const QUOTE: byte := 0x27
  const PERCENT: byte := 0x25
  const SPACE: byte := 0x20

  // "gametype", " and ", "hostname like '%" and "%'"
  const GAMETYPE: Text := [0x67, 0x61, 0x6D, 0x65, 0x74, 0x79, 0x70, 0x65]
  const AND: Text := [0x20, 0x61, 0x6E, 0x64, 0x20]
  const HOSTNAME: Text :=
    [0x68, 0x6F, 0x73, 0x74, 0x6E, 0x61, 0x6D, 0x65, 0x20, 0x6C, 0x69, 0x6B, 0x65, 0x20, 0x27, 0x25]
  const CLOSING: Text := [0x25, 0x27]

  // ---- the rewriting ----

  /** Where " and " is missing: before the first "gametype" that neither starts the query nor follows a space. */
  function GametypeGap(query: Text): (gap: Option<nat>)
    ensures gap.Some? ==> 0 < gap.value && At(query, GAMETYPE, gap.value)
  {
    var pos := Find(query, GAMETYPE, 0);
    if pos.Some? && pos.value > 0 && query[pos.value - 1] != SPACE then pos else None
  }

  function Inserted(query: Text, gap: nat): Text
    requires gap <= |query|
  {
    query[..gap] + AND + query[gap..]
  }

  function Separated(query: Text): Text {
    var gap := GametypeGap(query);
    if gap.Some? then Inserted(query, gap.value) else query
  }

  datatype Span = Span(start: nat, end: nat)

  /** The host name that a query looks for: what stands between the first `hostname like '%` and the next `%'`. */
  function Hostname(query: Text): (span: Option<Span>)
    ensures span.Some? ==> |HOSTNAME| <= span.value.start <= span.value.end <= |query| - |CLOSING|
    ensures span.Some? ==> At(query, HOSTNAME, span.value.start - |HOSTNAME|) && At(query, CLOSING, span.value.end)
  {
    var open := Find(query, HOSTNAME, 0);
    if open.None? then None
    else
      var start := open.value + |HOSTNAME|;
      var end := Find(query, CLOSING, start);
      if end.None? then None else Some(Span(start, end.value))
  }

  /** Every quote twice. */
  function Doubled(s: Text): Text {
    if s == [] then []
    else (if s[0] == QUOTE then [QUOTE, QUOTE] else [s[0]]) + Doubled(s[1..])
  }

  function Escaped(query: Text): Text {
    var span := Hostname(query);
    if span.None? then query
    else query[..span.value.start] + Doubled(query[span.value.start..span.value.end]) + query[span.value.end..]
  }

  method Rewrite(query: Text) returns (copy: Text)
    ensures copy == Escaped(Separated(query))
  {
    hide Find, Doubled;
    copy := query;
    var pos := FindText(query, GAMETYPE, 0);
    if pos.Some? && pos.value > 0 && query[pos.value - 1] != SPACE {
      copy := query[..pos.value] + AND + query[pos.value..];
    }
    assert copy == Separated(query);
    var open := FindText(copy, HOSTNAME, 0);
    if open.Some? {
      var start := open.value + |HOSTNAME|;
      var end := FindText(copy, CLOSING, start);
      if end.Some? {
        assert Hostname(copy) == Some(Span(start, end.value));
        copy := DoubleQuotes(copy, start, end.value);
      }
    }
  }

  /** The loop inserts in place and moves both its position and its end. */
  method DoubleQuotes(query: Text, start: nat, stop: nat) returns (copy: Text)
    requires start <= stop <= |query|
    ensures copy == query[..start] + Doubled(query[start..stop]) + query[stop..]
  {
    hide Doubled;
    copy := query;
    var pos, end := start, stop;
    ghost var read := start;
    ghost var done: Text := [];
    NothingDoubled();
    assert query[start..start] == [];
    while pos < end
      invariant start <= read <= stop && end - pos == stop - read
      invariant done == Doubled(query[start..read])
      invariant pos == start + |done|
      invariant copy == query[..start] + done + query[read..]
    {
      DoubledSnoc(query[start..read], query[read]);
      assert query[start..read + 1] == query[start..read] + [query[read]];
      assert copy[pos] == query[read];
      if copy[pos] == QUOTE {
        copy := copy[..pos] + [QUOTE] + copy[pos..];
        pos := pos + 1;
        end := end + 1;
        done := done + [QUOTE];
      }
      done := done + [query[read]];
      read := read + 1;
      pos := pos + 1;
    }
  }

  lemma NothingDoubled()
    ensures Doubled([]) == []
  {
  }

  lemma {:induction false} DoubledSnoc(s: Text, c: byte)
    ensures Doubled(s + [c]) == Doubled(s) + (if c == QUOTE then [QUOTE, QUOTE] else [c])
  {
    if s == [] {
      assert Doubled([c]) == (if c == QUOTE then [QUOTE, QUOTE] else [c]) + Doubled([]);
    } else {
      DoubledSnoc(s[1..], c);
      assert (s + [c])[1..] == s[1..] + [c];
    }
  }

  // ---- reading an SQL string literal ----

  datatype Literal = Literal(text: Text, rest: Text)

  /** The literal that starts behind an opening quote: two quotes stand for one, a single one ends it. */
  function ReadLiteral(s: Text): Option<Literal>
    decreases |s|
  {
    if s == [] then None
    else if s[0] != QUOTE then Prepended(s[0], ReadLiteral(s[1..]))
    else if |s| > 1 && s[1] == QUOTE then Prepended(QUOTE, ReadLiteral(s[2..]))
    else Some(Literal([], s[1..]))
  }

  function Prepended(c: byte, literal: Option<Literal>): Option<Literal> {
    if literal.None? then None else Some(literal.value.(text := [c] + literal.value.text))
  }

  function PrependedAll(s: Text, literal: Option<Literal>): Option<Literal> {
    if literal.None? then None else Some(literal.value.(text := s + literal.value.text))
  }

  /** One character of the host name, as it is written and as it is read. */
  lemma ReadDoubledFirst(s: Text, rest: Text)
    requires s != []
    ensures ReadLiteral(Doubled(s) + rest) == Prepended(s[0], ReadLiteral(Doubled(s[1..]) + rest))
  {
    var later := Doubled(s[1..]) + rest;
    if s[0] == QUOTE {
      assert Doubled(s) + rest == [QUOTE, QUOTE] + later;
    } else {
      assert Doubled(s) + rest == [s[0]] + later;
    }
  }

  /** Doubling is what the reader undoes, whatever follows. */
  lemma {:induction false} ReadDoubled(s: Text, rest: Text)
    ensures ReadLiteral(Doubled(s) + rest) == PrependedAll(s, ReadLiteral(rest))
  {
    if s == [] {
      assert Doubled(s) + rest == rest;
      var end := ReadLiteral(rest);
      assert end.Some? ==> [] + end.value.text == end.value.text;
    } else {
      hide ReadLiteral, Doubled;
      ReadDoubledFirst(s, rest);
      ReadDoubled(s[1..], rest);
      var end := ReadLiteral(rest);
      assert end.Some? ==> [s[0]] + (s[1..] + end.value.text) == s + end.value.text;
    }
  }

  predicate StartsWithQuote(s: Text) {
    s != [] && s[0] == QUOTE
  }

  /**
   The literal written for a host name reads back as it was meant, up to the intended closing
   quote, exactly when no further quote follows that one.
   */
  lemma ReadHostnameLiteral(name: Text, after: Text)
    ensures
      (ReadLiteral([PERCENT] + Doubled(name) + [PERCENT, QUOTE] + after)
       == Some(Literal([PERCENT] + name + [PERCENT], after)))
      <==> !StartsWithQuote(after)
    ensures var literal := ReadLiteral([PERCENT] + Doubled(name) + [PERCENT, QUOTE] + after);
      literal.Some? ==> |literal.value.text| >= |name| + 2
  {
    hide Doubled;
    var closing := [PERCENT, QUOTE] + after;
    var s := Doubled(name) + closing;
    assert [PERCENT] + Doubled(name) + [PERCENT, QUOTE] + after == [PERCENT] + s;
    assert ([PERCENT] + s)[1..] == s;
    ReadDoubled(name, closing);
    assert closing[1..] == [QUOTE] + after;
    var end := ReadLiteral([QUOTE] + after);
    assert ReadLiteral(closing) == Prepended(PERCENT, end);
    if StartsWithQuote(after) {
      assert end.Some? ==> |end.value.text| > 0;
      if end.Some? {
        assert |[PERCENT] + (name + ([PERCENT] + end.value.text))| > |[PERCENT] + name + [PERCENT]|;
      }
    } else {
      assert ([QUOTE] + after)[1..] == after;
      assert end == Some(Literal([], after));
      assert [PERCENT] + (name + ([PERCENT] + [])) == [PERCENT] + name + [PERCENT];
    }
  }

  /**
   In an escaped query, the literal that opens before the host name reads back as that host
   name between percent signs, and the reader stops where the query meant the literal to end.
   */
  lemma EscapedReads(query: Text)
    requires Hostname(query).Some?
    ensures var span := Hostname(query).value;
      var name, after := query[span.start..span.end], query[span.end + 2..];
      Escaped(query)[..span.start] == query[..span.start]
    ensures var span := Hostname(query).value;
      var name, after := query[span.start..span.end], query[span.end + 2..];
      var literal := ReadLiteral(Escaped(query)[span.start - 1..]);
      && (literal == Some(Literal([PERCENT] + name + [PERCENT], after)) <==> !StartsWithQuote(after))
      && (literal.Some? ==> |literal.value.text| >= |name| + 2)
  {
    hide Find, Doubled, Hostname, ReadLiteral, At, Escaped;
    var span := Hostname(query).value;
    var name, after := query[span.start..span.end], query[span.end + 2..];
    ReadHostnameLiteral(name, after);
    HostnameBorders(query);
    EscapedIs(query);
    SplitBefore(query[..span.start], Doubled(name), query[span.end..], after);
  }

  lemma EscapedIs(query: Text)
    requires Hostname(query).Some?
    ensures var span := Hostname(query).value;
      && Escaped(query) == query[..span.start] + Doubled(query[span.start..span.end]) + query[span.end..]
      && Escaped(query)[..span.start] == query[..span.start]
  {
    hide Find, Doubled, Hostname;
  }

  /** A host name stands between a percent sign and the closing one with its quote. */
  lemma HostnameBorders(query: Text)
    requires Hostname(query).Some?
    ensures var span := Hostname(query).value;
      query[span.start - 1] == PERCENT && query[span.end..] == CLOSING + query[span.end + 2..]
  {
    hide Find, Doubled, Hostname;
    var span := Hostname(query).value;
    var opening := query[span.start - |HOSTNAME|..span.start];
    assert opening[|HOSTNAME| - 1] == query[span.start - 1];
    assert query[span.end..] == query[span.end..span.end + 2] + query[span.end + 2..];
  }

  lemma SplitBefore(before: Text, middle: Text, closing: Text, after: Text)
    requires before != [] && before[|before| - 1] == PERCENT && closing == CLOSING + after
    ensures (before + middle + closing)[|before| - 1..] == [PERCENT] + middle + [PERCENT, QUOTE] + after
  {
  }

  // ---- both repairs together ----

  /** No part of " and " can become part of the key. */
  predicate Immune(key: Text) {
    && key != [] && key[0] !in AND
    && forall i :: 0 <= i < |key| && key[i] == SPACE ==> i + 1 < |key| && key[i + 1] != AND[1]
  }

  lemma KeysImmune()
    ensures Immune(GAMETYPE) && Immune(HOSTNAME) && Immune(CLOSING)
  {
  }

  /** Where a key stands after the insertion. */
  lemma AtInserted(query: Text, gap: nat, key: Text, k: nat)
    requires gap <= |query| && Immune(key)
    ensures var after := Inserted(query, gap);
      At(after, key, k) ==
        if k + |key| <= gap then At(query, key, k)
        else k >= gap + |AND| && At(query, key, k - |AND|)
  {
    var after := Inserted(query, gap);
    assert after[gap] == SPACE && after[gap + 1] == AND[1];
    assert forall i :: 0 <= i < |AND| ==> after[gap + i] == AND[i];
    if k + |key| <= gap {
      assert after[k..k + |key|] == query[k..k + |key|];
    } else if k >= gap + |AND| {
      if k + |key| <= |after| {
        assert after[k..k + |key|] == query[k - |AND|..k - |AND| + |key|];
      }
    } else if k < gap {
      NotAt(after, key, k, gap - k);
    } else {
      NotAt(after, key, k, 0);
    }
  }

  /** A key does not stand where it would cover the start of " and " or start inside it. */
  lemma NotAt(s: Text, key: Text, k: nat, i: nat)
    requires Immune(key) && i < |key| && k + i < |s|
    requires (i == 0 && s[k] in AND) || (k + i + 1 < |s| && s[k + i] == SPACE && s[k + i + 1] == AND[1])
    ensures !At(s, key, k)
  {
  }

  /** What is found outside the insertion is found again, where it has moved to. */
  lemma FindInserted(query: Text, gap: nat, key: Text, from: nat)
    requires gap <= |query| && Immune(key) && Find(query, key, from).Some?
    requires var at := Find(query, key, from).value; at + |key| <= gap || gap <= at
    ensures var at, after := Find(query, key, from).value, Inserted(query, gap);
      if at + |key| <= gap then Find(after, key, from) == Some(at)
      else Find(after, key, if from <= gap then from else from + |AND|) == Some(at + |AND|)
  {
    hide Find, At, Inserted, Immune;
    var at, after := Find(query, key, from).value, Inserted(query, gap);
    var from' := if at + |key| <= gap || from <= gap then from else from + |AND|;
    var at' := if at + |key| <= gap then at else at + |AND|;
    forall k: nat | from' <= k <= at' ensures At(after, key, k) == (k == at') {
      AtInserted(query, gap, key, k);
    }
    FindIs(after, key, from', at');
  }

  /** Once separated, a query needs no further separation. */
  lemma SeparatedOnce(query: Text)
    ensures GametypeGap(Separated(query)) == None && Separated(Separated(query)) == Separated(query)
  {
    hide Find, Immune;
    var gap := GametypeGap(query);
    if gap.Some? {
      KeysImmune();
      FindInserted(query, gap.value, GAMETYPE, 0);
      assert Separated(query)[gap.value + |AND| - 1] == AND[|AND| - 1];
    }
  }

  /** Where the host name stands after the insertion: it moves, has " and " inserted into it, or stays. */
  function Moved(span: Span, gap: nat): Span {
    if gap < span.start then Span(span.start + |AND|, span.end + |AND|)
    else if gap < span.end then Span(span.start, span.end + |AND|)
    else span
  }

  lemma GapOutsideKeys(query: Text)
    requires Hostname(query).Some? && GametypeGap(query).Some?
    ensures var span, gap := Hostname(query).value, GametypeGap(query).value;
      && (gap <= span.start - |HOSTNAME| || span.start <= gap)
      && (gap < span.end || span.end + |CLOSING| <= gap)
  {
    hide Find, Hostname, GametypeGap;
    var span, gap := Hostname(query).value, GametypeGap(query).value;
    var open := span.start - |HOSTNAME|;
    assert query[gap..gap + |GAMETYPE|][0] == query[gap] == GAMETYPE[0];
    assert GAMETYPE[0] !in HOSTNAME && GAMETYPE[0] !in CLOSING;
  }

  lemma HostnameFound(query: Text)
    requires Hostname(query).Some?
    ensures var span := Hostname(query).value;
      && Find(query, HOSTNAME, 0) == Some(span.start - |HOSTNAME|)
      && Find(query, CLOSING, span.start) == Some(span.end)
  {
    hide Find, At;
  }

  lemma HostnameIs(query: Text, open: nat, end: nat)
    requires Find(query, HOSTNAME, 0) == Some(open) && Find(query, CLOSING, open + |HOSTNAME|) == Some(end)
    ensures Hostname(query) == Some(Span(open + |HOSTNAME|, end))
  {
    hide Find, At;
  }

  lemma HostnameMoves(query: Text)
    requires Hostname(query).Some? && GametypeGap(query).Some?
    ensures Hostname(Separated(query)) == Some(Moved(Hostname(query).value, GametypeGap(query).value))
  {
    hide Find, At, Hostname, GametypeGap, Immune, Inserted;
    var span, gap := Hostname(query).value, GametypeGap(query).value;
    HostnameFound(query);
    GapOutsideKeys(query);
    GapStartsGametype(query);
    KeysImmune();
    FindInserted(query, gap, HOSTNAME, 0);
    FindInserted(query, gap, CLOSING, span.start);
    var moved := Moved(span, gap);
    HostnameIs(Inserted(query, gap), moved.start - |HOSTNAME|, moved.end);
  }

  /** The missing " and " is seen inside the host name itself. */
  predicate SplitsHostname(query: Text) {
    var span, gap := Hostname(query), GametypeGap(query);
    span.Some? && gap.Some? && span.value.start <= gap.value < span.value.end
  }

  lemma SeparatedHostname(query: Text)
    requires Hostname(query).Some?
    ensures Hostname(Separated(query)).Some?
    ensures var span, span' := Hostname(query).value, Hostname(Separated(query)).value;
      var name, name' := query[span.start..span.end], Separated(query)[span'.start..span'.end];
      (if SplitsHostname(query) then |name'| > |name| else name' == name)
      && StartsWithQuote(Separated(query)[span'.end + 2..]) == StartsWithQuote(query[span.end + 2..])
  {
    hide Find, At, Hostname, GametypeGap, Inserted, StartsWithQuote;
    if GametypeGap(query).Some? {
      HostnameMoves(query);
      GapOutsideKeys(query);
      GapStartsGametype(query);
      InsertedHostname(query, Hostname(query).value, GametypeGap(query).value);
    }
  }

  lemma GapStartsGametype(query: Text)
    requires GametypeGap(query).Some?
    ensures GametypeGap(query).value < |query| && query[GametypeGap(query).value] == GAMETYPE[0]
  {
    hide Find, GametypeGap;
    var gap := GametypeGap(query).value;
    assert query[gap..gap + |GAMETYPE|][0] == query[gap];
  }

  /** The host name and what follows it, where the insertion has moved them. */
  lemma InsertedHostname(query: Text, span: Span, gap: nat)
    requires span.start <= span.end <= |query| - 2 && gap < |query| && query[gap] == GAMETYPE[0]
    requires gap < span.end || span.end + 2 <= gap
    ensures Moved(span, gap).end + 2 <= |Inserted(query, gap)|
    ensures var name := Inserted(query, gap)[Moved(span, gap).start..Moved(span, gap).end];
      if span.start <= gap < span.end then |name| > span.end - span.start else name == query[span.start..span.end]
    ensures StartsWithQuote(Inserted(query, gap)[Moved(span, gap).end + 2..]) == StartsWithQuote(query[span.end + 2..])
  {
  }

  /**
   Through both repairs, the database reads the very host name that the client asked for, and
   the literal ends where the client meant it to, exactly when no quote follows the intended
   closing quote and the host name does not itself hold the first "gametype" of the query
   behind a character other than a space: such a host name gets " and " inserted.
   */
  lemma RewrittenReads(query: Text)
    requires Hostname(query).Some?
    ensures var span, separated := Hostname(query).value, Separated(query);
      Hostname(separated).Some? &&
      var span' := Hostname(separated).value;
      var literal := ReadLiteral(Escaped(separated)[span'.start - 1..]);
      && (literal == Some(Literal([PERCENT] + query[span.start..span.end] + [PERCENT], separated[span'.end + 2..]))
          <==> !StartsWithQuote(query[span.end + 2..]) && !SplitsHostname(query))
  {
    hide Find, Doubled, Escaped, Separated, Hostname, ReadLiteral, StartsWithQuote, SplitsHostname;
    SeparatedHostname(query);
    EscapedReads(Separated(query));
  }

  /** Such a host name exists. */
  lemma HostnameCanSplit()
    ensures SplitsHostname(HOSTNAME + [0x78] + GAMETYPE + CLOSING)
  {
    var query := HOSTNAME + [0x78] + GAMETYPE + CLOSING;
    assert At(query, HOSTNAME, 0) by { assert query[0..16] == HOSTNAME; }
    FindIs(query, HOSTNAME, 0, 0);
    assert At(query, CLOSING, 25) by { assert query[25..27] == CLOSING; }
    forall k: nat | 16 <= k < 25 ensures !At(query, CLOSING, k) {
      assert query[k] != PERCENT;
    }
    FindIs(query, CLOSING, 16, 25);
    assert At(query, GAMETYPE, 17) by { assert query[17..25] == GAMETYPE; }
    forall k: nat | k < 17 ensures !At(query, GAMETYPE, k) {
      assert query[k] != GAMETYPE[0];
    }
    FindIs(query, GAMETYPE, 0, 17);
  }
}

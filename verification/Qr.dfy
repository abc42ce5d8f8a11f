/** Query-and-reporting packets: the envelope, and the map and two tables of a heartbeat. */
module Qr {
  import opened Bytes
  import opened Parsing

  datatype ParseError = TooSmall | UnexpectedEnd | UnknownType

  type Result<+T> = Fallible<T, ParseError>

  const LAST_TYPE: byte := 9

  datatype Packet = Packet(kind: byte, instance: seq<byte>, data: seq<byte>)

  /** The envelope: a known type, four bytes of instance key, and data that ends in NUL if there is any. */
  function ParsePacket(buffer: seq<byte>): Result<Packet> {
    if |buffer| < 5 then Err(TooSmall)
    else if buffer[0] > LAST_TYPE then Err(UnknownType)
    else if buffer[5..] != [] && buffer[|buffer| - 1] != NUL then Err(UnexpectedEnd)
    else Ok(Packet(buffer[0], buffer[1..5], buffer[5..]))
  }

  /** The text up to the next NUL. */
  function TakeText(s: seq<byte>): (r: Result<Taken<Text>>)
    ensures r.Ok? ==> |r.value.rest| < |s|
  {
    var text := CutText(s);
    if text.None? then Err(TooSmall) else Ok(text.value)
  }

  // ---- key/value maps ----

  /** `std::map::emplace`: an existing key keeps its value. */
  function Emplace(m: map<Text, Text>, key: Text, value: Text): map<Text, Text> {
    if key in m then m else m[key := value]
  }

  /** Pairs up to an empty key, or to the end of the bytes; `m` is what was read before. */
  function TakePairs(s: seq<byte>, m: map<Text, Text>): Result<Taken<map<Text, Text>>>
    decreases |s|
  {
    if s == [] then Ok(Taken(m, s))
    else
      var key :- TakeText(s);
      if key.value == [] then Ok(Taken(m, key.rest))
      else if key.rest == [] then Ok(Taken(m, key.rest))
      else
        var value :- TakeText(key.rest);
        TakePairs(value.rest, Emplace(m, key.value, value.value))
  }

  function TakeMap(s: seq<byte>): Result<Taken<map<Text, Text>>> {
    if s == [] then Err(TooSmall) else TakePairs(s, map[])
  }

  // ---- tables ----

  datatype Table = Table(header: seq<Text>, rows: seq<seq<Text>>)

  /** A table while it is being read. */
  datatype Reading = Reading(headersParsed: bool, headers: seq<Text>, rows: seq<seq<Text>>)

  predicate EndsWith(text: Text, suffix: Text) {
    |suffix| <= |text| && text[|text| - |suffix|..] == suffix
  }

  predicate LastFull(t: Reading)
    requires t.rows != []
  {
    |t.rows[|t.rows| - 1]| == |t.headers|
  }

  /** Adds a cell to the last row, or to a new row when there is none or it is full. */
  function AddCell(t: Reading, cell: Text): (r: Reading)
    ensures r.rows != [] && r == t.(rows := r.rows)
  {
    if t.rows == [] || LastFull(t) then t.(rows := t.rows + [[cell]])
    else
      var last := |t.rows| - 1;
      t.(rows := t.rows[last := t.rows[last] + [cell]])
  }

  /** The columns of a table of `count` rows: headers, an empty column, cells. */
  function TakeColumns(s: seq<byte>, count: uint16, headerEnd: Text, t: Reading): Result<Taken<Reading>>
    decreases |s|
  {
    if s == [] then Ok(Taken(t, s))
    else
      var column :- TakeText(s);
      if !t.headersParsed && EndsWith(column.value, headerEnd) then
        TakeColumns(column.rest, count, headerEnd, t.(headers := t.headers + [column.value]))
      else if t.headers == [] then Err(UnexpectedEnd)
      else if column.value == [] then
        if count == 0 then Ok(Taken(t.(headersParsed := true), column.rest))
        else TakeColumns(column.rest, count, headerEnd, t.(headersParsed := true))
      else
        var next := AddCell(t, column.value);
        if |next.rows| == count && LastFull(next) then Ok(Taken(next, column.rest))
        else TakeColumns(column.rest, count, headerEnd, next)
  }

  function TakeTable(s: seq<byte>, headerEnd: Text): Result<Taken<Table>> {
    if |s| < 2 then Err(TooSmall)
    else
      var count := U16(s[..2]);
      var t :- TakeColumns(s[2..], count, headerEnd, Reading(false, [], []));
      if |t.value.rows| < count || (t.value.rows != [] && !LastFull(t.value)) then Err(TooSmall)
      else Ok(Taken(Table(t.value.headers, t.value.rows), t.rest))
  }

  // ---- heartbeats ----

  const PLAYER_END: Text := Ascii("_")
  const TEAM_END: Text := Ascii("_t")

  datatype Heartbeat = Heartbeat(
    instance: seq<byte>,
    serverData: map<Text, Text>,
    players: Table,
    teams: Table)

  const NO_TABLE := Table([], [])

  /** A map, a player table and a team table; without a readable player table the map alone counts. */
  function ParseHeartbeat(packet: Packet): Result<Heartbeat> {
    var data := TakeMap(packet.data);
    if data.Err? then Err(TooSmall)
    else
      var players := TakeTable(data.value.rest, PLAYER_END);
      if players.Err? then Ok(Heartbeat(packet.instance, data.value.value, NO_TABLE, NO_TABLE))
      else
        var teams := TakeTable(players.value.rest, TEAM_END);
        if teams.Err? then Err(TooSmall)
        else Ok(Heartbeat(packet.instance, data.value.value, players.value.value, teams.value.value))
  }

  // ---- round trips ----

  function PrintText(text: Text): seq<byte> {
    text + [NUL]
  }

  function PrintTexts(texts: seq<Text>): seq<byte> {
    if texts == [] then [] else PrintText(texts[0]) + PrintTexts(texts[1..])
  }

  lemma TakePrintedText(text: Text, rest: seq<byte>)
    requires NUL !in text
    ensures TakeText(PrintText(text) + rest) == Ok(Taken(text, rest))
  {
    hide CutText;
    CutPrinted(text, rest);
  }

  datatype Pair = Pair(key: Text, value: Text)

  function PrintPairs(pairs: seq<Pair>): seq<byte> {
    if pairs == [] then []
    else PrintText(pairs[0].key) + (PrintText(pairs[0].value) + PrintPairs(pairs[1..]))
  }

  function PrintMap(pairs: seq<Pair>): seq<byte> {
    PrintPairs(pairs) + [NUL]
  }

  /** Keys and values that can be written in front of a NUL. */
  ghost predicate PlainPairs(pairs: seq<Pair>) {
    forall p :: p in pairs ==> NUL !in p.key && NUL !in p.value
  }

  predicate NoEmptyKey(pairs: seq<Pair>) {
    forall p :: p in pairs ==> p.key != []
  }

  function EmplaceAll(m: map<Text, Text>, pairs: seq<Pair>): map<Text, Text>
    decreases |pairs|
  {
    if pairs == [] then m else EmplaceAll(Emplace(m, pairs[0].key, pairs[0].value), pairs[1..])
  }

  /** The value at the first occurrence of a key. */
  function FirstValue(pairs: seq<Pair>, key: Text): Option<Text> {
    if pairs == [] then None
    else if pairs[0].key == key then Some(pairs[0].value)
    else FirstValue(pairs[1..], key)
  }

  /** The map that is read holds every printed key, with the value of its first occurrence. */
  lemma {:induction false} FirstKeyWins(m: map<Text, Text>, pairs: seq<Pair>, key: Text)
    ensures key in EmplaceAll(m, pairs) <==> key in m || FirstValue(pairs, key).Some?
    ensures key in EmplaceAll(m, pairs) ==>
      EmplaceAll(m, pairs)[key] == if key in m then m[key] else FirstValue(pairs, key).value
    decreases |pairs|
  {
    if pairs != [] {
      FirstKeyWins(Emplace(m, pairs[0].key, pairs[0].value), pairs[1..], key);
    }
  }

  lemma {:induction false} TakePrintedPairs(pairs: seq<Pair>, m: map<Text, Text>, rest: seq<byte>)
    requires PlainPairs(pairs) && NoEmptyKey(pairs)
    ensures TakePairs(PrintMap(pairs) + rest, m) == Ok(Taken(EmplaceAll(m, pairs), rest))
    decreases |pairs|
  {
    hide TakeText, PrintText, FindByte;
    if pairs == [] {
      TakePrintedText([], rest);
      assert PrintMap(pairs) + rest == PrintText([]) + rest by {
        EmptyText();
      }
    } else {
      var p := pairs[0];
      assert p in pairs && forall q :: q in pairs[1..] ==> q in pairs;
      var later := PrintMap(pairs[1..]) + rest;
      PrintMapFirst(pairs, rest);
      hide PrintMap;
      TakePrintedText(p.key, PrintText(p.value) + later);
      TakePrintedText(p.value, later);
      NonEmptyText(p.value);
      NonEmptyText(p.key);
      TakePrintedPairs(pairs[1..], Emplace(m, p.key, p.value), rest);
    }
  }

  lemma PrintMapFirst(pairs: seq<Pair>, rest: seq<byte>)
    requires pairs != []
    ensures PrintMap(pairs) + rest
         == PrintText(pairs[0].key) + (PrintText(pairs[0].value) + (PrintMap(pairs[1..]) + rest))
  {
    hide PrintText;
  }

  lemma EmptyText()
    ensures PrintText([]) == [NUL]
  {
  }

  lemma NonEmptyText(text: Text)
    ensures |PrintText(text)| > 0
  {
  }

  /** A map that is read never holds the empty key. */
  lemma {:induction false} NoEmptyKeyRead(s: seq<byte>, m: map<Text, Text>)
    requires [] !in m && TakePairs(s, m).Ok?
    ensures [] !in TakePairs(s, m).value.value
    decreases |s|
  {
    hide TakeText;
    if s != [] {
      var key := TakeText(s).value;
      if key.value != [] && key.rest != [] {
        var value := TakeText(key.rest).value;
        NoEmptyKeyRead(value.rest, Emplace(m, key.value, value.value));
      }
    }
  }

  lemma {:induction false} EmptyKeyHeld(pairs: seq<Pair>)
    ensures FirstValue(pairs, []).Some? <==> !NoEmptyKey(pairs)
  {
    if pairs != [] {
      EmptyKeyHeld(pairs[1..]);
      assert pairs[0] in pairs && forall p :: p in pairs[1..] ==> p in pairs;
      assert forall p :: p in pairs ==> p == pairs[0] || p in pairs[1..];
    }
  }

  /** A printed map is read back, and the cursor stops exactly at what follows, if and only if no key is empty. */
  lemma TakePrintedMap(pairs: seq<Pair>, rest: seq<byte>)
    requires PlainPairs(pairs)
    ensures var r := TakeMap(PrintMap(pairs) + rest);
      && (r == Ok(Taken(EmplaceAll(map[], pairs), rest)) <==> NoEmptyKey(pairs))
      && (r.Ok? && r.value.value == EmplaceAll(map[], pairs) ==> NoEmptyKey(pairs))
  {
    hide TakePairs, EmplaceAll, FirstValue, NoEmptyKey, PrintPairs;
    var s := PrintMap(pairs) + rest;
    if NoEmptyKey(pairs) {
      TakePrintedPairs(pairs, map[], rest);
    } else {
      EmptyKeyHeld(pairs);
      FirstKeyWins(map[], pairs, []);
      if TakePairs(s, map[]).Ok? {
        NoEmptyKeyRead(s, map[]);
      }
    }
  }

  /** An empty key ends the map: what was printed before it is read, and the cursor stops in front of its value. */
  lemma EmptyKeyEndsMap(before: seq<Pair>, value: Text, later: seq<Pair>, rest: seq<byte>)
    requires PlainPairs(before) && NoEmptyKey(before)
    ensures TakeMap(PrintMap(before + [Pair([], value)] + later) + rest)
         == Ok(Taken(EmplaceAll(map[], before), PrintText(value) + (PrintMap(later) + rest)))
  {
    hide TakeMap, PrintText;
    PrintPairsConcat(before, [Pair([], value)] + later);
    assert before + [Pair([], value)] + later == before + ([Pair([], value)] + later);
    assert ([Pair([], value)] + later)[1..] == later;
    EmptyText();
    var tail := PrintText(value) + (PrintMap(later) + rest);
    assert PrintMap(before + [Pair([], value)] + later) + rest == PrintMap(before) + tail;
    TakePrintedMap(before, tail);
  }

  lemma Regrouped(key: seq<byte>, value: seq<byte>, later: seq<byte>, rest: seq<byte>)
    ensures key + (value + (later + rest)) == key + (value + later) + rest
  {
  }

  lemma {:induction false} PrintPairsConcat(a: seq<Pair>, b: seq<Pair>)
    ensures PrintPairs(a + b) == PrintPairs(a) + PrintPairs(b)
  {
    hide PrintText;
    if a == [] {
      assert a + b == b;
    } else {
      PrintPairsConcat(a[1..], b);
      assert (a + b)[1..] == a[1..] + b;
      Regrouped(PrintText(a[0].key), PrintText(a[0].value), PrintPairs(a[1..]), PrintPairs(b));
    }
  }

  function PrintRows(rows: seq<seq<Text>>): seq<byte> {
    if rows == [] then [] else PrintTexts(rows[0]) + PrintRows(rows[1..])
  }

  function PrintTable(t: Table): seq<byte>
    requires |t.rows| < 0x1_0000
  {
    U16Bytes(|t.rows|) + (PrintTexts(t.header) + (PrintText([]) + PrintRows(t.rows)))
  }

  ghost predicate PlainRow(row: seq<Text>, width: nat) {
    |row| == width && forall i :: 0 <= i < |row| ==> NUL !in row[i]
  }

  predicate NoEmptyCell(rows: seq<seq<Text>>) {
    forall i :: 0 <= i < |rows| ==> [] !in rows[i]
  }

  /** Named columns with the right ending, and rows of that width, of texts that can be written in front of a NUL. */
  ghost predicate PlainTable(t: Table, headerEnd: Text) {
    && t.header != [] && |t.rows| < 0x1_0000
    && (forall i :: 0 <= i < |t.header| ==> NUL !in t.header[i] && EndsWith(t.header[i], headerEnd))
    && (forall i :: 0 <= i < |t.rows| ==> PlainRow(t.rows[i], |t.header|))
  }

  lemma NextCell(row: seq<Text>, j: nat, done: seq<seq<Text>>, headers: seq<Text>)
    requires j < |row| <= |headers|
    requires forall i :: 0 <= i < |done| ==> |done[i]| == |headers|
    ensures AddCell(Reading(true, headers, if j == 0 then done else done + [row[..j]]), row[j]).rows
         == done + [row[..j + 1]]
  {
    assert row[..j + 1] == row[..j] + [row[j]];
    if j == 0 {
      assert row[..1] == [row[0]];
    } else {
      var rows := done + [row[..j]];
      assert rows[|done|] == row[..j];
      assert rows[|done| := row[..j + 1]] == done + [row[..j + 1]];
    }
  }

  /** One printed cell behind the headers is added, and ends the table where it completes the last row. */
  lemma TakeCell(cell: Text, t: Reading, count: uint16, headerEnd: Text, rest: seq<byte>)
    requires NUL !in cell && cell != [] && t.headersParsed && t.headers != []
    ensures var next := AddCell(t, cell);
      TakeColumns(PrintText(cell) + rest, count, headerEnd, t)
      == if |next.rows| == count && LastFull(next) then Ok(Taken(next, rest))
         else TakeColumns(rest, count, headerEnd, next)
  {
    hide TakeText, PrintText, EndsWith, AddCell;
    TakePrintedText(cell, rest);
    NonEmptyText(cell);
  }

  lemma {:induction false} TakeFullRows(row: seq<Text>, j: nat, done: seq<seq<Text>>, later: seq<seq<Text>>,
                                       headers: seq<Text>, count: uint16, headerEnd: Text, rest: seq<byte>)
    requires headers != [] && j < |row| && PlainRow(row, |headers|) && [] !in row && NoEmptyCell(later)
    requires forall i :: 0 <= i < |later| ==> PlainRow(later[i], |headers|)
    requires forall i :: 0 <= i < |done| ==> |done[i]| == |headers|
    requires count == |done| + 1 + |later|
    ensures TakeColumns(PrintTexts(row[j..]) + (PrintRows(later) + rest), count, headerEnd,
              Reading(true, headers, if j == 0 then done else done + [row[..j]]))
         == Ok(Taken(Reading(true, headers, done + [row] + later), rest))
    decreases |later|, |row| - j
  {
    hide TakeColumns, PrintText, AddCell;
    var t := Reading(true, headers, if j == 0 then done else done + [row[..j]]);
    var cell := row[j];
    var tail := PrintTexts(row[j + 1..]) + (PrintRows(later) + rest);
    assert row[j..][1..] == row[j + 1..] && row[j..][0] == cell;
    assert PrintTexts(row[j..]) + (PrintRows(later) + rest) == PrintText(cell) + tail;
    TakeCell(cell, t, count, headerEnd, tail);
    NextCell(row, j, done, headers);
    assert AddCell(t, cell) == Reading(true, headers, done + [row[..j + 1]]);
    if j + 1 < |row| {
      TakeFullRows(row, j + 1, done, later, headers, count, headerEnd, rest);
    } else {
      assert row[..j + 1] == row && row[j + 1..] == [];
      if later == [] {
        assert tail == rest;
        assert done + [row] + later == done + [row];
      } else {
        var row' := later[0];
        assert tail == PrintTexts(row'[0..]) + (PrintRows(later[1..]) + rest) by {
          assert row'[0..] == row';
        }
        TakeFullRows(row', 0, done + [row], later[1..], headers, count, headerEnd, rest);
        assert done + [row] + [row'] + later[1..] == done + [row] + later;
      }
    }
  }

  /** No cell that is read is empty. */
  lemma {:induction false} NoEmptyCellRead(s: seq<byte>, count: uint16, headerEnd: Text, t: Reading)
    requires NoEmptyCell(t.rows) && TakeColumns(s, count, headerEnd, t).Ok?
    ensures NoEmptyCell(TakeColumns(s, count, headerEnd, t).value.value.rows)
    decreases |s|
  {
    hide TakeText, EndsWith;
    if s != [] {
      var column := TakeText(s).value;
      if !t.headersParsed && EndsWith(column.value, headerEnd) {
        NoEmptyCellRead(column.rest, count, headerEnd, t.(headers := t.headers + [column.value]));
      } else if column.value == [] {
        if count > 0 {
          NoEmptyCellRead(column.rest, count, headerEnd, t.(headersParsed := true));
        }
      } else {
        var next := AddCell(t, column.value);
        if !(|next.rows| == count && LastFull(next)) {
          NoEmptyCellRead(column.rest, count, headerEnd, next);
        }
      }
    }
  }

  /** The cells of one row from column `j` on, and all later rows, are read back if and only if none is empty. */
  lemma TakePrintedRows(row: seq<Text>, j: nat, done: seq<seq<Text>>, later: seq<seq<Text>>,
                        headers: seq<Text>, count: uint16, headerEnd: Text, rest: seq<byte>)
    requires headers != [] && j < |row| && PlainRow(row, |headers|)
    requires forall i :: 0 <= i < |later| ==> PlainRow(later[i], |headers|)
    requires forall i :: 0 <= i < |done| ==> |done[i]| == |headers|
    requires NoEmptyCell(done) && [] !in row[..j] && count == |done| + 1 + |later|
    ensures TakeColumns(PrintTexts(row[j..]) + (PrintRows(later) + rest), count, headerEnd,
              Reading(true, headers, if j == 0 then done else done + [row[..j]]))
         == Ok(Taken(Reading(true, headers, done + [row] + later), rest))
        <==> [] !in row[j..] && NoEmptyCell(later)
  {
    hide TakeColumns, PrintRows, PrintTexts;
    assert row == row[..j] + row[j..];
    var s := PrintTexts(row[j..]) + (PrintRows(later) + rest);
    var t := Reading(true, headers, if j == 0 then done else done + [row[..j]]);
    if [] !in row[j..] && NoEmptyCell(later) {
      TakeFullRows(row, j, done, later, headers, count, headerEnd, rest);
    } else if TakeColumns(s, count, headerEnd, t).Ok? {
      NoEmptyCellRead(s, count, headerEnd, t);
      var rows := done + [row] + later;
      assert rows[|done|] == row;
      assert forall i :: 0 <= i < |later| ==> rows[|done| + 1 + i] == later[i];
    }
  }

  lemma {:induction false} TakePrintedHeaders(headers: seq<Text>, t: Reading, count: uint16,
                                             headerEnd: Text, rest: seq<byte>)
    requires forall i :: 0 <= i < |headers| ==> NUL !in headers[i] && EndsWith(headers[i], headerEnd)
    requires !t.headersParsed
    ensures TakeColumns(PrintTexts(headers) + rest, count, headerEnd, t)
         == TakeColumns(rest, count, headerEnd, t.(headers := t.headers + headers))
    decreases |headers|
  {
    hide TakeText, PrintText;
    if headers == [] {
      assert PrintTexts(headers) + rest == rest;
      assert t.headers + headers == t.headers;
    } else {
      var later := PrintTexts(headers[1..]) + rest;
      assert PrintTexts(headers) + rest == PrintText(headers[0]) + later;
      TakePrintedText(headers[0], later);
      NonEmptyText(headers[0]);
      TakePrintedHeaders(headers[1..], t.(headers := t.headers + [headers[0]]), count, headerEnd, rest);
      assert t.headers + [headers[0]] + headers[1..] == t.headers + headers;
    }
  }

  lemma TableColumns(t: Table, headerEnd: Text, rest: seq<byte>)
    requires headerEnd != [] && PlainTable(t, headerEnd)
    ensures |PrintTable(t) + rest| >= 2 && U16((PrintTable(t) + rest)[..2]) == |t.rows|
    ensures TakeColumns((PrintTable(t) + rest)[2..], |t.rows|, headerEnd, Reading(false, [], []))
         == TakeColumns(PrintText([]) + (PrintRows(t.rows) + rest), |t.rows|, headerEnd, Reading(false, t.header, []))
  {
    hide TakeText, PrintText, U16Bytes, U16, TakeColumns;
    var s2 := PrintRows(t.rows) + rest;
    var s1 := PrintTexts(t.header) + (PrintText([]) + s2);
    var s := PrintTable(t) + rest;
    assert s == U16Bytes(|t.rows|) + s1;
    assert s[..2] == U16Bytes(|t.rows|) && s[2..] == s1;
    U16RoundTrip(|t.rows|);
    TakePrintedHeaders(t.header, Reading(false, [], []), |t.rows|, headerEnd, PrintText([]) + s2);
    assert [] + t.header == t.header;
  }

  lemma TakeFullBody(t: Table, headerEnd: Text, rest: seq<byte>)
    requires headerEnd != [] && PlainTable(t, headerEnd) && NoEmptyCell(t.rows)
    ensures TakeColumns(PrintText([]) + (PrintRows(t.rows) + rest), |t.rows|, headerEnd, Reading(false, t.header, []))
         == Ok(Taken(Reading(true, t.header, t.rows), rest))
    ensures t.rows != [] ==> |t.rows[|t.rows| - 1]| == |t.header|
  {
    hide TakeText, PrintText;
    var s := PrintRows(t.rows) + rest;
    TakePrintedText([], s);
    NonEmptyText([]);
    if t.rows == [] {
      assert s == rest;
    } else {
      assert PlainRow(t.rows[0], |t.header|);
      assert t.rows[0][0..] == t.rows[0];
      assert s == PrintTexts(t.rows[0]) + (PrintRows(t.rows[1..]) + rest);
      TakeFullRows(t.rows[0], 0, [], t.rows[1..], t.header, |t.rows|, headerEnd, rest);
      assert [] + [t.rows[0]] + t.rows[1..] == t.rows;
      assert PlainRow(t.rows[|t.rows| - 1], |t.header|);
    }
  }

  /** No cell of an accepted table is empty. */
  lemma NoEmptyCellAccepted(s: seq<byte>, headerEnd: Text)
    requires TakeTable(s, headerEnd).Ok?
    ensures NoEmptyCell(TakeTable(s, headerEnd).value.value.rows)
  {
    hide TakeColumns, U16;
    NoEmptyCellRead(s[2..], U16(s[..2]), headerEnd, Reading(false, [], []));
  }

  /** A printed table is read back, and the cursor stops exactly at what follows, if and only if no cell is empty. */
  lemma TakePrintedTable(t: Table, headerEnd: Text, rest: seq<byte>)
    requires headerEnd != [] && PlainTable(t, headerEnd)
    ensures var r := TakeTable(PrintTable(t) + rest, headerEnd);
      && (r == Ok(Taken(t, rest)) <==> NoEmptyCell(t.rows))
      && (r.Ok? && r.value.value == t ==> NoEmptyCell(t.rows))
  {
    hide TakeColumns, PrintTable, U16, NoEmptyCell;
    var s := PrintTable(t) + rest;
    TableColumns(t, headerEnd, rest);
    if NoEmptyCell(t.rows) {
      TakeFullBody(t, headerEnd, rest);
    } else if TakeTable(s, headerEnd).Ok? {
      NoEmptyCellAccepted(s, headerEnd);
    }
  }

  /** An empty cell shifts all later ones: the table is accepted with a text that belongs to what follows it. */
  lemma EmptyCellShifts(header: Text, headerEnd: Text, cell: Text, next: Text, rest: seq<byte>)
    requires headerEnd != [] && NUL !in header && EndsWith(header, headerEnd)
    requires cell != [] && NUL !in cell && next != [] && NUL !in next
    ensures TakeTable(PrintTable(Table([header], [[[]], [cell]])) + (PrintText(next) + rest), headerEnd)
         == Ok(Taken(Table([header], [[cell], [next]]), rest))
  {
    hide TakeColumns, PrintText, U16;
    var t, tail := Table([header], [[[]], [cell]]), PrintText(next) + rest;
    TableColumns(t, headerEnd, tail);
    var full := Table([header], [[cell], [next]]);
    EmptyCellSkipped(header, cell, next, rest, headerEnd);
    TakeFullBody(full, headerEnd, rest);
  }

  lemma EmptyCellSkipped(header: Text, cell: Text, next: Text, rest: seq<byte>, headerEnd: Text)
    requires cell != [] && NUL !in cell && next != [] && NUL !in next && headerEnd != []
    ensures
      TakeColumns(PrintText([]) + (PrintRows([[[]], [cell]]) + (PrintText(next) + rest)), 2, headerEnd,
                  Reading(false, [header], []))
      == TakeColumns(PrintText([]) + (PrintRows([[cell], [next]]) + rest), 2, headerEnd, Reading(false, [header], []))
  {
    hide TakeText, PrintText;
    var s := PrintText(cell) + (PrintText(next) + rest);
    assert PrintRows([[[]], [cell]]) + (PrintText(next) + rest) == PrintText([]) + s by {
      RowsOfOne([], cell);
    }
    assert PrintRows([[cell], [next]]) + rest == s by {
      RowsOfOne(cell, next);
    }
    NonEmptyText([]);
    TakePrintedText([], PrintText([]) + s);
    TakePrintedText([], s);
  }

  lemma TextsOfOne(a: Text)
    ensures PrintTexts([a]) == PrintText(a)
  {
    hide PrintText;
    assert [a][1..] == [];
    assert PrintTexts([a]) == PrintText(a) + PrintTexts([]);
  }

  lemma RowsOfOne(a: Text, b: Text)
    ensures PrintRows([[a], [b]]) == PrintText(a) + PrintText(b)
  {
    hide PrintText;
    TextsOfOne(a);
    TextsOfOne(b);
    assert [[a], [b]][1..] == [[b]] && [[b]][1..] == [];
    assert PrintRows([[b]]) == PrintTexts([b]) + PrintRows([]) == PrintText(b);
  }

  /** A printed heartbeat is read back, whatever follows, if and only if no key and no cell is empty. */
  lemma ParsePrintedHeartbeat(kind: byte, instance: seq<byte>, pairs: seq<Pair>,
                              players: Table, teams: Table, rest: seq<byte>)
    requires PlainPairs(pairs) && PlainTable(players, PLAYER_END) && PlainTable(teams, TEAM_END)
    ensures
      ParseHeartbeat(Packet(kind, instance, PrintMap(pairs) + (PrintTable(players) + (PrintTable(teams) + rest))))
      == Ok(Heartbeat(instance, EmplaceAll(map[], pairs), players, teams))
      <==> NoEmptyKey(pairs) && NoEmptyCell(players.rows) && NoEmptyCell(teams.rows)
  {
    hide TakeMap, TakeTable, PrintTable, PrintMap, EmplaceAll, NoEmptyKey, NoEmptyCell;
    TakePrintedMap(pairs, PrintTable(players) + (PrintTable(teams) + rest));
    TakePrintedTable(players, PLAYER_END, PrintTable(teams) + rest);
    TakePrintedTable(teams, TEAM_END, rest);
  }

  /** Whatever follows the map, unless it begins with a readable player table, the map alone counts. */
  lemma ParsePrintedMapAlone(kind: byte, instance: seq<byte>, pairs: seq<Pair>, rest: seq<byte>)
    requires PlainPairs(pairs) && TakeTable(rest, PLAYER_END).Err?
    ensures ParseHeartbeat(Packet(kind, instance, PrintMap(pairs) + rest))
         == Ok(Heartbeat(instance, EmplaceAll(map[], pairs), NO_TABLE, NO_TABLE))
        <==> NoEmptyKey(pairs)
  {
    hide TakeMap, TakeTable, PrintMap, EmplaceAll, NoEmptyKey;
    TakePrintedMap(pairs, rest);
  }

  /** A printed map with nothing behind it parses to itself, if and only if no key is empty. */
  lemma ParsePrintedMapOnly(kind: byte, instance: seq<byte>, pairs: seq<Pair>)
    requires PlainPairs(pairs)
    ensures ParseHeartbeat(Packet(kind, instance, PrintMap(pairs)))
         == Ok(Heartbeat(instance, EmplaceAll(map[], pairs), NO_TABLE, NO_TABLE))
        <==> NoEmptyKey(pairs)
  {
    ParsePrintedMapAlone(kind, instance, pairs, []);
    assert PrintMap(pairs) + [] == PrintMap(pairs);
  }

  // ---- what every accepted table is like ----

  /** While a table is read: only the last row may be short, no row is wider than the header. */
  ghost predicate Shaped(t: Reading, count: uint16) {
    && (forall i :: 0 <= i < |t.rows| ==> 0 < |t.rows[i]| <= |t.headers|)
    && (count > 0 ==> |t.rows| <= count)
    && (count > 0 && |t.rows| == count ==> !LastFull(t))
    && (t.rows != [] ==> t.headers != [])
  }

  /** With the header closed before the first cell, every row but the last has header width. */
  ghost predicate Rectangular(t: Reading) {
    t.headersParsed && forall i :: 0 <= i < |t.rows| - 1 ==> |t.rows[i]| == |t.headers|
  }

  lemma {:induction false} ColumnsShape(s: seq<byte>, count: uint16, headerEnd: Text, t: Reading)
    requires count > 0 && Shaped(t, count) && TakeColumns(s, count, headerEnd, t).Ok?
    ensures var r := TakeColumns(s, count, headerEnd, t).value.value;
      && (forall i :: 0 <= i < |r.rows| ==> 0 < |r.rows[i]| <= |r.headers|)
      && |r.rows| <= count
      && (Rectangular(t) ==> Rectangular(r))
    decreases |s|
  {
    hide TakeText;
    if s != [] {
      var column := TakeText(s).value;
      if !t.headersParsed && EndsWith(column.value, headerEnd) {
        ColumnsShape(column.rest, count, headerEnd, t.(headers := t.headers + [column.value]));
      } else if column.value == [] {
        ColumnsShape(column.rest, count, headerEnd, t.(headersParsed := true));
      } else {
        var next := AddCell(t, column.value);
        if !(|next.rows| == count && LastFull(next)) {
          ColumnsShape(column.rest, count, headerEnd, next);
        }
      }
    }
  }

  /** An accepted table that announces rows has exactly that many, none wider than the header, the last one full. */
  lemma TableShape(s: seq<byte>, headerEnd: Text)
    requires TakeTable(s, headerEnd).Ok? && U16(s[..2]) > 0
    ensures var t := TakeTable(s, headerEnd).value.value;
      && |t.rows| == U16(s[..2])
      && (forall i :: 0 <= i < |t.rows| ==> 0 < |t.rows[i]| <= |t.header|)
      && |t.rows[|t.rows| - 1]| == |t.header|
  {
    hide TakeColumns, U16;
    ColumnsShape(s[2..], U16(s[..2]), headerEnd, Reading(false, [], []));
  }

  /** Bytes in which `n` header columns are followed by an empty column. */
  ghost predicate HeaderClosed(s: seq<byte>, headers: seq<Text>, headerEnd: Text, rest: seq<byte>) {
    && headers != []
    && (forall i :: 0 <= i < |headers| ==> NUL !in headers[i] && EndsWith(headers[i], headerEnd))
    && s == PrintTexts(headers) + (PrintText([]) + rest)
  }

  /** If an empty column closes the header before the first cell, every row has header width. */
  lemma ClosedTableIsRectangular(count: uint16, headers: seq<Text>, headerEnd: Text, rest: seq<byte>, s: seq<byte>)
    requires count > 0 && headerEnd != [] && HeaderClosed(s, headers, headerEnd, rest)
    requires TakeTable(U16Bytes(count) + s, headerEnd).Ok?
    ensures var t := TakeTable(U16Bytes(count) + s, headerEnd).value.value;
      t.header == headers && |t.rows| == count && forall i :: 0 <= i < |t.rows| ==> |t.rows[i]| == |headers|
  {
    hide TakeText, PrintText, U16, U16Bytes;
    var bytes := U16Bytes(count) + s;
    assert bytes[..2] == U16Bytes(count) && bytes[2..] == s;
    U16RoundTrip(count);
    TakePrintedHeaders(headers, Reading(false, [], []), count, headerEnd, PrintText([]) + rest);
    assert [] + headers == headers;
    TakePrintedText([], rest);
    NonEmptyText([]);
    ColumnsShape(rest, count, headerEnd, Reading(true, headers, []));
    HeadersKept(rest, count, headerEnd, Reading(true, headers, []));
    TableShape(bytes, headerEnd);
  }

  lemma {:induction false} HeadersKept(s: seq<byte>, count: uint16, headerEnd: Text, t: Reading)
    requires t.headersParsed && TakeColumns(s, count, headerEnd, t).Ok?
    ensures TakeColumns(s, count, headerEnd, t).value.value.headers == t.headers
    decreases |s|
  {
    hide TakeText;
    if s != [] && t.headers != [] {
      var column := TakeText(s).value;
      if column.value == [] {
        if count != 0 {
          HeadersKept(column.rest, count, headerEnd, t);
        }
      } else {
        var next := AddCell(t, column.value);
        if !(|next.rows| == count && LastFull(next)) {
          HeadersKept(column.rest, count, headerEnd, next);
        }
      }
    }
  }

  // ---- the parsers of the server, with their cursor ----

  class DataIterator {
    const data: seq<byte>
    var pos: nat

    ghost predicate Valid()
      reads this
    {
      pos <= |data|
    }

    ghost function Rest(): seq<byte>
      reads this
      requires Valid()
    {
      data[pos..]
    }

    ghost predicate Agrees<T>(r: Result<T>, taken: Result<Taken<T>>)
      reads this
      requires Valid()
    {
      match taken
      case Ok(t) => r == Ok(t.value) && Rest() == t.rest
      case Err(e) => r == Err(e)
    }

    constructor (data: seq<byte>)
      ensures Valid() && this.data == data && Rest() == data
    {
      this.data := data;
      this.pos := 0;
    }

    /** The `std::find` for NUL that every parser starts with. */
    method NextText() returns (r: Result<Text>)
      requires Valid()
      modifies this`pos
      ensures Valid() && Agrees(r, TakeText(old(Rest())))
      ensures r.Ok? ==> pos > old(pos)
    {
      var strEnd := pos + FindByte(data[pos..], NUL);
      if strEnd == |data| {
        return Err(TooSmall);
      }
      r := Ok(data[pos..strEnd]);
      assert data[pos..][..strEnd - pos] == data[pos..strEnd];
      assert data[pos..][strEnd - pos + 1..] == data[strEnd + 1..];
      pos := strEnd + 1;
    }

    method ParseMap() returns (r: Result<map<Text, Text>>)
      requires Valid()
      modifies this`pos
      ensures Valid() && Agrees(r, TakeMap(old(Rest())))
    {
      hide TakeText;
      if pos == |data| {
        return Err(TooSmall);
      }
      var m: map<Text, Text> := map[];
      var key: Text := [];
      ghost var whole := TakePairs(Rest(), map[]);
      while pos != |data|
        invariant Valid()
        invariant key == [] ==> TakePairs(Rest(), m) == whole
        invariant key != [] ==> TakeValue(Rest(), m, key) == whole
        decreases |data| - pos
      {
        var str :- NextText();
        if key == [] {
          if str == [] {
            return Ok(m);
          }
          key := str;
        } else {
          m := Emplace(m, key, str);
          key := [];
        }
      }
      r := Ok(m);
    }

    method ParseTable(headerEnd: Text) returns (r: Result<Table>)
      requires Valid()
      modifies this`pos
      ensures Valid() && Agrees(r, TakeTable(old(Rest()), headerEnd))
    {
      hide TakeText, TakeColumns;
      if pos == |data| {
        return Err(TooSmall);
      }
      var count: int := data[pos] as int * 0x100;
      pos := pos + 1;
      if pos == |data| {
        return Err(TooSmall);
      }
      count := count + data[pos] as int;
      pos := pos + 1;
      ghost var two := old(Rest())[..2];
      assert count == U16(two);
      assert Rest() == old(Rest())[2..];
      var t :- ParseColumns(count, headerEnd);
      if |t.rows| < count || (t.rows != [] && |t.rows[|t.rows| - 1]| != |t.headers|) {
        return Err(TooSmall);
      }
      r := Ok(Table(t.headers, t.rows));
    }

    /** The loop over columns: headers, the empty column, cells. */
    method ParseColumns(count: uint16, headerEnd: Text) returns (r: Result<Reading>)
      requires Valid()
      modifies this`pos
      ensures Valid() && Agrees(r, TakeColumns(old(Rest()), count, headerEnd, Reading(false, [], [])))
    {
      hide TakeText, EndsWith;
      var headersParsed, headers: seq<Text>, rows: seq<seq<Text>> := false, [], [];
      ghost var whole := TakeColumns(Rest(), count, headerEnd, Reading(false, [], []));
      while pos != |data|
        invariant Valid()
        invariant TakeColumns(Rest(), count, headerEnd, Reading(headersParsed, headers, rows)) == whole
        decreases |data| - pos
      {
        var column :- NextText();
        if !headersParsed && EndsWith(column, headerEnd) {
          headers := headers + [column];
        } else {
          if headers == [] {
            return Err(UnexpectedEnd);
          }
          if column == [] {
            headersParsed := true;
            if count == 0 {
              break;
            }
            continue;
          }
          ghost var before := Reading(headersParsed, headers, rows);
          if rows == [] || |rows[|rows| - 1]| == |headers| {
            rows := rows + [[]];
            assert [] + [column] == [column];
            assert rows[|rows| - 1 := [column]] == before.rows + [[column]];
          }
          rows := rows[|rows| - 1 := rows[|rows| - 1] + [column]];
          assert Reading(headersParsed, headers, rows) == AddCell(before, column);
          if |rows| == count && |rows[|rows| - 1]| == |headers| {
            break;
          }
        }
      }
      r := Ok(Reading(headersParsed, headers, rows));
    }
  }

  /** Reading a map with a key already in hand. */
  function TakeValue(s: seq<byte>, m: map<Text, Text>, key: Text): Result<Taken<map<Text, Text>>> {
    if s == [] then Ok(Taken(m, s))
    else
      var value :- TakeText(s);
      TakePairs(value.rest, Emplace(m, key, value.value))
  }

  method ParseHeartbeatPacket(packet: Packet) returns (r: Result<Heartbeat>)
    ensures r == ParseHeartbeat(packet)
  {
    hide TakeMap, TakeTable, Ascii, CutText;
    var it := new DataIterator(packet.data);
    var data := it.ParseMap();
    if data.Ok? {
      var players := it.ParseTable(PLAYER_END);
      if players.Ok? {
        var teams := it.ParseTable(TEAM_END);
        if teams.Ok? {
          return Ok(Heartbeat(packet.instance, data.value, players.value, teams.value));
        }
      } else {
        return Ok(Heartbeat(packet.instance, data.value, NO_TABLE, NO_TABLE));
      }
    }
    return Err(TooSmall);
  }
}

/** The server list request: how the bytes of one packet become a request. */
module ListRequest {
  import opened Bytes
  import opened Parsing
  import opened Tokens

  datatype ParseError =
    | UnknownProtocolVersion
    | UnknownEncodingVersion
    | InvalidKey
    | TooManyKeys
    | InvalidAlternateIp
    | InsufficientLength

  type Result<+T> = Fallible<T, ParseError>

  const PROTOCOL_VERSION: byte := 1
  const ENCODING_VERSION: byte := 3
  const FIELDS_TOTAL_LENGTH := 256
  const FILTER_TOTAL_LENGTH := 256
  const CHALLENGE_LENGTH := 8
  const MIN_SIZE := 26

  const NO_SERVER_LIST := 2
  const ALTERNATE_SOURCE_IP := 8
  const SEND_GROUPS := 32
  const LIMIT_RESULT_COUNT := 128

  datatype Request = Request(
    protocolVersion: byte,
    encodingVersion: byte,
    fromGameVersion: uint32,
    fromGame: Text,
    toGame: Text,
    challenge: seq<byte>,
    serverFilter: Text,
    fieldList: seq<Text>,
    options: uint32,
    alternateSourceIp: Option<uint32>,
    limitResultCount: Option<uint32>)

  /** Tests one option bit. */
  predicate Has(options: uint32, bit: nat)
    requires bit > 0
  {
    options / bit % 2 == 1
  }

  // ---- the grammar, on the bytes still unread ----

  function TakeString(s: seq<byte>, maxLength: Option<nat>): Result<Taken<Text>> {
    var text := CutText(s);
    if text.None? then Err(InsufficientLength)
    else if maxLength.Some? && |text.value.value| > maxLength.value then Err(TooManyKeys)
    else Ok(text.value)
  }

  function TakeSpan(s: seq<byte>, n: nat): Result<Taken<seq<byte>>> {
    if |s| < n then Err(InsufficientLength) else Ok(Taken(s[..n], s[n..]))
  }

  function TakeUInt32(s: seq<byte>): Result<Taken<uint32>> {
    if |s| < 4 then Err(InsufficientLength) else Ok(Taken(U32(s[..4]), s[4..]))
  }

  function TakeOptions(s: seq<byte>): Result<Taken<uint32>> {
    var taken :- TakeUInt32(s);
    if taken.value <= LIMIT_RESULT_COUNT then Ok(taken) else Err(InvalidKey)
  }

  /** A lazily split view of the empty text has no elements at all. */
  function FieldNames(s: Text): seq<Text> {
    if s == [] then [] else Pieces(s)
  }

  function TakeFieldList(s: seq<byte>): Result<Taken<seq<Text>>> {
    var taken :- TakeString(s, Some(FIELDS_TOTAL_LENGTH));
    if taken.value == [] || taken.value[0] != BACKSLASH then Err(InvalidKey)
    else Ok(Taken(FieldNames(taken.value[1..]), taken.rest))
  }

  function TakeWhen(s: seq<byte>, options: uint32, bit: nat): Result<Taken<Option<uint32>>>
    requires bit > 0
  {
    if Has(options, bit) then
      var taken :- TakeUInt32(s);
      Ok(Taken(Some(taken.value), taken.rest))
    else Ok(Taken(None, s))
  }

  function ParseBody(s: seq<byte>): Result<Taken<Request>> {
    var version :- TakeUInt32(s);
    var fromGame :- TakeString(version.rest, None);
    var toGame :- TakeString(fromGame.rest, None);
    var challenge :- TakeSpan(toGame.rest, CHALLENGE_LENGTH);
    var filter :- TakeString(challenge.rest, Some(FILTER_TOTAL_LENGTH));
    var fields :- TakeFieldList(filter.rest);
    var options :- TakeOptions(fields.rest);
    var alternate :- TakeWhen(options.rest, options.value, ALTERNATE_SOURCE_IP);
    var limit :- TakeWhen(alternate.rest, options.value, LIMIT_RESULT_COUNT);
    Ok(Taken(
      Request(PROTOCOL_VERSION, ENCODING_VERSION, version.value, fromGame.value, toGame.value, challenge.value,
        filter.value, fields.value, options.value, alternate.value, limit.value),
      limit.rest))
  }

  function Parse(packet: seq<byte>): Result<Request> {
    if |packet| < MIN_SIZE then Err(InsufficientLength)
    else if packet[0] != PROTOCOL_VERSION then Err(UnknownProtocolVersion)
    else if packet[1] != ENCODING_VERSION then Err(UnknownEncodingVersion)
    else
      var body :- ParseBody(packet[2..]);
      Ok(body.value)
  }

  // ---- the parser of the server, with its cursor ----

  class PacketIterator {
    const packet: seq<byte>
    var pos: nat

    ghost predicate Valid()
      reads this
    {
      pos <= |packet|
    }

    ghost function Rest(): seq<byte>
      reads this
      requires Valid()
    {
      packet[pos..]
    }

    constructor (packet: seq<byte>, pos: nat)
      requires pos <= |packet|
      ensures Valid() && this.packet == packet && Rest() == packet[pos..]
    {
      this.packet := packet;
      this.pos := pos;
    }

    method ExtractString(maxLength: Option<nat>) returns (r: Result<Text>)
      requires Valid()
      modifies this
      ensures Valid() && Agrees(r, TakeString(old(Rest()), maxLength))
      ensures r.Err? ==> pos == old(pos)
    {
      hide CutText;
      var strEnd := pos;
      while strEnd < |packet| && packet[strEnd] != NUL
        invariant pos <= strEnd <= |packet|
        invariant forall k :: pos <= k < strEnd ==> packet[k] != NUL
      {
        strEnd := strEnd + 1;
      }
      CutAt(packet[pos..], strEnd - pos);
      if strEnd == |packet| {
        return Err(InsufficientLength);
      }
      if maxLength.Some? && strEnd - pos > maxLength.value {
        return Err(TooManyKeys);
      }
      r := Ok(packet[pos..strEnd]);
      assert packet[pos..][..strEnd - pos] == packet[pos..strEnd];
      assert packet[pos..][strEnd - pos + 1..] == packet[strEnd + 1..];
      pos := strEnd + 1;
    }

    method ExtractSpan(n: nat) returns (r: Result<seq<byte>>)
      requires Valid()
      modifies this
      ensures Valid() && Agrees(r, TakeSpan(old(Rest()), n))
    {
      if |packet| - pos < n {
        return Err(InsufficientLength);
      }
      r := Ok(packet[pos..pos + n]);
      assert packet[pos..][..n] == packet[pos..pos + n];
      assert packet[pos..][n..] == packet[pos + n..];
      pos := pos + n;
    }

    method ExtractUInt32() returns (r: Result<uint32>)
      requires Valid()
      modifies this
      ensures Valid() && Agrees(r, TakeUInt32(old(Rest())))
    {
      if |packet| - pos < 4 {
        return Err(InsufficientLength);
      }
      var value := packet[pos] as int;
      value := value * 0x100 + packet[pos + 1] as int;
      value := value * 0x100 + packet[pos + 2] as int;
      value := value * 0x100 + packet[pos + 3] as int;
      assert packet[pos..][4..] == packet[pos + 4..];
      pos := pos + 4;
      r := Ok(value);
    }

    method ExtractOptions() returns (r: Result<uint32>)
      requires Valid()
      modifies this
      ensures Valid() && Agrees(r, TakeOptions(old(Rest())))
    {
      var value :- ExtractUInt32();
      if value == 0 {
        return Ok(0);
      }
      if 1 <= value <= LIMIT_RESULT_COUNT {
        return Ok(value);
      }
      return Err(InvalidKey);
    }

    method ExtractFieldList() returns (r: Result<seq<Text>>)
      requires Valid()
      modifies this
      ensures Valid() && Agrees(r, TakeFieldList(old(Rest())))
    {
      var fieldStr :- ExtractString(Some(FIELDS_TOTAL_LENGTH));
      if fieldStr == [] || fieldStr[0] != BACKSLASH {
        return Err(InvalidKey);
      }
      r := Ok(FieldNames(fieldStr[1..]));
    }

    method ExtractWhen(options: uint32, bit: nat) returns (r: Result<Option<uint32>>)
      requires Valid() && bit > 0
      modifies this
      ensures Valid() && Agrees(r, TakeWhen(old(Rest()), options, bit))
    {
      if Has(options, bit) {
        var value :- ExtractUInt32();
        return Ok(Some(value));
      }
      return Ok(None);
    }

    /** The cursor yields the value of the grammar and stands where the grammar stopped. */
    ghost predicate Agrees<T>(r: Result<T>, taken: Result<Taken<T>>)
      reads this
      requires Valid()
    {
      match taken
      case Ok(t) => r == Ok(t.value) && Rest() == t.rest
      case Err(e) => r == Err(e)
    }
  }

  method ParseRequest(packet: seq<byte>) returns (r: Result<Request>)
    ensures r == Parse(packet)
  {
    hide TakeString, TakeSpan, TakeUInt32, TakeOptions, TakeFieldList, TakeWhen;
    if |packet| < MIN_SIZE {
      return Err(InsufficientLength);
    }
    var protocol := packet[0];
    if protocol != PROTOCOL_VERSION {
      return Err(UnknownProtocolVersion);
    }
    var encoding := packet[1];
    if encoding != ENCODING_VERSION {
      return Err(UnknownEncodingVersion);
    }
    var it := new PacketIterator(packet, 2);
    var gameVersion :- it.ExtractUInt32();
    var fromGame :- it.ExtractString(None);
    var toGame :- it.ExtractString(None);
    var challenge :- it.ExtractSpan(CHALLENGE_LENGTH);
    var serverFilter :- it.ExtractString(Some(FILTER_TOTAL_LENGTH));
    var fieldList :- it.ExtractFieldList();
    var options :- it.ExtractOptions();
    var alternateIp :- it.ExtractWhen(options, ALTERNATE_SOURCE_IP);
    var limit :- it.ExtractWhen(options, LIMIT_RESULT_COUNT);
    r := Ok(Request(protocol, encoding, gameVersion, fromGame, toGame, challenge, serverFilter, fieldList,
      options, alternateIp, limit));
  }

  // ---- printing, and what a parsed request is like ----

  function PrintWhen(value: Option<uint32>): seq<byte> {
    if value.Some? then U32Bytes(value.value) else []
  }

  function PrintBody(r: Request): seq<byte> {
    U32Bytes(r.fromGameVersion)
    + (r.fromGame + [NUL]
    + (r.toGame + [NUL]
    + (r.challenge
    + (r.serverFilter + [NUL]
    + ([BACKSLASH] + Join(r.fieldList) + [NUL]
    + (U32Bytes(r.options)
    + (PrintWhen(r.alternateSourceIp)
    + PrintWhen(r.limitResultCount))))))))
  }

  function Print(r: Request): seq<byte> {
    [r.protocolVersion, r.encodingVersion] + PrintBody(r)
  }

  ghost predicate Printable(r: Request) {
    && r.protocolVersion == PROTOCOL_VERSION && r.encodingVersion == ENCODING_VERSION
    && NUL !in r.fromGame && NUL !in r.toGame && NUL !in r.serverFilter
    && |r.challenge| == CHALLENGE_LENGTH
    && |r.serverFilter| <= FILTER_TOTAL_LENGTH
    && |Join(r.fieldList)| + 1 <= FIELDS_TOTAL_LENGTH
    && (forall f :: f in r.fieldList ==> NUL !in f && BACKSLASH !in f)
    && r.options <= LIMIT_RESULT_COUNT
    && (r.alternateSourceIp.Some? <==> Has(r.options, ALTERNATE_SOURCE_IP))
    && (r.limitResultCount.Some? <==> Has(r.options, LIMIT_RESULT_COUNT))
  }

  /** The one field list that prints like another: a single empty name prints like no name. */
  function Reread(fields: seq<Text>): seq<Text> {
    if fields == [[]] then [] else fields
  }

  lemma FieldNamesJoin(fields: seq<Text>)
    requires forall f :: f in fields ==> BACKSLASH !in f
    ensures FieldNames(Join(fields)) == Reread(fields)
  {
    if fields != [] {
      PiecesJoin(fields);
    }
  }

  lemma TakeStringPrinted(text: Text, maxLength: Option<nat>, rest: seq<byte>)
    requires NUL !in text && (maxLength.Some? ==> |text| <= maxLength.value)
    ensures TakeString(text + [NUL] + rest, maxLength) == Ok(Taken(text, rest))
  {
    hide CutText;
    CutPrinted(text, rest);
  }

  lemma TakeUInt32Printed(n: uint32, rest: seq<byte>)
    ensures TakeUInt32(U32Bytes(n) + rest) == Ok(Taken(n, rest))
  {
    U32RoundTrip(n);
    assert (U32Bytes(n) + rest)[..4] == U32Bytes(n);
    assert (U32Bytes(n) + rest)[4..] == rest;
  }

  lemma TakeSpanPrinted(span: seq<byte>, rest: seq<byte>)
    ensures TakeSpan(span + rest, |span|) == Ok(Taken(span, rest))
  {
    assert (span + rest)[..|span|] == span;
    assert (span + rest)[|span|..] == rest;
  }

  lemma TakeFieldListPrinted(fields: seq<Text>, rest: seq<byte>)
    requires forall f :: f in fields ==> NUL !in f && BACKSLASH !in f
    requires |Join(fields)| + 1 <= FIELDS_TOTAL_LENGTH
    ensures TakeFieldList([BACKSLASH] + Join(fields) + [NUL] + rest) == Ok(Taken(Reread(fields), rest))
  {
    JoinNulFree(fields);
    TakeStringPrinted([BACKSLASH] + Join(fields), Some(FIELDS_TOTAL_LENGTH), rest);
    assert ([BACKSLASH] + Join(fields))[1..] == Join(fields);
    FieldNamesJoin(fields);
  }

  lemma TakeWhenPrinted(value: Option<uint32>, options: uint32, bit: nat, rest: seq<byte>)
    requires bit > 0 && (value.Some? <==> Has(options, bit))
    ensures TakeWhen(PrintWhen(value) + rest, options, bit) == Ok(Taken(value, rest))
  {
    if value.Some? {
      TakeUInt32Printed(value.value, rest);
    } else {
      assert PrintWhen(value) + rest == rest;
    }
  }

  /** The bytes of a printed request from each of its fields on, with anything behind it. */
  lemma ParseBodyPrinted(r: Request, trailing: seq<byte>)
    requires Printable(r)
    ensures ParseBody(PrintBody(r) + trailing) == Ok(Taken(r.(fieldList := Reread(r.fieldList)), trailing))
  {
    hide Reread, Join, PrintWhen, U32Bytes, TakeString, TakeSpan, TakeUInt32, TakeFieldList, TakeWhen, Has;
    var s8 := PrintWhen(r.limitResultCount) + trailing;
    var s7 := PrintWhen(r.alternateSourceIp) + s8;
    var s6 := U32Bytes(r.options) + s7;
    var s5 := [BACKSLASH] + Join(r.fieldList) + [NUL] + s6;
    var s4 := r.serverFilter + [NUL] + s5;
    var s3 := r.challenge + s4;
    var s2 := r.toGame + [NUL] + s3;
    var s1 := r.fromGame + [NUL] + s2;
    assert PrintBody(r) + trailing == U32Bytes(r.fromGameVersion) + s1;
    TakeUInt32Printed(r.fromGameVersion, s1);
    TakeStringPrinted(r.fromGame, None, s2);
    TakeStringPrinted(r.toGame, None, s3);
    TakeSpanPrinted(r.challenge, s4);
    TakeStringPrinted(r.serverFilter, Some(FILTER_TOTAL_LENGTH), s5);
    TakeFieldListPrinted(r.fieldList, s6);
    TakeUInt32Printed(r.options, s7);
    TakeWhenPrinted(r.alternateSourceIp, r.options, ALTERNATE_SOURCE_IP, s8);
    TakeWhenPrinted(r.limitResultCount, r.options, LIMIT_RESULT_COUNT, trailing);
  }

  /** A printed request parses, whatever follows it, and to itself unless its only field name is empty. */
  lemma ParsePrinted(r: Request, trailing: seq<byte>)
    requires Printable(r) && |Print(r) + trailing| >= MIN_SIZE
    ensures Parse(Print(r) + trailing) == Ok(r.(fieldList := Reread(r.fieldList)))
    ensures Parse(Print(r) + trailing) == Ok(r) <==> r.fieldList != [[]]
  {
    hide ParseBody, PrintBody;
    var packet := Print(r) + trailing;
    assert packet[2..] == PrintBody(r) + trailing;
    ParseBodyPrinted(r, trailing);
  }

  // ---- accepted requests ----

  lemma TakenStringPrints(s: seq<byte>, maxLength: Option<nat>)
    requires TakeString(s, maxLength).Ok?
    ensures var t := TakeString(s, maxLength).value; s == t.value + [NUL] + t.rest
  {
  }

  lemma TakenUInt32Prints(s: seq<byte>)
    requires TakeUInt32(s).Ok?
    ensures var t := TakeUInt32(s).value; s == U32Bytes(t.value) + t.rest
  {
    U32BytesInverse(s[..4]);
  }

  lemma TakenFieldListPrints(s: seq<byte>)
    requires TakeFieldList(s).Ok?
    ensures var t := TakeFieldList(s).value;
            s == [BACKSLASH] + Join(t.value) + [NUL] + t.rest && |Join(t.value)| < FIELDS_TOTAL_LENGTH
  {
    TakenStringPrints(s, Some(FIELDS_TOTAL_LENGTH));
    var fieldStr := TakeString(s, Some(FIELDS_TOTAL_LENGTH)).value.value;
    if fieldStr[1..] != [] {
      JoinPieces(fieldStr[1..]);
    }
    assert fieldStr == [BACKSLASH] + fieldStr[1..];
  }

  lemma TakenWhenPrints(s: seq<byte>, options: uint32, bit: nat)
    requires bit > 0 && TakeWhen(s, options, bit).Ok?
    ensures var t := TakeWhen(s, options, bit).value;
            s == PrintWhen(t.value) + t.rest && (t.value.Some? <==> Has(options, bit))
  {
    if Has(options, bit) {
      TakenUInt32Prints(s);
    }
  }

  lemma TakenSpanPrints(s: seq<byte>, n: nat)
    requires TakeSpan(s, n).Ok?
    ensures var t := TakeSpan(s, n).value; s == t.value + t.rest && |t.value| == n
  {
  }

  lemma ParsedBodyPrints(s: seq<byte>)
    requires ParseBody(s).Ok?
    ensures var t := ParseBody(s).value;
            && s == PrintBody(t.value) + t.rest
            && t.value.protocolVersion == PROTOCOL_VERSION && t.value.encodingVersion == ENCODING_VERSION
  {
    hide TakeString, TakeSpan, TakeUInt32, TakeFieldList, TakeWhen, Has, Join, PrintWhen, U32Bytes;
    TakenUInt32Prints(s);
    var version := TakeUInt32(s).value;
    TakenStringPrints(version.rest, None);
    var fromGame := TakeString(version.rest, None).value;
    TakenStringPrints(fromGame.rest, None);
    var toGame := TakeString(fromGame.rest, None).value;
    TakenSpanPrints(toGame.rest, CHALLENGE_LENGTH);
    var challenge := TakeSpan(toGame.rest, CHALLENGE_LENGTH).value;
    TakenStringPrints(challenge.rest, Some(FILTER_TOTAL_LENGTH));
    var filter := TakeString(challenge.rest, Some(FILTER_TOTAL_LENGTH)).value;
    TakenFieldListPrints(filter.rest);
    var fields := TakeFieldList(filter.rest).value;
    TakenUInt32Prints(fields.rest);
    var options := TakeOptions(fields.rest).value;
    TakenWhenPrints(options.rest, options.value, ALTERNATE_SOURCE_IP);
    var alternate := TakeWhen(options.rest, options.value, ALTERNATE_SOURCE_IP).value;
    TakenWhenPrints(alternate.rest, options.value, LIMIT_RESULT_COUNT);
  }

  /** Whatever packet is accepted begins with the print of the request it was read as. */
  lemma ParsedPrints(packet: seq<byte>)
    requires Parse(packet).Ok?
    ensures Print(Parse(packet).value) <= packet
  {
    hide ParseBody, PrintBody;
    ParsedBodyPrints(packet[2..]);
    var body := ParseBody(packet[2..]).value;
    assert packet == Print(body.value) + body.rest;
  }

  function TotalLength(fields: seq<Text>): nat {
    if fields == [] then 0 else |fields[0]| + TotalLength(fields[1..])
  }

  lemma {:induction false} JoinLength(fields: seq<Text>)
    requires fields != []
    ensures |Join(fields)| == TotalLength(fields) + |fields| - 1
  {
    if |fields| > 1 {
      JoinLength(fields[1..]);
    }
  }

  lemma {:induction false} TotalLengthAtLeast(fields: seq<Text>)
    requires forall f :: f in fields ==> f != []
    ensures TotalLength(fields) >= |fields|
  {
    if fields != [] {
      assert fields[0] in fields && forall f :: f in fields[1..] ==> f in fields;
      TotalLengthAtLeast(fields[1..]);
    }
  }

  /** Options of an accepted request: at most one of the two optional numbers follows them. */
  lemma AcceptedOptions(packet: seq<byte>)
    requires Parse(packet).Ok?
    ensures var r := Parse(packet).value;
            && r.options <= LIMIT_RESULT_COUNT
            && (r.alternateSourceIp.Some? <==> Has(r.options, ALTERNATE_SOURCE_IP))
            && (r.limitResultCount.Some? <==> r.options == LIMIT_RESULT_COUNT)
            && !(r.alternateSourceIp.Some? && r.limitResultCount.Some?)
  {
    hide TakeString, TakeSpan, TakeUInt32, TakeFieldList;
    var r := Parse(packet).value;
    assert Has(r.options, LIMIT_RESULT_COUNT) <==> r.options == LIMIT_RESULT_COUNT;
  }

  /**
   The count byte of the response header is the number of fields exactly when there are
   fewer than 256 of them; with non-empty names there are at most 128.
   */
  lemma AcceptedFieldCount(packet: seq<byte>)
    requires Parse(packet).Ok?
    ensures var fields := Parse(packet).value.fieldList;
            && |fields| <= 256
            && (ToByte(|fields|) == |fields| <==> |fields| < 256)
            && ((forall f :: f in fields ==> f != []) ==> |fields| <= 128)
  {
    hide TakeString, TakeSpan, TakeUInt32, TakeWhen, TakeFieldList, Join, TotalLength;
    var fields := Parse(packet).value.fieldList;
    assert |Join(fields)| < FIELDS_TOTAL_LENGTH by {
      var version := TakeUInt32(packet[2..]).value;
      var fromGame := TakeString(version.rest, None).value;
      var toGame := TakeString(fromGame.rest, None).value;
      var challenge := TakeSpan(toGame.rest, CHALLENGE_LENGTH).value;
      var filter := TakeString(challenge.rest, Some(FILTER_TOTAL_LENGTH)).value;
      TakenFieldListPrints(filter.rest);
    }
    if fields != [] {
      JoinLength(fields);
      if forall f :: f in fields ==> f != [] {
        TotalLengthAtLeast(fields);
      }
    }
  }

  lemma {:induction false} PiecesNulFree(s: Text)
    requires NUL !in s
    ensures forall p :: p in Pieces(s) ==> NUL !in p
    decreases |s|
  {
    hide FindByte;
    var n := FindByte(s, BACKSLASH);
    assert NUL !in s[..n];
    if n < |s| {
      assert NUL !in s[n + 1..];
      PiecesNulFree(s[n + 1..]);
    }
  }

  /** The field names of an accepted request are free of NUL, so they can go onto the wire in front of one. */
  lemma AcceptedFieldsNulFree(packet: seq<byte>)
    requires Parse(packet).Ok?
    ensures forall f :: f in Parse(packet).value.fieldList ==> NUL !in f
  {
    hide CutText, TakeUInt32, TakeWhen, Pieces;
    var version := TakeUInt32(packet[2..]).value;
    var fromGame := TakeString(version.rest, None).value;
    var toGame := TakeString(fromGame.rest, None).value;
    var challenge := TakeSpan(toGame.rest, CHALLENGE_LENGTH).value;
    var filter := TakeString(challenge.rest, Some(FILTER_TOTAL_LENGTH)).value;
    var text := TakeString(filter.rest, Some(FIELDS_TOTAL_LENGTH)).value.value;
    assert NUL !in text[1..];
    PiecesNulFree(text[1..]);
  }

  lemma {:induction false} TotalLengthEmpty(fields: seq<Text>)
    requires forall i :: 0 <= i < |fields| ==> fields[i] == []
    ensures TotalLength(fields) == 0
  {
    if fields != [] {
      TotalLengthEmpty(fields[1..]);
    }
  }

  /** A request whose field text is 256 backslashes is accepted, and its count byte is zero. */
  lemma FieldCountWraps() returns (packet: seq<byte>)
    ensures Parse(packet).Ok?
    ensures |Parse(packet).value.fieldList| == 256 && ToByte(|Parse(packet).value.fieldList|) == 0
  {
    hide ParseBody, PrintBody;
    var fields: seq<Text> := seq(256, _ => []);
    TotalLengthEmpty(fields);
    JoinLength(fields);
    var challenge := [0, 0, 0, 0, 0, 0, 0, 0];
    var r := Request(PROTOCOL_VERSION, ENCODING_VERSION, 0, [], [], challenge, [], fields, 0, None, None);
    var padding := seq(MIN_SIZE, _ => NUL);
    packet := Print(r) + padding;
    ParsePrinted(r, padding);
  }
}

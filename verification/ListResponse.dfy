/** The two encoders of a server list response, and a client that decodes what they write. */
module ListResponse {
  import opened Bytes
  import opened Parsing

  datatype SendType = AsString | AsByte | AsShort {
    function Code(): byte {
      match this
      case AsString => 0
      case AsByte => 1
      case AsShort => 2
    }

    static function FromCode(code: byte): Option<SendType> {
      if code == 0 then Some(AsString) else if code == 1 then Some(AsByte)
      else if code == 2 then Some(AsShort) else None
    }
  }

  type Ip = s: seq<byte> | |s| == 4 witness [0, 0, 0, 0]

  /** The part of a registered game the encoders read; unknown keys are sent as strings. */
  datatype Game = Game(secretKey: Text, queryPort: uint16, backend: uint16, params: map<Text, SendType>) {
    function GetParamSendType(key: Text): SendType {
      if key in params then params[key] else AsString
    }
  }

  datatype Server = Server(
    publicIp: Ip,
    publicPort: uint16,
    privateIp: Option<Ip>,
    privatePort: uint16,
    icmpIp: Option<Ip>,
    data: map<Text, Text>,
    rules: Text)
  {
    function ValueOf(key: Text): Text {
      if key in data then data[key] else []
    }
  }

  // ---- what a client learns ----

  datatype Value = TextValue(text: Text) | NumberValue(n: nat)

  datatype Listing = Listing(
    ip: Ip,
    port: uint16,
    privateIp: Option<Ip>,
    privatePort: uint16,
    icmpIp: Option<Ip>,
    connectNegotiate: bool,
    values: seq<Value>,
    rules: Text)

  /** An empty number counts as zero. */
  function TransportedNumber(value: Text, max: nat): Option<Value> {
    if value == [] then Some(NumberValue(0))
    else
      var n := FromChars(value, max);
      if n.Some? then Some(NumberValue(n.value)) else None
  }

  /** The value of one requested key as its type transports it; None when the text is no such number. */
  function Transported(value: Text, sendAs: SendType): Option<Value> {
    match sendAs
    case AsString => Some(TextValue(value))
    case AsByte => TransportedNumber(value, 0xFF)
    case AsShort => TransportedNumber(value, 0xFFFF)
  }

  const NATNEG: Text := Ascii("natneg")
  const ONE: Text := Ascii("1")

  predicate ConnectNegotiate(server: Server) {
    NATNEG in server.data && server.data[NATNEG] == ONE
  }

  /** All values a client is owed, in the order of the requested fields. */
  function TransportedAll(game: Game, server: Server, fields: seq<Text>): Option<seq<Value>> {
    if fields == [] then Some([])
    else
      var first := Transported(server.ValueOf(fields[0]), game.GetParamSendType(fields[0]));
      var rest := TransportedAll(game, server, fields[1..]);
      if first.Some? && rest.Some? then Some([first.value] + rest.value) else None
  }

  function ListingOf(game: Game, server: Server, fields: seq<Text>): Option<Listing> {
    var values := TransportedAll(game, server, fields);
    if values.None? then None
    else Some(Listing(server.publicIp, server.publicPort, server.privateIp, server.privatePort, server.icmpIp,
      ConnectNegotiate(server), values.value, server.rules))
  }

  // ---- one server record ----

  const UNSOLICITED_UDP := 1
  const PRIVATE_IP := 2
  const CONNECT_NEGOTIATE := 4
  const ICMP_IP := 8
  const NON_STANDARD_PORT := 16
  const NON_STANDARD_PRIVATE_PORT := 32
  const HAS_KEYS := 64
  const HAS_FULL_RULES := 128

  function Bit(condition: bool, bit: nat): nat {
    if condition then bit else 0
  }

  /** Four flags as a number, the first one least significant. */
  function Nibble(b0: bool, b1: bool, b2: bool, b3: bool): (n: nat)
    ensures n < 16
  {
    Bit(b0, 1) + Bit(b1, 2) + Bit(b2, 4) + Bit(b3, 8)
  }

  /** All eight flags, in the order of their bits. */
  function FlagByte(b0: bool, b1: bool, b2: bool, b3: bool, b4: bool, b5: bool, b6: bool, b7: bool): byte {
    Nibble(b0, b1, b2, b3) + 16 * Nibble(b4, b5, b6, b7)
  }

  function Flags(game: Game, server: Server): byte {
    FlagByte(true, server.privateIp.Some?, ConnectNegotiate(server), server.icmpIp.Some?,
      server.publicPort != game.queryPort, server.privatePort != 0, server.data != map[], server.rules != [])
  }

  function PortBytes(present: bool, port: uint16): seq<byte> {
    if present then U16Bytes(port) else []
  }

  function IpBytes(ip: Option<Ip>): seq<byte> {
    if ip.Some? then ip.value else []
  }

  function ValueBytes(value: Value, sendAs: SendType): seq<byte> {
    match value
    case TextValue(text) => [0xFF] + text + [NUL]
    case NumberValue(n) => if sendAs == AsByte then [ToByte(n)] else [ToByte(n / 0x100), ToByte(n)]
  }

  function ValuesBytes(game: Game, fields: seq<Text>, values: seq<Value>): seq<byte>
    requires |values| == |fields|
  {
    if fields == [] then []
    else ValueBytes(values[0], game.GetParamSendType(fields[0])) + ValuesBytes(game, fields[1..], values[1..])
  }

  function RulesBytes(rules: Text): seq<byte> {
    if rules == [] then [] else rules + [NUL]
  }

  lemma {:induction false} TransportedAllLength(game: Game, server: Server, fields: seq<Text>)
    requires TransportedAll(game, server, fields).Some?
    ensures |TransportedAll(game, server, fields).value| == |fields|
  {
    if fields != [] {
      TransportedAllLength(game, server, fields[1..]);
    }
  }

  /** The record of a server, part by part; None when a number does not parse. */
  function Record(game: Game, server: Server, fields: seq<Text>): Option<seq<byte>> {
    var values := TransportedAll(game, server, fields);
    if values.None? then None
    else
      TransportedAllLength(game, server, fields);
      Some([Flags(game, server)]
        + (server.publicIp
        + (PortBytes(server.publicPort != game.queryPort, server.publicPort)
        + (IpBytes(server.privateIp)
        + (PortBytes(server.privatePort != 0, server.privatePort)
        + (IpBytes(server.icmpIp)
        + (ValuesBytes(game, fields, values.value)
        + RulesBytes(server.rules))))))))
  }

  // ---- the client's decoder ----

  predicate Set(flags: byte, bit: nat)
    requires bit > 0
  {
    flags / bit % 2 == 1
  }

  function ReadBytes(s: seq<byte>, n: nat): (r: Option<Taken<seq<byte>>>)
    ensures r.Some? ==> |r.value.value| == n && |r.value.rest| + n == |s|
  {
    if |s| < n then None else Some(Taken(s[..n], s[n..]))
  }

  function ReadPort(s: seq<byte>, present: bool, default: uint16): (r: Option<Taken<uint16>>)
    ensures r.Some? ==> |r.value.rest| <= |s|
  {
    if !present then Some(Taken(default, s))
    else
      var t := ReadBytes(s, 2);
      if t.None? then None else Some(Taken(U16(t.value.value), t.value.rest))
  }

  function ReadIp(s: seq<byte>, present: bool): (r: Option<Taken<Option<Ip>>>)
    ensures r.Some? ==> |r.value.rest| <= |s|
  {
    if !present then Some(Taken(None, s))
    else
      var t := ReadBytes(s, 4);
      if t.None? then None else Some(Taken(Some(t.value.value), t.value.rest))
  }

  function ReadValue(s: seq<byte>, sendAs: SendType): (r: Option<Taken<Value>>)
    ensures r.Some? ==> |r.value.rest| < |s|
  {
    if s == [] then None
    else
      match sendAs
      case AsString =>
        if s[0] != 0xFF then None
        else
          var t := CutText(s[1..]);
          if t.None? then None else Some(Taken(TextValue(t.value.value), t.value.rest))
      case AsByte => Some(Taken(NumberValue(s[0]), s[1..]))
      case AsShort =>
        if |s| < 2 then None else Some(Taken(NumberValue(U16(s[..2])), s[2..]))
  }

  function ReadValues(s: seq<byte>, types: seq<SendType>): (r: Option<Taken<seq<Value>>>)
    ensures r.Some? ==> |r.value.rest| <= |s|
    decreases |types|
  {
    if types == [] then Some(Taken([], s))
    else
      var first := ReadValue(s, types[0]);
      if first.None? then None
      else
        var later := ReadValues(first.value.rest, types[1..]);
        if later.None? then None
        else Some(Taken([first.value.value] + later.value.value, later.value.rest))
  }

  /** The values of a record are there exactly when its keys flag is set. */
  function ReadKeys(s: seq<byte>, present: bool, types: seq<SendType>): (r: Option<Taken<seq<Value>>>)
    ensures r.Some? ==> |r.value.rest| <= |s|
  {
    if present then ReadValues(s, types) else Some(Taken([], s))
  }

  function ReadRules(s: seq<byte>, present: bool): (r: Option<Taken<Text>>)
    ensures r.Some? ==> |r.value.rest| <= |s|
  {
    if present then CutText(s) else Some(Taken([], s))
  }

  /** Decodes one record, guided by its flag byte and the announced field types only. */
  function ReadRecord(s: seq<byte>, types: seq<SendType>, queryPort: uint16): (r: Option<Taken<Listing>>)
    ensures r.Some? ==> |r.value.rest| < |s|
  {
    if s == [] then None
    else
      var flags := s[0];
      var ip := ReadBytes(s[1..], 4);
      if ip.None? then None else
      var port := ReadPort(ip.value.rest, Set(flags, NON_STANDARD_PORT), queryPort);
      if port.None? then None else
      var privateIp := ReadIp(port.value.rest, Set(flags, PRIVATE_IP));
      if privateIp.None? then None else
      var privatePort := ReadPort(privateIp.value.rest, Set(flags, NON_STANDARD_PRIVATE_PORT), 0);
      if privatePort.None? then None else
      var icmpIp := ReadIp(privatePort.value.rest, Set(flags, ICMP_IP));
      if icmpIp.None? then None else
      var values := ReadKeys(icmpIp.value.rest, Set(flags, HAS_KEYS), types);
      if values.None? then None else
      var rules := ReadRules(values.value.rest, Set(flags, HAS_FULL_RULES));
      if rules.None? then None else
      Some(Taken(
        Listing(ip.value.value, port.value.value, privateIp.value.value, privatePort.value.value, icmpIp.value.value,
          Set(flags, CONNECT_NEGOTIATE), values.value.value, rules.value.value),
        rules.value.rest))
  }

  function Types(game: Game, fields: seq<Text>): (types: seq<SendType>)
    ensures |types| == |fields|
  {
    if fields == [] then [] else [game.GetParamSendType(fields[0])] + Types(game, fields[1..])
  }

  // ---- records are self-delimiting ----

  /** Text that goes onto the wire in front of a terminator does not contain one. */
  ghost predicate Clean(game: Game, server: Server, fields: seq<Text>) {
    && (forall f :: f in fields && game.GetParamSendType(f) == AsString ==> NUL !in server.ValueOf(f))
    && NUL !in server.rules
  }

  /** The database fills the data of every listed server with all requested fields. */
  predicate Filled(server: Server, fields: seq<Text>) {
    fields == [] || server.data != map[]
  }

  lemma FlagByteBits(b0: bool, b1: bool, b2: bool, b3: bool, b4: bool, b5: bool, b6: bool, b7: bool)
    ensures var n := FlagByte(b0, b1, b2, b3, b4, b5, b6, b7);
      && (Set(n, UNSOLICITED_UDP) <==> b0) && (Set(n, PRIVATE_IP) <==> b1)
      && (Set(n, CONNECT_NEGOTIATE) <==> b2) && (Set(n, ICMP_IP) <==> b3)
      && (Set(n, NON_STANDARD_PORT) <==> b4) && (Set(n, NON_STANDARD_PRIVATE_PORT) <==> b5)
      && (Set(n, HAS_KEYS) <==> b6) && (Set(n, HAS_FULL_RULES) <==> b7)
  {
    hide Nibble;
    NibbleBits(b0, b1, b2, b3);
    NibbleBits(b4, b5, b6, b7);
    ByteBits(Nibble(b0, b1, b2, b3), Nibble(b4, b5, b6, b7));
  }

  lemma FlagBits(game: Game, server: Server)
    ensures var flags := Flags(game, server);
      && Set(flags, UNSOLICITED_UDP)
      && (Set(flags, PRIVATE_IP) <==> server.privateIp.Some?)
      && (Set(flags, CONNECT_NEGOTIATE) <==> ConnectNegotiate(server))
      && (Set(flags, ICMP_IP) <==> server.icmpIp.Some?)
      && (Set(flags, NON_STANDARD_PORT) <==> server.publicPort != game.queryPort)
      && (Set(flags, NON_STANDARD_PRIVATE_PORT) <==> server.privatePort != 0)
      && (Set(flags, HAS_KEYS) <==> server.data != map[])
      && (Set(flags, HAS_FULL_RULES) <==> server.rules != [])
  {
    hide FlagByte, Set, ConnectNegotiate;
    FlagByteBits(true, server.privateIp.Some?, ConnectNegotiate(server), server.icmpIp.Some?,
      server.publicPort != game.queryPort, server.privatePort != 0, server.data != map[], server.rules != []);
  }

  lemma NibbleBits(b0: bool, b1: bool, b2: bool, b3: bool)
    ensures var n := Nibble(b0, b1, b2, b3);
      && (n % 2 == 1 <==> b0) && (n / 2 % 2 == 1 <==> b1)
      && (n / 4 % 2 == 1 <==> b2) && (n / 8 % 2 == 1 <==> b3)
  {
  }

  lemma ByteBits(low: nat, high: nat)
    requires low < 16 && high < 16
    ensures var n := low + 16 * high;
      && n < 256 && n % 2 == low % 2
      && n / 2 % 2 == low / 2 % 2 && n / 4 % 2 == low / 4 % 2 && n / 8 % 2 == low / 8 % 2
      && n / 16 == high && n / 32 == high / 2 && n / 64 == high / 4 && n / 128 == high / 8
  {
    assert (low + 16 * high) / 2 == low / 2 + 8 * high;
    assert (low + 16 * high) / 4 == low / 4 + 4 * high;
    assert (low + 16 * high) / 8 == low / 8 + 2 * high;
  }

  lemma ReadValuePrinted(value: Text, sendAs: SendType, rest: seq<byte>)
    requires Transported(value, sendAs).Some? && (sendAs == AsString ==> NUL !in value)
    ensures var v := Transported(value, sendAs).value;
            ReadValue(ValueBytes(v, sendAs) + rest, sendAs) == Some(Taken(v, rest))
  {
    var v := Transported(value, sendAs).value;
    var s := ValueBytes(v, sendAs) + rest;
    match sendAs
    case AsString =>
      CutPrinted(value, rest);
      assert s[1..] == value + [NUL] + rest;
    case AsByte =>
      assert s[1..] == rest;
    case AsShort =>
      U16RoundTrip(v.n);
      assert s[..2] == U16Bytes(v.n);
      assert s[2..] == rest;
  }

  lemma {:induction false} ReadValuesPrinted(game: Game, server: Server, fields: seq<Text>, rest: seq<byte>)
    requires TransportedAll(game, server, fields).Some?
    requires forall f :: f in fields && game.GetParamSendType(f) == AsString ==> NUL !in server.ValueOf(f)
    ensures var values := TransportedAll(game, server, fields).value;
            |values| == |fields| &&
            ReadValues(ValuesBytes(game, fields, values) + rest, Types(game, fields)) == Some(Taken(values, rest))
  {
    hide Transported, ValueBytes, ReadValue;
    var values := TransportedAll(game, server, fields).value;
    TransportedAllLength(game, server, fields);
    if fields == [] {
      assert ValuesBytes(game, fields, values) + rest == rest;
    } else {
      var sendAs := game.GetParamSendType(fields[0]);
      assert values[1..] == TransportedAll(game, server, fields[1..]).value;
      var later := ValuesBytes(game, fields[1..], values[1..]);
      assert ValuesBytes(game, fields, values) + rest == ValueBytes(values[0], sendAs) + (later + rest);
      assert fields[0] in fields;
      ReadValuePrinted(server.ValueOf(fields[0]), sendAs, later + rest);
      ReadValuesPrinted(game, server, fields[1..], rest);
      assert Types(game, fields)[1..] == Types(game, fields[1..]);
    }
  }

  lemma ReadPortPrinted(present: bool, port: uint16, default: uint16, rest: seq<byte>)
    requires !present ==> port == default
    ensures ReadPort(PortBytes(present, port) + rest, present, default) == Some(Taken(port, rest))
  {
    if present {
      U16RoundTrip(port);
      assert (U16Bytes(port) + rest)[..2] == U16Bytes(port);
      assert (U16Bytes(port) + rest)[2..] == rest;
    } else {
      assert [] + rest == rest;
    }
  }

  lemma ReadIpPrinted(ip: Option<Ip>, rest: seq<byte>)
    ensures ReadIp(IpBytes(ip) + rest, ip.Some?) == Some(Taken(ip, rest))
  {
    if ip.Some? {
      assert (ip.value + rest)[..4] == ip.value;
      assert (ip.value + rest)[4..] == rest;
    } else {
      assert [] + rest == rest;
    }
  }

  lemma ReadRulesPrinted(rules: Text, rest: seq<byte>)
    requires NUL !in rules
    ensures ReadRules(RulesBytes(rules) + rest, rules != []) == Some(Taken(rules, rest))
  {
    if rules != [] {
      CutPrinted(rules, rest);
    } else {
      assert [] + rest == rest;
    }
  }

  lemma ReadKeysPrinted(game: Game, server: Server, fields: seq<Text>, rest: seq<byte>)
    requires TransportedAll(game, server, fields).Some? && Filled(server, fields)
    requires Clean(game, server, fields)
    ensures var values := TransportedAll(game, server, fields).value;
            && |values| == |fields|
            && ReadKeys(ValuesBytes(game, fields, values) + rest, server.data != map[], Types(game, fields))
               == Some(Taken(values, rest))
  {
    ReadValuesPrinted(game, server, fields, rest);
    if fields == [] {
      assert ValuesBytes(game, [], []) + rest == rest;
    }
  }

  /**
   A decoder driven by flag byte and field types recovers the listing and stops where the record
   ends, exactly when the server's data is filled in or no field was requested.
   */
  lemma RecordDecodes(game: Game, server: Server, fields: seq<Text>, rest: seq<byte>)
    requires Record(game, server, fields).Some? && Clean(game, server, fields)
    ensures ReadRecord(Record(game, server, fields).value + rest, Types(game, fields), game.queryPort)
         == Some(Taken(ListingOf(game, server, fields).value, rest))
        <==> Filled(server, fields)
  {
    if Filled(server, fields) {
      FilledRecordDecodes(game, server, fields, rest);
    } else {
      UnfilledRecordMisreads(game, server, fields, rest);
    }
  }

  /** Without the keys flag a decoder sees no values, although the record carries some. */
  lemma UnfilledRecordMisreads(game: Game, server: Server, fields: seq<Text>, rest: seq<byte>)
    requires Record(game, server, fields).Some? && !Filled(server, fields)
    ensures var r := ReadRecord(Record(game, server, fields).value + rest, Types(game, fields), game.queryPort);
      r.Some? ==> r.value.value.values == [] && r.value.value != ListingOf(game, server, fields).value
  {
    hide Flags, Set, ReadPort, ReadIp, ReadRules, Types, PortBytes, IpBytes, RulesBytes, ValuesBytes,
      ConnectNegotiate, TransportedAll, ReadBytes;
    TransportedAllLength(game, server, fields);
    FlagBits(game, server);
  }

  /** A server known by its address alone. */
  function Bare(ip: Ip, port: uint16): Server {
    Server(ip, port, None, 0, None, map[], [])
  }

  lemma BareValues(game: Game, server: Server, field: Text)
    requires server.data == map[]
    ensures var sendAs := game.GetParamSendType(field);
      Transported([], sendAs).Some? && TransportedAll(game, server, [field]) == Some([Transported([], sendAs).value])
  {
    var fields, value := [field], Transported([], game.GetParamSendType(field)).value;
    assert fields[1..] == [] && TransportedAll(game, server, fields[1..]) == Some([]);
    assert server.ValueOf(field) == [];
    assert [value] + [] == [value];
  }

  lemma BareBytes(game: Game, field: Text)
    ensures var value, sendAs := Transported([], game.GetParamSendType(field)), game.GetParamSendType(field);
      value.Some? && ValuesBytes(game, [field], [value.value]) == ValueBytes(value.value, sendAs)
  {
    hide ValueBytes;
    var value := Transported([], game.GetParamSendType(field)).value;
    var bytes := ValueBytes(value, game.GetParamSendType(field));
    assert [field][1..] == [] && [value][1..] == [] && bytes + [] == bytes;
  }

  /** An unfilled record is sent and misread: the value of its field is left in front of the next record. */
  lemma BareRecordMisreads(game: Game, ip: Ip, field: Text, rest: seq<byte>)
    ensures var server, sendAs := Bare(ip, game.queryPort), game.GetParamSendType(field);
      && !Filled(server, [field])
      && Record(game, server, [field]).Some? && Transported([], sendAs).Some?
      && ReadRecord(Record(game, server, [field]).value + rest, Types(game, [field]), game.queryPort)
         == Some(Taken(Listing(ip, game.queryPort, None, 0, None, false, [], []),
                       ValueBytes(Transported([], sendAs).value, sendAs) + rest))
  {
    hide Flags, Set, Types, ValueBytes;
    var server, sendAs := Bare(ip, game.queryPort), game.GetParamSendType(field);
    FlagBits(game, server);
    var left := ValueBytes(Transported([], sendAs).value, sendAs);
    BareBytes(game, field);
    BareValues(game, server, field);
    assert Record(game, server, [field]).value + rest == [Flags(game, server)] + (ip + (left + rest));
    assert (ip + (left + rest))[..4] == ip && (ip + (left + rest))[4..] == left + rest;
  }

  lemma FilledRecordDecodes(game: Game, server: Server, fields: seq<Text>, rest: seq<byte>)
    requires Record(game, server, fields).Some? && Clean(game, server, fields) && Filled(server, fields)
    ensures ReadRecord(Record(game, server, fields).value + rest, Types(game, fields), game.queryPort)
         == Some(Taken(ListingOf(game, server, fields).value, rest))
  {
    hide Flags, Set, ReadPort, ReadIp, ReadRules, ReadKeys, Types, PortBytes, IpBytes, RulesBytes, ValuesBytes,
      ConnectNegotiate, TransportedAll;
    var values := TransportedAll(game, server, fields).value;
    TransportedAllLength(game, server, fields);
    var s := Record(game, server, fields).value + rest;
    var s6 := RulesBytes(server.rules) + rest;
    var s5 := ValuesBytes(game, fields, values) + s6;
    var s4 := IpBytes(server.icmpIp) + s5;
    var s3 := PortBytes(server.privatePort != 0, server.privatePort) + s4;
    var s2 := IpBytes(server.privateIp) + s3;
    var s1 := PortBytes(server.publicPort != game.queryPort, server.publicPort) + s2;
    assert s == [Flags(game, server)] + (server.publicIp + s1);
    assert s[1..] == server.publicIp + s1;
    assert (server.publicIp + s1)[..4] == server.publicIp && (server.publicIp + s1)[4..] == s1;
    FlagBits(game, server);
    ReadPortPrinted(server.publicPort != game.queryPort, server.publicPort, game.queryPort, s2);
    ReadIpPrinted(server.privateIp, s3);
    ReadPortPrinted(server.privatePort != 0, server.privatePort, 0, s4);
    ReadIpPrinted(server.icmpIp, s5);
    ReadKeysPrinted(game, server, fields, s6);
    ReadRulesPrinted(server.rules, rest);
    var flags := s[0];
  }

  /** The flag byte of a record is never zero, so no record begins like the terminator. */
  lemma RecordIsNoTerminator(game: Game, server: Server, fields: seq<Text>)
    requires Record(game, server, fields).Some?
    ensures |Record(game, server, fields).value| >= 5 && Record(game, server, fields).value[0] != 0
  {
    hide TransportedAll, ValuesBytes, PortBytes, IpBytes, RulesBytes;
    TransportedAllLength(game, server, fields);
  }

  // ---- the record encoder of the server ----

  /** `flags |= bit` for a single bit. */
  function Or(flags: byte, bit: nat): nat
    requires bit > 0
  {
    if Set(flags, bit) then flags else flags + bit
  }

  /** Sets one bit of the flag byte that `bytes` begins with. */
  method OrFront(bytes: seq<byte>, bit: nat) returns (r: seq<byte>)
    requires bytes != [] && bit > 0 && Or(bytes[0], bit) < 256
    ensures r == [Or(bytes[0], bit)] + bytes[1..]
  {
    r := bytes[0 := Or(bytes[0], bit)];
  }

  lemma OrSetsLow(b0: bool, b1: bool, b2: bool, b3: bool, b4: bool, b5: bool, b6: bool, b7: bool)
    ensures var n := FlagByte(b0, b1, b2, b3, b4, b5, b6, b7);
      && Or(n, PRIVATE_IP) == FlagByte(b0, true, b2, b3, b4, b5, b6, b7)
      && Or(n, CONNECT_NEGOTIATE) == FlagByte(b0, b1, true, b3, b4, b5, b6, b7)
      && Or(n, ICMP_IP) == FlagByte(b0, b1, b2, true, b4, b5, b6, b7)
  {
    hide Set;
    FlagByteBits(b0, b1, b2, b3, b4, b5, b6, b7);
  }

  lemma OrSetsPort(b0: bool, b1: bool, b2: bool, b3: bool, b4: bool, b5: bool, b6: bool, b7: bool)
    ensures var n := FlagByte(b0, b1, b2, b3, b4, b5, b6, b7);
      && Or(n, NON_STANDARD_PORT) == FlagByte(b0, b1, b2, b3, true, b5, b6, b7)
      && Or(n, NON_STANDARD_PRIVATE_PORT) == FlagByte(b0, b1, b2, b3, b4, true, b6, b7)
  {
    hide Set;
    FlagByteBits(b0, b1, b2, b3, b4, b5, b6, b7);
  }

  lemma OrSetsData(b0: bool, b1: bool, b2: bool, b3: bool, b4: bool, b5: bool, b6: bool, b7: bool)
    ensures var n := FlagByte(b0, b1, b2, b3, b4, b5, b6, b7);
      && Or(n, HAS_KEYS) == FlagByte(b0, b1, b2, b3, b4, b5, true, b7)
      && Or(n, HAS_FULL_RULES) == FlagByte(b0, b1, b2, b3, b4, b5, b6, true)
  {
    hide Set;
    FlagByteBits(b0, b1, b2, b3, b4, b5, b6, b7);
  }

  function EncodedValue(value: Text, sendAs: SendType): Option<seq<byte>> {
    var v := Transported(value, sendAs);
    if v.None? then None else Some(ValueBytes(v.value, sendAs))
  }

  function EncodedValues(game: Game, server: Server, fields: seq<Text>): Option<seq<byte>> {
    if fields == [] then Some([])
    else
      var first := EncodedValue(server.ValueOf(fields[0]), game.GetParamSendType(fields[0]));
      var rest := EncodedValues(game, server, fields[1..]);
      if first.None? || rest.None? then None else Some(first.value + rest.value)
  }

  lemma {:induction false} EncodedValuesAre(game: Game, server: Server, fields: seq<Text>)
    ensures var values := TransportedAll(game, server, fields);
            && EncodedValues(game, server, fields).None? == values.None?
            && (values.Some? ==> |values.value| == |fields|)
            && (values.Some? ==> EncodedValues(game, server, fields) == Some(ValuesBytes(game, fields, values.value)))
  {
    hide Transported, ValueBytes;
    if fields != [] {
      EncodedValuesAre(game, server, fields[1..]);
      var values := TransportedAll(game, server, fields);
      if values.Some? {
        assert values.value[1..] == TransportedAll(game, server, fields[1..]).value;
      }
    }
  }

  function Joined(start: seq<byte>, more: Option<seq<byte>>): Option<seq<byte>> {
    if more.None? then None else Some(start + more.value)
  }

  lemma JoinedStep(game: Game, server: Server, bytes: seq<byte>, fields: seq<Text>)
    requires fields != []
    ensures var first := EncodedValue(server.ValueOf(fields[0]), game.GetParamSendType(fields[0]));
            Joined(bytes, EncodedValues(game, server, fields))
            == if first.None? then None else Joined(bytes + first.value, EncodedValues(game, server, fields[1..]))
  {
    hide EncodedValue;
    var first := EncodedValue(server.ValueOf(fields[0]), game.GetParamSendType(fields[0]));
    var rest := EncodedValues(game, server, fields[1..]);
    if first.Some? && rest.Some? {
      assert bytes + (first.value + rest.value) == (bytes + first.value) + rest.value;
    }
  }

  /** Appends one value as its type is sent; a text that is no number in range makes the encoder throw. */
  method AppendValue(bytes: seq<byte>, value: Text, sendAs: SendType) returns (r: Option<seq<byte>>)
    ensures r == Joined(bytes, EncodedValue(value, sendAs))
  {
    match sendAs
    case AsString =>
      r := Some(bytes + [0xFF]);
      r := Some(r.value + value);
      r := Some(r.value + [NUL]);
      assert bytes + [0xFF] + value + [NUL] == bytes + ([0xFF] + value + [NUL]);
    case AsByte =>
      if value == [] {
        return Some(bytes + [0x00]);
      }
      var keyValue := FromChars(value, 0xFF);
      if keyValue.None? {
        return None;
      }
      r := Some(bytes + [keyValue.value]);
    case AsShort =>
      if value == [] {
        return Some(bytes + [0x00, 0x00]);
      }
      var keyValue := FromChars(value, 0xFFFF);
      if keyValue.None? {
        return None;
      }
      r := Some(bytes + [ToByte(keyValue.value / 0x100), ToByte(keyValue.value)]);
  }

  /** Appends the value of every requested field, in order. */
  method AppendValues(game: Game, server: Server, fields: seq<Text>, start: seq<byte>)
    returns (r: Option<seq<byte>>)
    ensures r == Joined(start, EncodedValues(game, server, fields))
  {
    hide EncodedValue, EncodedValues;
    var bytes := start;
    assert fields[0..] == fields;
    for i := 0 to |fields|
      invariant Joined(bytes, EncodedValues(game, server, fields[i..]))
             == Joined(start, EncodedValues(game, server, fields))
    {
      var sendAs := game.GetParamSendType(fields[i]);
      JoinedStep(game, server, bytes, fields[i..]);
      assert fields[i..][1..] == fields[i + 1..];
      var more := AppendValue(bytes, server.ValueOf(fields[i]), sendAs);
      if more.None? {
        return None;
      }
      bytes := more.value;
    }
    NothingEncoded(game, server);
    assert fields[|fields|..] == [] && bytes + [] == bytes;
    r := Some(bytes);
  }

  lemma NothingEncoded(game: Game, server: Server)
    ensures EncodedValues(game, server, []) == Some([])
  {
  }

  lemma Flatten(a: seq<byte>, b: seq<byte>, c: seq<byte>, d: seq<byte>, e: seq<byte>, f: seq<byte>, g: seq<byte>)
    ensures a + b + c + d + e + f + g == a + (b + (c + (d + (e + (f + g)))))
  {
  }

  /** `PrepareServer`: the record grows behind a flag byte that collects one bit per part. */
  method PrepareServer(game: Game, server: Server, fields: seq<Text>) returns (r: Option<seq<byte>>)
    ensures r == Record(game, server, fields)
  {
    hide FlagByte, Or, ConnectNegotiate, EncodedValues, TransportedAll, ValuesBytes, PortBytes, IpBytes, RulesBytes;
    ghost var port, hidden := server.publicPort != game.queryPort, server.privatePort != 0;
    ghost var mine, icmp, neg := server.privateIp.Some?, server.icmpIp.Some?, ConnectNegotiate(server);
    EncodedValuesAre(game, server, fields);

    var bytes := PrepareAddresses(game, server);
    ghost var addresses := bytes[1..];
    OrSetsData(true, mine, neg, icmp, port, hidden, false, false);
    if server.data != map[] {
      bytes := OrFront(bytes, HAS_KEYS);
    }
    var more := AppendValues(game, server, fields, bytes);
    if more.None? {
      return None;
    }
    ghost var values := EncodedValues(game, server, fields).value;
    assert more.value[1..] == addresses + values;
    OrSetsData(true, mine, neg, icmp, port, hidden, server.data != map[], false);
    bytes := AppendRules(more.value, server.rules);
    Flatten(server.publicIp, PortBytes(port, server.publicPort), IpBytes(server.privateIp),
      PortBytes(hidden, server.privatePort), IpBytes(server.icmpIp), values, RulesBytes(server.rules));
    r := Some(bytes);
  }

  method AppendRules(start: seq<byte>, rules: Text) returns (bytes: seq<byte>)
    requires start != [] && Or(start[0], HAS_FULL_RULES) < 256
    ensures bytes == [if rules == [] then start[0] else Or(start[0], HAS_FULL_RULES)] + (start[1..] + RulesBytes(rules))
  {
    hide Or;
    bytes := start;
    if rules != [] {
      bytes := OrFront(bytes, HAS_FULL_RULES);
      bytes := bytes + rules;
      bytes := bytes + [NUL];
    }
  }

  method PreparePublicAddress(game: Game, server: Server) returns (bytes: seq<byte>)
    ensures var port := server.publicPort != game.queryPort;
      bytes == [FlagByte(true, false, false, false, port, false, false, false)]
        + (server.publicIp + PortBytes(port, server.publicPort))
  {
    hide FlagByte, Or, U16Bytes;
    FirstBit();
    bytes := [0];
    bytes := OrFront(bytes, UNSOLICITED_UDP);
    bytes := bytes + server.publicIp;

    OrSetsPort(true, false, false, false, false, false, false, false);
    if server.publicPort != game.queryPort {
      bytes := OrFront(bytes, NON_STANDARD_PORT);
      bytes := bytes + U16Bytes(server.publicPort);
    }
  }

  /** The parts of a record up to the addresses, with the flag bits set so far. */
  method PrepareAddresses(game: Game, server: Server) returns (bytes: seq<byte>)
    ensures bytes == [FlagByte(true, server.privateIp.Some?, ConnectNegotiate(server), server.icmpIp.Some?,
                       server.publicPort != game.queryPort, server.privatePort != 0, false, false)]
      + (server.publicIp + PortBytes(server.publicPort != game.queryPort, server.publicPort)
         + IpBytes(server.privateIp) + PortBytes(server.privatePort != 0, server.privatePort) + IpBytes(server.icmpIp))
  {
    hide FlagByte, Or, U16Bytes;
    ghost var port, hidden := server.publicPort != game.queryPort, server.privatePort != 0;
    ghost var mine, icmp := server.privateIp.Some?, server.icmpIp.Some?;
    bytes := PreparePublicAddress(game, server);
    ghost var body := server.publicIp + PortBytes(port, server.publicPort);

    OrSetsLow(true, false, false, false, port, false, false, false);
    if server.privateIp.Some? {
      bytes := OrFront(bytes, PRIVATE_IP);
      bytes := bytes + server.privateIp.value;
    }
    body := body + IpBytes(server.privateIp);
    assert bytes == [FlagByte(true, mine, false, false, port, false, false, false)] + body;

    OrSetsPort(true, mine, false, false, port, false, false, false);
    if server.privatePort != 0 {
      bytes := OrFront(bytes, NON_STANDARD_PRIVATE_PORT);
      bytes := bytes + U16Bytes(server.privatePort);
    }
    body := body + PortBytes(hidden, server.privatePort);
    assert bytes == [FlagByte(true, mine, false, false, port, hidden, false, false)] + body;

    OrSetsLow(true, mine, false, false, port, hidden, false, false);
    if NATNEG in server.data {
      if server.data[NATNEG] == ONE {
        bytes := OrFront(bytes, CONNECT_NEGOTIATE);
      }
    }
    ghost var neg := ConnectNegotiate(server);
    assert bytes == [FlagByte(true, mine, neg, false, port, hidden, false, false)] + body;

    OrSetsLow(true, mine, neg, false, port, hidden, false, false);
    if server.icmpIp.Some? {
      bytes := OrFront(bytes, ICMP_IP);
      bytes := bytes + server.icmpIp.value;
    }
    body := body + IpBytes(server.icmpIp);
    assert bytes == [FlagByte(true, mine, neg, icmp, port, hidden, false, false)] + body;
  }

  lemma FirstBit()
    ensures Or(0, UNSOLICITED_UDP) == FlagByte(true, false, false, false, false, false, false, false)
  {
  }

  // ---- the response header ----

  const NO_MULTIPLAYER: Text := Ascii("Game does not support multiplayer!")
  const NO_QUERY_PORT: uint16 := 0xFFFF

  function FieldEntries(game: Game, fields: seq<Text>): seq<byte> {
    if fields == [] then []
    else [game.GetParamSendType(fields[0]).Code()] + fields[0] + [NUL] + FieldEntries(game, fields[1..])
  }

  function FieldTable(game: Game, fields: seq<Text>): seq<byte> {
    [ToByte(|fields|)] + FieldEntries(game, fields) + [0]
  }

  /** Public address, query port, and unless no list follows the field names and the empty popular list. */
  function Header(game: Game, fields: seq<Text>, noList: bool, ip: Ip): seq<byte> {
    ip + U16Bytes(game.queryPort)
    + (if game.queryPort == NO_QUERY_PORT then NO_MULTIPLAYER + [NUL, NUL]
       else if noList then []
       else FieldTable(game, fields))
  }

  lemma {:induction false} FieldEntriesAppend(game: Game, fields: seq<Text>, field: Text)
    ensures FieldEntries(game, fields + [field])
         == FieldEntries(game, fields) + [game.GetParamSendType(field).Code()] + field + [NUL]
  {
    if fields == [] {
      assert fields + [field] == [field];
    } else {
      assert (fields + [field])[1..] == fields[1..] + [field];
      FieldEntriesAppend(game, fields[1..], field);
    }
  }

  method GetResponseHeaderBytes(game: Game, fields: seq<Text>, noList: bool, ip: Ip) returns (response: seq<byte>)
    ensures response == Header(game, fields, noList, ip)
  {
    hide Ascii, FieldTable;
    response := ip;
    response := response + [ToByte(game.queryPort / 0x100), ToByte(game.queryPort)];
    if game.queryPort == NO_QUERY_PORT {
      response := response + NO_MULTIPLAYER + [NUL];
      response := response + [NUL];
    }
    if noList || game.queryPort == NO_QUERY_PORT {
      return;
    }
    var table := GetFieldTable(game, fields);
    response := response + table;
  }

  method GetFieldTable(game: Game, fields: seq<Text>) returns (response: seq<byte>)
    ensures response == FieldTable(game, fields)
  {
    response := [ToByte(|fields|)];
    for i := 0 to |fields|
      invariant response == [ToByte(|fields|)] + FieldEntries(game, fields[..i])
    {
      FieldEntriesAppend(game, fields[..i], fields[i]);
      assert fields[..i] + [fields[i]] == fields[..i + 1];
      response := response + [game.GetParamSendType(fields[i]).Code()];
      response := response + fields[i];
      response := response + [NUL];
    }
    assert fields[..|fields|] == fields;
    response := response + [ToByte(0)];
  }

  datatype FieldInfo = FieldInfo(name: Text, sendAs: SendType)

  datatype HeaderInfo = HeaderInfo(ip: Ip, queryPort: uint16, fields: seq<FieldInfo>)

  function FieldInfos(game: Game, fields: seq<Text>): (infos: seq<FieldInfo>)
    ensures |infos| == |fields|
  {
    if fields == [] then []
    else [FieldInfo(fields[0], game.GetParamSendType(fields[0]))] + FieldInfos(game, fields[1..])
  }

  function InfoTypes(infos: seq<FieldInfo>): seq<SendType> {
    if infos == [] then [] else [infos[0].sendAs] + InfoTypes(infos[1..])
  }

  function ReadFields(s: seq<byte>, count: nat): (r: Option<Taken<seq<FieldInfo>>>)
    ensures r.Some? ==> |r.value.value| == count
    decreases count
  {
    if count == 0 then Some(Taken([], s))
    else if s == [] || SendType.FromCode(s[0]).None? then None
    else
      var name := CutText(s[1..]);
      if name.None? then None
      else
        var later := ReadFields(name.value.rest, count - 1);
        if later.None? then None
        else
          var field := FieldInfo(name.value.value, SendType.FromCode(s[0]).value);
          Some(Taken([field] + later.value.value, later.value.rest))
  }

  function ReadTable(s: seq<byte>): Option<Taken<seq<FieldInfo>>> {
    if s == [] then None else
    var fields := ReadFields(s[1..], s[0]);
    if fields.None? || fields.value.rest == [] || fields.value.rest[0] != 0 then None
    else Some(Taken(fields.value.value, fields.value.rest[1..]))
  }

  /** Decodes the header of a response that a list follows; popular values must be absent. */
  function ReadHeader(s: seq<byte>): Option<Taken<HeaderInfo>> {
    var ip := ReadBytes(s, 4);
    if ip.None? then None else
    var port := ReadBytes(ip.value.rest, 2);
    if port.None? then None else
    var fields := ReadTable(port.value.rest);
    if fields.None? then None
    else Some(Taken(HeaderInfo(ip.value.value, U16(port.value.value), fields.value.value), fields.value.rest))
  }

  /**
   A client reads the field table back, and stops behind it, exactly when the count byte has not
   wrapped around; when it has, the table read, if any, is another one.
   */
  lemma TableDecodes(game: Game, fields: seq<Text>, rest: seq<byte>)
    requires forall f :: f in fields ==> NUL !in f
    ensures var r := ReadTable(FieldTable(game, fields) + rest);
      && (r == Some(Taken(FieldInfos(game, fields), rest)) <==> |fields| < 256)
      && (r.Some? && r.value.value == FieldInfos(game, fields) ==> |fields| < 256)
  {
    hide ReadFields, FieldEntries;
    var s := FieldTable(game, fields) + rest;
    assert s[1..] == FieldEntries(game, fields) + ([0] + rest);
    ReadFieldsPrinted(game, fields, [0] + rest);
    assert ([0] + rest)[1..] == rest;
  }

  lemma {:induction false} ReadFieldsPrinted(game: Game, fields: seq<Text>, rest: seq<byte>)
    requires forall f :: f in fields ==> NUL !in f
    ensures ReadFields(FieldEntries(game, fields) + rest, |fields|) == Some(Taken(FieldInfos(game, fields), rest))
  {
    hide CutText;
    if fields == [] {
      assert FieldEntries(game, fields) + rest == rest;
    } else {
      var code := game.GetParamSendType(fields[0]).Code();
      var later := FieldEntries(game, fields[1..]) + rest;
      var s := FieldEntries(game, fields) + rest;
      assert s == [code] + (fields[0] + [NUL] + later);
      assert s[1..] == fields[0] + [NUL] + later;
      assert fields[0] in fields && forall f :: f in fields[1..] ==> f in fields;
      CutPrinted(fields[0], later);
      ReadFieldsPrinted(game, fields[1..], rest);
    }
  }

  lemma HeaderFollowed(game: Game, fields: seq<Text>, ip: Ip, rest: seq<byte>)
    requires game.queryPort != NO_QUERY_PORT
    ensures Header(game, fields, false, ip) + rest
         == ip + (U16Bytes(game.queryPort) + (FieldTable(game, fields) + rest))
  {
    hide FieldTable, U16Bytes, Ascii;
  }

  lemma HeaderParts(ip: Ip, port: seq<byte>, table: seq<byte>)
    requires |port| == 2
    ensures var fields := ReadTable(table);
      ReadHeader(ip + (port + table))
      == if fields.None? then None
         else Some(Taken(HeaderInfo(ip, U16(port), fields.value.value), fields.value.rest))
  {
    hide ReadTable, U16;
    var s := ip + (port + table);
    assert s[..4] == ip && s[4..] == port + table;
    assert s[4..][..2] == port && s[4..][2..] == table;
  }

  /** A client reads back address, port and every field with its type exactly when there are fewer than 256 fields. */
  lemma HeaderDecodes(game: Game, fields: seq<Text>, ip: Ip, rest: seq<byte>)
    requires game.queryPort != NO_QUERY_PORT
    requires forall f :: f in fields ==> NUL !in f
    ensures var r := ReadHeader(Header(game, fields, false, ip) + rest);
      var info := HeaderInfo(ip, game.queryPort, FieldInfos(game, fields));
      && (r == Some(Taken(info, rest)) <==> |fields| < 256)
      && (r.Some? && r.value.value == info ==> |fields| < 256)
  {
    hide ReadHeader, ReadTable, Header, FieldTable, U16Bytes, U16, FieldInfos;
    var table := FieldTable(game, fields) + rest;
    HeaderFollowed(game, fields, ip, rest);
    U16RoundTrip(game.queryPort);
    HeaderParts(ip, U16Bytes(game.queryPort), table);
    TableDecodes(game, fields, rest);
  }

  lemma {:induction false} InfoTypesAre(game: Game, fields: seq<Text>)
    ensures InfoTypes(FieldInfos(game, fields)) == Types(game, fields)
  {
    if fields != [] {
      InfoTypesAre(game, fields[1..]);
      assert FieldInfos(game, fields)[1..] == FieldInfos(game, fields[1..]);
    }
  }

  // ---- the whole list ----

  const TERMINATOR: seq<byte> := [0x00, 0xFF, 0xFF, 0xFF, 0xFF]

  /** The records of all servers in order, then the terminator; None when an encoder throws. */
  function ListBytes(game: Game, servers: seq<Server>, fields: seq<Text>): Option<seq<byte>> {
    if servers == [] then Some(TERMINATOR)
    else
      var first := Record(game, servers[0], fields);
      var later := ListBytes(game, servers[1..], fields);
      if first.None? || later.None? then None else Some(first.value + later.value)
  }

  function Listings(game: Game, servers: seq<Server>, fields: seq<Text>): Option<seq<Listing>> {
    if servers == [] then Some([])
    else
      var first := ListingOf(game, servers[0], fields);
      var later := Listings(game, servers[1..], fields);
      if first.None? || later.None? then None else Some([first.value] + later.value)
  }

  /** Decodes records up to the terminator. */
  function ReadList(s: seq<byte>, types: seq<SendType>, queryPort: uint16): Option<Taken<seq<Listing>>>
    decreases |s|
  {
    if TERMINATOR <= s then Some(Taken([], s[5..]))
    else
      var first := ReadRecord(s, types, queryPort);
      if first.None? then None
      else
        var later := ReadList(first.value.rest, types, queryPort);
        if later.None? then None else Some(Taken([first.value.value] + later.value.value, later.value.rest))
  }

  ghost predicate AllClean(game: Game, servers: seq<Server>, fields: seq<Text>) {
    forall i :: 0 <= i < |servers| ==> Clean(game, servers[i], fields)
  }

  predicate AllFilled(servers: seq<Server>, fields: seq<Text>) {
    forall i :: 0 <= i < |servers| ==> Filled(servers[i], fields)
  }

  /**
   The decoder recovers the whole list, in order, and stops behind the terminator, exactly when
   every server's data is filled in or no field was requested.
   */
  lemma {:induction false} ListDecodes(game: Game, servers: seq<Server>, fields: seq<Text>, rest: seq<byte>)
    requires ListBytes(game, servers, fields).Some? && AllClean(game, servers, fields)
    ensures Listings(game, servers, fields).Some?
    ensures ReadList(ListBytes(game, servers, fields).value + rest, Types(game, fields), game.queryPort)
         == Some(Taken(Listings(game, servers, fields).value, rest))
        <==> AllFilled(servers, fields)
  {
    hide Record, ReadRecord, ListingOf, Clean, Filled, Types;
    var s := ListBytes(game, servers, fields).value + rest;
    if servers == [] {
      assert s[5..] == rest;
    } else {
      var later := ListBytes(game, servers[1..], fields).value;
      var first := Record(game, servers[0], fields).value;
      assert s == first + (later + rest);
      RecordIsNoTerminator(game, servers[0], fields);
      assert s[0] != TERMINATOR[0];
      RecordLists(game, servers[0], fields);
      ListDecodes(game, servers[1..], fields, rest);
      FilledFirst(servers, fields);
      if Filled(servers[0], fields) {
        FilledRecordDecodes(game, servers[0], fields, later + rest);
        var listing, listings := ListingOf(game, servers[0], fields).value, Listings(game, servers[1..], fields).value;
        var read := ReadList(later + rest, Types(game, fields), game.queryPort);
        assert ([listing] + listings)[1..] == listings;
        assert read.Some? ==> ([listing] + read.value.value)[1..] == read.value.value;
      } else {
        UnfilledRecordMisreads(game, servers[0], fields, later + rest);
        var read := ReadList(s, Types(game, fields), game.queryPort);
        assert read.Some? ==> read.value.value[0] != Listings(game, servers, fields).value[0];
      }
    }
  }

  lemma FilledFirst(servers: seq<Server>, fields: seq<Text>)
    requires servers != []
    ensures AllFilled(servers, fields) <==> Filled(servers[0], fields) && AllFilled(servers[1..], fields)
  {
    hide Filled;
    assert forall i :: 1 <= i < |servers| ==> servers[i] == servers[1..][i - 1];
  }

  /** The records before the first server whose values do not convert. */
  function Records(game: Game, servers: seq<Server>, fields: seq<Text>): seq<byte> {
    if servers == [] || Record(game, servers[0], fields).None? then []
    else Record(game, servers[0], fields).value + Records(game, servers[1..], fields)
  }

  /** How many these are. */
  function Converting(game: Game, servers: seq<Server>, fields: seq<Text>): (n: nat)
    ensures n <= |servers|
  {
    if servers == [] || Record(game, servers[0], fields).None? then 0
    else 1 + Converting(game, servers[1..], fields)
  }

  /** All of them convert, and the one after them does not. */
  lemma {:induction false} ConvertingIs(game: Game, servers: seq<Server>, fields: seq<Text>)
    ensures var n := Converting(game, servers, fields);
      && (forall i :: 0 <= i < n ==> Record(game, servers[i], fields).Some?)
      && (n < |servers| ==> Record(game, servers[n], fields).None?)
  {
    hide Record;
    if servers != [] && Record(game, servers[0], fields).Some? {
      ConvertingIs(game, servers[1..], fields);
      assert forall i :: 1 <= i < |servers| ==> servers[i] == servers[1..][i - 1];
    }
  }

  /** If every server converts, the list is all records and the terminator; otherwise there is none. */
  lemma {:induction false} ListBytesAre(game: Game, servers: seq<Server>, fields: seq<Text>)
    ensures ListBytes(game, servers, fields)
         == if Converting(game, servers, fields) < |servers| then None
            else Some(Records(game, servers, fields) + TERMINATOR)
  {
    hide Record;
    if servers == [] {
      assert [] + TERMINATOR == TERMINATOR;
    } else {
      ListBytesAre(game, servers[1..], fields);
      var first, later := Record(game, servers[0], fields), Records(game, servers[1..], fields);
      assert first.Some? ==> (first.value + later) + TERMINATOR == first.value + (later + TERMINATOR);
    }
  }

  lemma RecordLists(game: Game, server: Server, fields: seq<Text>)
    ensures Record(game, server, fields).Some? <==> ListingOf(game, server, fields).Some?
  {
    hide TransportedAll;
  }
}

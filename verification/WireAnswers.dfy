/** Known bytes of what the servers read and write. */
module WireAnswers {
  import opened Bytes
  import opened Parsing
  import opened Tokens
  import Browser = BrowserClient
  import CipherAnswers
  import Master
  import MasterRuns
  import PacketReader
  import Qr
  import Query = Bf2Query
  import Request = ListRequest
  import Response = ListResponse
  import Sapphire
  import Search

  // ---- bits and bytes ----

  /** The most significant byte comes first. */
  lemma ByteOrder()
    ensures U16Bytes(0x1234) == [0x12, 0x34] && U16([0x12, 0x34]) == 0x1234
    ensures U32Bytes(0x1234_5678) == [0x12, 0x34, 0x56, 0x78] && U32([0x12, 0x34, 0x56, 0x78]) == 0x1234_5678
  {
    assert [0x12, 0x34, 0x56, 0x78][..2] == [0x12, 0x34] && [0x12, 0x34, 0x56, 0x78][2..] == [0x56, 0x78];
  }

  lemma Bit1(n: bv8)
    ensures n & 0x01 != 0 <==> n as int / 1 % 2 == 1
  {
  }

  lemma Bit2(n: bv8)
    ensures n & 0x02 != 0 <==> n as int / 2 % 2 == 1
  {
  }

  lemma Bit4(n: bv8)
    ensures n & 0x04 != 0 <==> n as int / 4 % 2 == 1
  {
  }

  lemma Bit8(n: bv8)
    ensures n & 0x08 != 0 <==> n as int / 8 % 2 == 1
  {
  }

  lemma Bit16(n: bv8)
    ensures n & 0x10 != 0 <==> n as int / 16 % 2 == 1
  {
  }

  lemma Bit32(n: bv8)
    ensures n & 0x20 != 0 <==> n as int / 32 % 2 == 1
  {
  }

  lemma Bit64(n: bv8)
    ensures n & 0x40 != 0 <==> n as int / 64 % 2 == 1
  {
  }

  lemma Bit128(n: bv8)
    ensures n & 0x80 != 0 <==> n as int / 128 % 2 == 1
  {
  }

  /** The option bits of a request, for all options that are accepted. */
  lemma OptionBits(options: bv8, game: Response.Game)
    ensures Browser.NoList(options as int) <==> options & 0x02 != 0
    ensures Request.Has(options as int, Request.ALTERNATE_SOURCE_IP) <==> options & 0x08 != 0
    ensures Request.Has(options as int, Request.LIMIT_RESULT_COUNT) <==> options & 0x80 != 0
    ensures Browser.ListFollows(game, options as int)
        <==> options & 0x02 == 0 && options & 0x20 == 0 && game.queryPort != 65535
  {
    Bit2(options);
    Bit8(options);
    Bit32(options);
    Bit128(options);
  }

  lemma SetIs(flags: byte, n: bv8)
    requires flags == n as int
    ensures Response.Set(flags, 1) <==> n & 0x01 != 0
    ensures Response.Set(flags, 2) <==> n & 0x02 != 0
    ensures Response.Set(flags, 4) <==> n & 0x04 != 0
    ensures Response.Set(flags, 8) <==> n & 0x08 != 0
    ensures Response.Set(flags, 16) <==> n & 0x10 != 0
    ensures Response.Set(flags, 32) <==> n & 0x20 != 0
    ensures Response.Set(flags, 64) <==> n & 0x40 != 0
    ensures Response.Set(flags, 128) <==> n & 0x80 != 0
  {
    Bit1(n);
    Bit2(n);
    Bit4(n);
    Bit8(n);
    Bit16(n);
    Bit32(n);
    Bit64(n);
    Bit128(n);
  }

  /** The flag bits of a record, for every server. */
  lemma FlagAnswers(game: Response.Game, server: Response.Server, flags: bv8)
    requires Response.Flags(game, server) == flags as int
    ensures flags & 0x01 != 0
    ensures flags & 0x02 != 0 <==> server.privateIp.Some?
    ensures flags & 0x04 != 0 <==> Ascii("natneg") in server.data && server.data[Ascii("natneg")] == Ascii("1")
    ensures flags & 0x08 != 0 <==> server.icmpIp.Some?
    ensures flags & 0x10 != 0 <==> server.publicPort != game.queryPort
    ensures flags & 0x20 != 0 <==> server.privatePort != 0
    ensures flags & 0x40 != 0 <==> server.data != map[]
    ensures flags & 0x80 != 0 <==> server.rules != []
  {
    hide Response.Flags, Response.Set, Ascii;
    Response.FlagBits(game, server);
    SetIs(Response.Flags(game, server), flags);
  }

  // ---- a request ----

  /** A request from "a" for "bc", with a filter, two fields and a limit, byte by byte. */
  const LIMITED: Request.Request :=
    Request.Request(1, 3, 0x0102_0304, [0x61], [0x62, 0x63], [9, 8, 7, 6, 5, 4, 3, 2], [0x66, 0x6F],
      [[0x78], [0x79, 0x7A]], 128, None, Some(0x0A0B_0C0D))

  const LIMITED_BYTES: seq<byte> :=
    [1, 3] + Texts([0, 0, 0, 128] + ([] + [0x0A, 0x0B, 0x0C, 0x0D]))

  /** The same, with an alternate address in the place of the limit. */
  const ALTERNATE: Request.Request :=
    LIMITED.(options := 8, alternateSourceIp := Some(0x7F00_0001), limitResultCount := None)

  const ALTERNATE_BYTES: seq<byte> := [1, 3] + Texts([0, 0, 0, 8] + ([127, 0, 0, 1] + []))

  /** Version, both games, challenge, filter and fields. */
  function Texts(later: seq<byte>): seq<byte> {
    [1, 2, 3, 4] + ([0x61, 0] + ([0x62, 0x63, 0] + ([9, 8, 7, 6, 5, 4, 3, 2] + ([0x66, 0x6F, 0]
    + ([0x5C, 0x78, 0x5C, 0x79, 0x7A, 0] + later)))))
  }

  lemma FieldsText()
    ensures Join([[0x78], [0x79, 0x7A]]) == [0x78, 0x5C, 0x79, 0x7A]
  {
    assert [[0x78], [0x79, 0x7A]][1..] == [[0x79, 0x7A]];
  }

  lemma RequestNumbers()
    ensures U32Bytes(0x0102_0304) == [1, 2, 3, 4] && U32Bytes(0x0A0B_0C0D) == [10, 11, 12, 13]
    ensures U32Bytes(128) == [0, 0, 0, 128] && U32Bytes(8) == [0, 0, 0, 8] && U32Bytes(0x7F00_0001) == [127, 0, 0, 1]
  {
  }

  lemma PartsPrint()
    ensures [0x61] + [NUL] == [0x61, 0] && [0x62, 0x63] + [NUL] == [0x62, 0x63, 0]
    ensures [0x66, 0x6F] + [NUL] == [0x66, 0x6F, 0]
    ensures [BACKSLASH] + [0x78, 0x5C, 0x79, 0x7A] + [NUL] == [0x5C, 0x78, 0x5C, 0x79, 0x7A, 0]
  {
  }

  lemma RequestPrints()
    ensures Request.Print(LIMITED) == LIMITED_BYTES && Request.Print(ALTERNATE) == ALTERNATE_BYTES
  {
    hide Join, U32Bytes;
    FieldsText();
    RequestNumbers();
    PartsPrint();
  }

  /** What these bytes are read as: every field has its own place. */
  lemma RequestAnswers()
    ensures Request.Parse(LIMITED_BYTES) == Ok(LIMITED)
    ensures Request.Parse(ALTERNATE_BYTES) == Ok(ALTERNATE)
  {
    hide Request.Parse, Request.Print, Join;
    RequestPrints();
    FieldsText();
    Request.ParsePrinted(LIMITED, []);
    Request.ParsePrinted(ALTERNATE, []);
    assert LIMITED_BYTES + [] == LIMITED_BYTES && ALTERNATE_BYTES + [] == ALTERNATE_BYTES;
  }

  /** Why a packet is refused before its texts are looked at. */
  lemma RequestRefusals(packet: seq<byte>)
    ensures |packet| < 26 ==> Request.Parse(packet) == Err(Request.InsufficientLength)
    ensures |packet| >= 26 && packet[0] != 1 ==> Request.Parse(packet) == Err(Request.UnknownProtocolVersion)
    ensures |packet| >= 26 && packet[0] == 1 && packet[1] != 3
      ==> Request.Parse(packet) == Err(Request.UnknownEncodingVersion)
  {
    hide Request.ParseBody;
  }

  /** A filter and a field list are taken up to 256 characters, options up to 128, and fields need their backslash. */
  lemma PartRefusals(text: Text, rest: seq<byte>, options: uint32)
    requires NUL !in text
    ensures Request.TakeString(text + [NUL] + rest, Some(Request.FILTER_TOTAL_LENGTH))
         == if |text| <= 256 then Ok(Taken(text, rest)) else Err(Request.TooManyKeys)
    ensures |text| > 256 ==> Request.TakeFieldList(text + [NUL] + rest) == Err(Request.TooManyKeys)
    ensures |text| <= 256 && (text == [] || text[0] != 0x5C)
      ==> Request.TakeFieldList(text + [NUL] + rest) == Err(Request.InvalidKey)
    ensures Request.TakeOptions(U32Bytes(options) + rest)
         == if options <= 128 then Ok(Taken(options, rest)) else Err(Request.InvalidKey)
  {
    hide CutText, U32Bytes, Request.TakeUInt32;
    CutPrinted(text, rest);
    Request.TakeUInt32Printed(options, rest);
  }

  // ---- a response ----

  const GAME: Response.Game :=
    Response.Game(CipherAnswers.SECRET_KEY, 6500, 0, map[[0x62] := Response.AsByte, [0x63] := Response.AsShort])

  const FIELDS: seq<Text> := [[0x61], [0x62], [0x63]]

  /** A server about which everything is known. */
  const FULL: Response.Server :=
    Response.Server([1, 2, 3, 4], 0x1F90, Some([10, 0, 0, 7]), 0x2233, Some([5, 6, 7, 8]),
      map[Ascii("natneg") := Ascii("1"), [0x61] := [0x78], [0x62] := [0x34, 0x32], [0x63] := [0x35, 0x31, 0x33]],
      [0x72])

  lemma NatnegIsNoField()
    ensures |Ascii("natneg")| == 6 && Ascii("natneg") !in FIELDS
  {
  }

  lemma FullValues()
    ensures var value, sendAs := FULL.ValueOf, GAME.GetParamSendType;
      && Response.Transported(value([0x61]), sendAs([0x61])) == Some(Response.TextValue([0x78]))
      && Response.Transported(value([0x62]), sendAs([0x62])) == Some(Response.NumberValue(42))
      && Response.Transported(value([0x63]), sendAs([0x63])) == Some(Response.NumberValue(513))
  {
    hide Ascii;
    NatnegIsNoField();
    DigitsRead();
  }

  lemma DigitsRead()
    ensures FromChars([0x34, 0x32], 0xFF) == Some(42) && FromChars([0x35, 0x31, 0x33], 0xFFFF) == Some(513)
  {
    assert [0x34, 0x32][..1] == [0x34] && [0x34][..0] == [];
    assert [0x35, 0x31, 0x33][..2] == [0x35, 0x31] && [0x35, 0x31][..1] == [0x35] && [0x35][..0] == [];
    assert Number([0x34]) == 4 && Number([0x35]) == 5 && Number([0x35, 0x31]) == 51;
  }

  lemma FullTransported()
    ensures Response.TransportedAll(GAME, FULL, FIELDS)
         == Some([Response.TextValue([0x78]), Response.NumberValue(42), Response.NumberValue(513)])
  {
    hide Ascii, Response.Transported;
    FullValues();
    assert FIELDS[1..] == [[0x62], [0x63]] && FIELDS[1..][1..] == [[0x63]] && FIELDS[1..][1..][1..] == [];
    var a, b, c := Response.TextValue([0x78]), Response.NumberValue(42), Response.NumberValue(513);
    assert Response.TransportedAll(GAME, FULL, FIELDS[1..][1..][1..]) == Some([]);
    assert [c] + [] == [c] && [b] + [c] == [b, c] && [a] + [b, c] == [a, b, c];
    assert Response.TransportedAll(GAME, FULL, FIELDS[1..][1..]) == Some([c]);
    assert Response.TransportedAll(GAME, FULL, FIELDS[1..]) == Some([b, c]);
  }

  lemma FullEncoded()
    ensures var values := [Response.TextValue([0x78]), Response.NumberValue(42), Response.NumberValue(513)];
      Response.ValuesBytes(GAME, FIELDS, values) == [0xFF, 0x78, 0, 42, 2, 1]
  {
    var values := [Response.TextValue([0x78]), Response.NumberValue(42), Response.NumberValue(513)];
    ValueAnswers();
    hide Response.ValueBytes;
    assert FIELDS[1..] == [[0x62], [0x63]] && FIELDS[1..][1..] == [[0x63]] && FIELDS[1..][1..][1..] == [];
    assert values[1..][1..][1..] == [];
    assert Response.ValuesBytes(GAME, FIELDS[1..][1..][1..], values[1..][1..][1..]) == [];
    assert Response.ValuesBytes(GAME, FIELDS[1..][1..], values[1..][1..]) == [2, 1];
    assert Response.ValuesBytes(GAME, FIELDS[1..], values[1..]) == [42, 2, 1];
  }

  lemma ValueAnswers()
    ensures Response.ValueBytes(Response.TextValue([0x78]), Response.AsString) == [0xFF, 0x78, 0]
    ensures Response.ValueBytes(Response.NumberValue(42), Response.AsByte) == [42]
    ensures Response.ValueBytes(Response.NumberValue(513), Response.AsShort) == [2, 1]
  {
  }

  lemma FullFlags()
    ensures Response.Flags(GAME, FULL) == 0xFF
  {
    hide Ascii;
    NatnegIsNoField();
  }

  /** A record with all its parts: each has its own place. */
  lemma RecordAnswer()
    ensures Response.Record(GAME, FULL, FIELDS)
         == Some([0xFF, 1, 2, 3, 4, 0x1F, 0x90, 10, 0, 0, 7, 0x22, 0x33, 5, 6, 7, 8, 0xFF, 0x78, 0, 42, 2, 1, 0x72, 0])
  {
    hide Response.Flags, Response.TransportedAll, Response.ValuesBytes, Ascii, U16Bytes;
    FullTransported();
    FullEncoded();
    FullFlags();
    PortAnswers();
    assert Response.PortBytes(FULL.publicPort != GAME.queryPort, FULL.publicPort) == [0x1F, 0x90];
    assert Response.PortBytes(FULL.privatePort != 0, FULL.privatePort) == [0x22, 0x33];
    assert Response.IpBytes(FULL.privateIp) == [10, 0, 0, 7] && Response.IpBytes(FULL.icmpIp) == [5, 6, 7, 8];
    assert Response.RulesBytes(FULL.rules) == [0x72, 0];
    hide Response.PortBytes, Response.IpBytes, Response.RulesBytes;
    assert Response.Record(GAME, FULL, FIELDS).value
        == [0xFF, 1, 2, 3, 4, 0x1F, 0x90, 10, 0, 0, 7, 0x22, 0x33, 5, 6, 7, 8, 0xFF, 0x78, 0, 42, 2, 1, 0x72, 0];
  }

  lemma PortAnswers()
    ensures U16Bytes(0x1F90) == [0x1F, 0x90] && U16Bytes(0x2233) == [0x22, 0x33] && U16Bytes(6500) == [0x19, 0x64]
    ensures U16Bytes(65535) == [0xFF, 0xFF]
  {
  }

  /** The header of a response: address, port, count, each field behind its type, and no popular values. */
  lemma HeaderAnswers()
    ensures Response.Header(GAME, FIELDS, false, [127, 0, 0, 1])
         == [127, 0, 0, 1, 0x19, 0x64, 3, 0, 0x61, 0, 1, 0x62, 0, 2, 0x63, 0, 0]
    ensures Response.Header(GAME, FIELDS, true, [127, 0, 0, 1]) == [127, 0, 0, 1, 0x19, 0x64]
    ensures Response.Header(GAME.(queryPort := 65535), FIELDS, false, [127, 0, 0, 1])
         == [127, 0, 0, 1, 0xFF, 0xFF] + Ascii("Game does not support multiplayer!") + [0, 0]
    ensures Response.TERMINATOR == [0, 0xFF, 0xFF, 0xFF, 0xFF]
  {
    hide Ascii, U16Bytes, Response.FieldEntries;
    PortAnswers();
    EntriesAnswer();
  }

  lemma EntriesAnswer()
    ensures Response.FieldEntries(GAME, FIELDS) == [0, 0x61, 0, 1, 0x62, 0, 2, 0x63, 0]
  {
    assert FIELDS[1..] == [[0x62], [0x63]] && FIELDS[1..][1..] == [[0x63]] && FIELDS[1..][1..][1..] == [];
    assert Response.FieldEntries(GAME, FIELDS[1..][1..][1..]) == [];
    assert Response.FieldEntries(GAME, FIELDS[1..][1..]) == [2, 0x63, 0];
    assert Response.FieldEntries(GAME, FIELDS[1..]) == [1, 0x62, 0, 2, 0x63, 0];
  }

  // ---- a whole connection ----

  const CLIENT_CHALLENGE: seq<byte> := [0x61, 0x62, 0x63, 0x64, 0x65, 0x66, 0x67, 0x68]
  const CRYPT_KEY: seq<byte> := [0x41, 0x42, 0x43, 0x44, 0x45, 0x46, 0x47, 0x48]

  /** Twenty-five bytes that leave a session key of which every step of the schedule is known. */
  const SERVER_CHALLENGE: seq<byte> := [
    65, 66, 67, 68, 69, 70, 71, 72, 73, 74, 255, 76, 77,
    78, 221, 219, 81, 82, 83, 78, 85, 82, 255, 247, 255]

  lemma PreambleAnswer()
    ensures Browser.Preamble(0x0102, CRYPT_KEY, SERVER_CHALLENGE)
         == [0xE6, 1, 2] + CRYPT_KEY + [0xF3] + SERVER_CHALLENGE
  {
    hide Xor;
    CipherAnswers.MachineXor(10, 0xEC, 0xE6);
    CipherAnswers.MachineXor(25, 0xEA, 0xF3);
    assert U16Bytes(0x0102) == [1, 2];
  }

  lemma MixedNothing(key: seq<byte>, secretKey: seq<byte>, serverChallenge: seq<byte>)
    requires key != [] && secretKey != []
    ensures Browser.Mixed(key, secretKey, serverChallenge, 0) == key
  {
  }

  /** One step of the mixing, with the three bytes that go into it. */
  lemma MixTo(key: seq<byte>, i: nat, c: bv8, target: nat, p: bv8, q: bv8, r: bv8)
    requires |key| == 8 && i < 25 && SERVER_CHALLENGE[i] == c as int
    requires Browser.Mixed(CLIENT_CHALLENGE, CipherAnswers.SECRET_KEY, SERVER_CHALLENGE, i) == key
    requires target == i * CipherAnswers.SECRET_KEY[i % 6] % 8
    requires key[i % 8] == p as int && key[target] == q as int && q ^ (p ^ c) == r
    ensures Browser.Mixed(CLIENT_CHALLENGE, CipherAnswers.SECRET_KEY, SERVER_CHALLENGE, i + 1)
         == key[target := r as int]
  {
    hide Xor;
    CipherAnswers.MachineXor(p, c, p ^ c);
    CipherAnswers.MachineXor(q, p ^ c, r);
  }

  lemma Mixing1()
    ensures Browser.Mixed(CLIENT_CHALLENGE, CipherAnswers.SECRET_KEY, SERVER_CHALLENGE, 3)
         == [65, 98, 99, 100, 69, 102, 103, 72]
  {
    hide Browser.Mixed;
    MixedNothing(CLIENT_CHALLENGE, CipherAnswers.SECRET_KEY, SERVER_CHALLENGE);
    MixTo([97, 98, 99, 100, 101, 102, 103, 104], 0, 65, 0, 97, 97, 65);
    MixTo([65, 98, 99, 100, 101, 102, 103, 104], 1, 66, 7, 98, 104, 72);
    MixTo([65, 98, 99, 100, 101, 102, 103, 72], 2, 67, 4, 99, 101, 69);
  }

  lemma Mixing2()
    ensures Browser.Mixed(CLIENT_CHALLENGE, CipherAnswers.SECRET_KEY, SERVER_CHALLENGE, 6)
         == [65, 98, 99, 100, 69, 70, 103, 104]
  {
    hide Browser.Mixed;
    Mixing1();
    MixTo([65, 98, 99, 100, 69, 102, 103, 72], 3, 68, 7, 100, 72, 104);
    MixTo([65, 98, 99, 100, 69, 102, 103, 104], 4, 69, 4, 69, 69, 69);
    MixTo([65, 98, 99, 100, 69, 102, 103, 104], 5, 70, 5, 102, 102, 70);
  }

  lemma Mixing3()
    ensures Browser.Mixed(CLIENT_CHALLENGE, CipherAnswers.SECRET_KEY, SERVER_CHALLENGE, 9)
         == [73, 66, 99, 100, 69, 70, 103, 104]
  {
    hide Browser.Mixed;
    Mixing2();
    MixTo([65, 98, 99, 100, 69, 70, 103, 104], 6, 71, 0, 103, 65, 97);
    MixTo([97, 98, 99, 100, 69, 70, 103, 104], 7, 72, 1, 104, 98, 66);
    MixTo([97, 66, 99, 100, 69, 70, 103, 104], 8, 73, 0, 97, 97, 73);
  }

  lemma Mixing4()
    ensures Browser.Mixed(CLIENT_CHALLENGE, CipherAnswers.SECRET_KEY, SERVER_CHALLENGE, 12)
         == [73, 66, 255, 76, 69, 78, 103, 104]
  {
    hide Browser.Mixed;
    Mixing3();
    MixTo([73, 66, 99, 100, 69, 70, 103, 104], 9, 74, 5, 66, 70, 78);
    MixTo([73, 66, 99, 100, 69, 78, 103, 104], 10, 255, 2, 99, 99, 255);
    MixTo([73, 66, 255, 100, 69, 78, 103, 104], 11, 76, 3, 100, 100, 76);
  }

  lemma Mixing5()
    ensures Browser.Mixed(CLIENT_CHALLENGE, CipherAnswers.SECRET_KEY, SERVER_CHALLENGE, 15)
         == [65, 66, 255, 76, 255, 78, 103, 104]
  {
    hide Browser.Mixed;
    Mixing4();
    MixTo([73, 66, 255, 76, 69, 78, 103, 104], 12, 77, 0, 69, 73, 65);
    MixTo([65, 66, 255, 76, 69, 78, 103, 104], 13, 78, 3, 78, 76, 76);
    MixTo([65, 66, 255, 76, 69, 78, 103, 104], 14, 221, 4, 103, 69, 255);
  }

  lemma Mixing6()
    ensures Browser.Mixed(CLIENT_CHALLENGE, CipherAnswers.SECRET_KEY, SERVER_CHALLENGE, 18)
         == [81, 82, 255, 255, 255, 78, 103, 104]
  {
    hide Browser.Mixed;
    Mixing5();
    MixTo([65, 66, 255, 76, 255, 78, 103, 104], 15, 219, 3, 104, 76, 255);
    MixTo([65, 66, 255, 255, 255, 78, 103, 104], 16, 81, 0, 65, 65, 81);
    MixTo([81, 66, 255, 255, 255, 78, 103, 104], 17, 82, 1, 66, 66, 82);
  }

  lemma Mixing7()
    ensures Browser.Mixed(CLIENT_CHALLENGE, CipherAnswers.SECRET_KEY, SERVER_CHALLENGE, 21)
         == [87, 82, 255, 255, 255, 255, 103, 104]
  {
    hide Browser.Mixed;
    Mixing6();
    MixTo([81, 82, 255, 255, 255, 78, 103, 104], 18, 83, 0, 255, 81, 253);
    MixTo([253, 82, 255, 255, 255, 78, 103, 104], 19, 78, 5, 255, 78, 255);
    MixTo([253, 82, 255, 255, 255, 255, 103, 104], 20, 85, 0, 255, 253, 87);
  }

  lemma Mixing8()
    ensures Browser.Mixed(CLIENT_CHALLENGE, CipherAnswers.SECRET_KEY, SERVER_CHALLENGE, 24)
         == [87, 255, 255, 255, 255, 255, 255, 247]
  {
    hide Browser.Mixed;
    Mixing7();
    MixTo([87, 82, 255, 255, 255, 255, 103, 104], 21, 82, 1, 255, 82, 255);
    MixTo([87, 255, 255, 255, 255, 255, 103, 104], 22, 255, 6, 103, 103, 255);
    MixTo([87, 255, 255, 255, 255, 255, 255, 104], 23, 247, 7, 104, 104, 247);
  }

  lemma Mixing9()
    ensures Browser.Mixed(CLIENT_CHALLENGE, CipherAnswers.SECRET_KEY, SERVER_CHALLENGE, 25)
         == [255, 255, 255, 255, 255, 255, 255, 247]
  {
    hide Browser.Mixed;
    Mixing8();
    MixTo([87, 255, 255, 255, 255, 255, 255, 247], 24, 255, 0, 87, 87, 255);
  }

  /** The session key after all twenty-five steps. */
  lemma SessionKeyAnswer()
    ensures Browser.SessionKey(CLIENT_CHALLENGE, CipherAnswers.SECRET_KEY, SERVER_CHALLENGE)
         == [255, 255, 255, 255, 255, 255, 255, 247]
  {
    hide Browser.Mixed;
    Mixing9();
  }

  /** The first response of a connection whose request wants no list, byte for byte. */
  lemma WireAnswer(request: Request.Request)
    requires request.challenge == CLIENT_CHALLENGE && request.options == 2
    ensures Browser.Payload(GAME, request, [127, 0, 0, 1], []) == Some([127, 0, 0, 1, 25, 100])
    ensures Browser.Wire(GAME, request, [127, 0, 0, 1, 25, 100], CRYPT_KEY, SERVER_CHALLENGE)
         == [0xE6, 0, 0] + CRYPT_KEY + [0xF3] + SERVER_CHALLENGE + [120, 1, 146, 37, 68, 21]
  {
    hide Browser.SessionKey, Sapphire.EncryptAll, Sapphire.Keyed, Xor, U16Bytes, Browser.NoList, Browser.ListFollows,
      Ascii;
    CipherAnswers.MachineXor(10, 0xEC, 0xE6);
    CipherAnswers.MachineXor(25, 0xEA, 0xF3);
    NoBackend();
    PortAnswers();
    ListRefused(request.options, GAME);
    assert Response.Header(GAME, request.fieldList, true, [127, 0, 0, 1]) == [127, 0, 0, 1, 25, 100];
    SessionKeyAnswer();
    CipherAnswers.DescendingAnswer([255, 255, 255, 255, 255, 255, 255, 247]);
  }

  lemma ListRefused(options: uint32, game: Response.Game)
    requires options == 2
    ensures Browser.NoList(options) && !Browser.ListFollows(game, options)
  {
  }

  lemma NoBackend()
    ensures U16Bytes(0) == [0, 0]
  {
  }

  // ---- the packets of a browser connection ----

  /** Two packets and the beginning of a third one. */
  lemma StreamAnswer()
    ensures PacketReader.Split([0, 4, 0, 0xAA, 0, 3, 1, 0, 5])
         == PacketReader.Scan([PacketReader.Packet(0, [0xAA]), PacketReader.Packet(1, [])], false, [0, 5])
  {
    var s: seq<byte> := [0, 4, 0, 0xAA, 0, 3, 1, 0, 5];
    assert PacketReader.First(s) == PacketReader.Packet(0, [0xAA]) && PacketReader.Remainder(s) == [0, 3, 1, 0, 5];
    var s': seq<byte> := [0, 3, 1, 0, 5];
    assert PacketReader.First(s') == PacketReader.Packet(1, []) && PacketReader.Remainder(s') == [0, 5];
    assert PacketReader.Split([0, 5]) == PacketReader.Scan([], false, [0, 5]);
    assert PacketReader.Split(s') == PacketReader.Scan([PacketReader.Packet(1, [])], false, [0, 5]);
  }

  /** What a connection is closed for: a length below 3 or above 4096, or a complete packet of a type above 5. */
  lemma StreamRefusals(s: seq<byte>)
    requires |s| >= 3
    ensures var n := 256 * s[0] as int + s[1] as int;
      PacketReader.Split(s).stopped && PacketReader.Split(s).packets == []
      <==> n < 3 || n > 4096 || (n <= |s| && s[2] > 5)
  {
    hide PacketReader.Split;
    Split1(s);
  }

  lemma Split1(s: seq<byte>)
    ensures PacketReader.Split(s).stopped && PacketReader.Split(s).packets == [] <==> PacketReader.Malformed(s)
  {
    PacketReader.MalformedIsNotIncomplete(s);
  }

  // ---- the packets of game servers ----

  /** How the bytes of a datagram are understood, for each type that counts. */
  lemma SignalAnswers(leftover: Text)
    ensures Master.SignalOf([3, 1, 2, 3, 4] + (Ascii("gamename") + [0] + (Ascii("bf2") + [0] + [0])), leftover)
         == Master.Heartbeat(
              Qr.Heartbeat([1, 2, 3, 4], map[Ascii("gamename") := Ascii("bf2")], Qr.NO_TABLE, Qr.NO_TABLE))
    ensures Master.SignalOf([8, 1, 2, 3, 4], leftover) == Master.KeepAlive
    ensures Master.SignalOf([1, 1, 2, 3, 4, 0x78, 0], leftover) == Master.Answer([0x78])
    ensures Master.SignalOf([9, 0, 0, 0, 0, 0x62, 0x66, 0x32, 0], leftover) == Master.Query([0x62, 0x66, 0x32])
  {
    hide Master.SignalOf, Ascii;
    HeartbeatAnswer(leftover);
    OtherSignals(leftover);
  }

  lemma HeartbeatAnswer(leftover: Text)
    ensures Master.SignalOf([3, 1, 2, 3, 4] + (Ascii("gamename") + [0] + (Ascii("bf2") + [0] + [0])), leftover)
         == Master.Heartbeat(
              Qr.Heartbeat([1, 2, 3, 4], map[Ascii("gamename") := Ascii("bf2")], Qr.NO_TABLE, Qr.NO_TABLE))
  {
    hide Master.SignalOf, Ascii;
    Plain();
    MasterRuns.HeartbeatArrives(Ascii("bf2"), leftover);
    OnePair(Ascii("gamename"), Ascii("bf2"));
    assert [3] + [1, 2, 3, 4] == [3, 1, 2, 3, 4];
  }

  lemma OnePair(key: Text, value: Text)
    ensures Qr.PrintMap([Qr.Pair(key, value)]) == key + [0] + (value + [0] + [0])
  {
    assert [Qr.Pair(key, value)][1..] == [];
    assert Qr.PrintPairs([Qr.Pair(key, value)]) == (key + [0]) + ((value + [0]) + []);
  }

  lemma Plain()
    ensures NUL !in Ascii("bf2")
  {
    assert |Ascii("bf2")| == 3 && Ascii("bf2") == [0x62, 0x66, 0x32];
  }

  lemma OtherSignals(leftover: Text)
    ensures Master.SignalOf([8, 1, 2, 3, 4], leftover) == Master.KeepAlive
    ensures Master.SignalOf([1, 1, 2, 3, 4, 0x78, 0], leftover) == Master.Answer([0x78])
    ensures Master.SignalOf([9, 0, 0, 0, 0, 0x62, 0x66, 0x32, 0], leftover) == Master.Query([0x62, 0x66, 0x32])
  {
    hide Qr.ParseHeartbeat;
    assert [1, 1, 2, 3, 4, 0x78, 0][5..] == [0x78, 0];
    assert FindByte([0x78, 0], 0) == 1 by { FindByteIs([0x78, 0], 0, 1); }
    assert [0x78, 0][..1] == [0x78];
    assert [9, 0, 0, 0, 0, 0x62, 0x66, 0x32, 0][5..] == [0x62, 0x66, 0x32, 0];
    assert [0x62, 0x66, 0x32, 0][..3] == [0x62, 0x66, 0x32];
  }

  /** What counts for nothing: short datagrams, other types, and data that do not end in NUL. */
  lemma NoSignal(bytes: seq<byte>, leftover: Text)
    requires |bytes| < 5 || bytes[0] !in {1, 3, 8, 9} || (|bytes| > 5 && bytes[|bytes| - 1] != 0)
    ensures Master.SignalOf(bytes, leftover) == Master.Nothing
  {
    hide Qr.ParseHeartbeat;
  }

  /** A heartbeat with a map, a table of players and a table of teams. */
  lemma TablesAnswer()
    ensures Qr.ParseHeartbeat(Qr.Packet(3, [1, 2, 3, 4],
              [0x6B, 0, 0x76, 0, 0, 0, 1, 0x6E, 0x5F, 0, 0, 0x62, 0, 0, 1, 0x73, 0x5F, 0x74, 0, 0, 0x72, 0]))
         == Ok(Qr.Heartbeat([1, 2, 3, 4], map[[0x6B] := [0x76]],
              Qr.Table([[0x6E, 0x5F]], [[[0x62]]]), Qr.Table([[0x73, 0x5F, 0x74]], [[[0x72]]])))
  {
    hide Qr.ParseHeartbeat, Qr.PrintTable, Qr.PrintMap, Qr.PlainPairs, Qr.PlainTable, Qr.NoEmptyKey, Qr.NoEmptyCell,
      Qr.EmplaceAll;
    TablesPlain();
    Qr.ParsePrintedHeartbeat(3, [1, 2, 3, 4], PAIRS, PLAYERS, TEAMS, []);
    OnePair([0x6B], [0x76]);
    OneByOne([0x6E, 0x5F], [0x62]);
    OneByOne([0x73, 0x5F, 0x74], [0x72]);
    TablesBytes();
  }

  const PAIRS := [Qr.Pair([0x6B], [0x76])]
  const PLAYERS := Qr.Table([[0x6E, 0x5F]], [[[0x62]]])
  const TEAMS := Qr.Table([[0x73, 0x5F, 0x74]], [[[0x72]]])

  lemma TablesPlain()
    ensures Qr.PlainPairs(PAIRS) && Qr.NoEmptyKey(PAIRS)
    ensures Qr.PlainTable(PLAYERS, Qr.PLAYER_END) && Qr.NoEmptyCell(PLAYERS.rows)
    ensures Qr.PlainTable(TEAMS, Qr.TEAM_END) && Qr.NoEmptyCell(TEAMS.rows)
    ensures Qr.EmplaceAll(map[], PAIRS) == map[[0x6B] := [0x76]]
  {
    hide Ascii, Qr.PlainTable, Qr.NoEmptyCell;
    TableEnds();
    assert PAIRS[1..] == [];
    HeaderEnds();
    hide Qr.EndsWith;
    OnePlainCell([0x6E, 0x5F], 0x62, Qr.PLAYER_END);
    OnePlainCell([0x73, 0x5F, 0x74], 0x72, Qr.TEAM_END);
  }

  lemma HeaderEnds()
    ensures Qr.EndsWith([0x6E, 0x5F], [0x5F]) && Qr.EndsWith([0x73, 0x5F, 0x74], [0x5F, 0x74])
  {
    assert [0x6E, 0x5F][1..] == [0x5F] && [0x73, 0x5F, 0x74][1..] == [0x5F, 0x74];
  }

  lemma OnePlainCell(header: Text, cell: byte, headerEnd: Text)
    requires NUL !in header && Qr.EndsWith(header, headerEnd) && cell != NUL
    ensures Qr.PlainTable(Qr.Table([header], [[[cell]]]), headerEnd) && Qr.NoEmptyCell([[[cell]]])
  {
    hide Qr.EndsWith;
  }

  lemma TablesBytes()
    ensures [0x6B, 0, 0x76, 0, 0, 0, 1, 0x6E, 0x5F, 0, 0, 0x62, 0, 0, 1, 0x73, 0x5F, 0x74, 0, 0, 0x72, 0]
         == ([0x6B] + [0] + ([0x76] + [0] + [0])) + (([0, 1] + [0x6E, 0x5F] + [0, 0] + [0x62] + [0])
            + (([0, 1] + [0x73, 0x5F, 0x74] + [0, 0] + [0x72] + [0]) + []))
  {
  }

  lemma TableEnds()
    ensures Qr.PLAYER_END == [0x5F] && Qr.TEAM_END == [0x5F, 0x74]
  {
  }

  lemma OneByOne(header: Text, cell: Text)
    ensures Qr.PrintTable(Qr.Table([header], [[cell]])) == [0, 1] + header + [0, 0] + cell + [0]
  {
    hide U16Bytes;
    OneRow();
    assert [header][1..] == [] && [cell][1..] == [] && [[cell]][1..] == [];
    assert Qr.PrintRows([[cell]]) == Qr.PrintTexts([cell]) + Qr.PrintRows([]);
  }

  lemma OneRow()
    ensures U16Bytes(1) == [0, 1]
  {
  }

  /** The bytes that go back to a game server. */
  lemma ReplyAnswers(instance: seq<byte>, data: Text, games: map<Text, Master.Game>, s: Master.State, ev: Master.Event)
    ensures Master.ChallengePacket(instance, data) == [0xFE, 0xFD, 0x01] + instance + data + [0]
    ensures Master.AvailabilityPacket(Master.Available) == [0xFE, 0xFD, 0x09, 0, 0, 0, 0, 0]
    ensures Master.AvailabilityPacket(Master.DisabledTemporary) == [0xFE, 0xFD, 0x09, 0, 0, 0, 1, 0]
    ensures Master.AvailabilityPacket(Master.DisabledPermanently) == [0xFE, 0xFD, 0x09, 0, 0, 0, 2, 0]
    ensures ev.Datagram? && Master.Sent(ev).Answer? && Master.Reply(games, s, ev).Some?
      ==> ev.client in s.awaiting
          && Master.Reply(games, s, ev).value == [0xFE, 0xFD, 0x0A] + s.awaiting[ev.client].instance
  {
    hide Master.SignalOf;
  }

  /** An entry times out 61 seconds after its last update, in nanoseconds. */
  lemma TimeoutAnswer(entry: Master.Entry, now: int)
    ensures Master.Expired(entry, now) <==> now - entry.lastUpdate >= 61_000_000_000
  {
    Master.AgeOver(now, entry.lastUpdate);
  }

  // ---- a repaired query ----

  lemma QueryWords()
    ensures Query.GAMETYPE == Ascii("gametype") && Query.AND == Ascii(" and ")
    ensures Query.HOSTNAME == Ascii("hostname like '%") && Query.CLOSING == Ascii("%'")
  {
  }

  /** A host name with a quote, and a condition on the type of game right behind it. */
  lemma QueryAnswer()
    ensures Query.Escaped(Query.Separated(Query.HOSTNAME + [0x61, 0x27, 0x62] + Query.CLOSING + Query.GAMETYPE))
         == Query.HOSTNAME + [0x61, 0x27, 0x27, 0x62] + Query.CLOSING + Query.AND + Query.GAMETYPE
  {
    hide Search.Find, Query.Doubled;
    var query := Query.HOSTNAME + [0x61, 0x27, 0x62] + Query.CLOSING + Query.GAMETYPE;
    var separated := Query.HOSTNAME + [0x61, 0x27, 0x62] + Query.CLOSING + Query.AND + Query.GAMETYPE;
    GapFound(query);
    assert Query.Separated(query) == separated;
    HostnameFound(separated);
    assert separated[16..19] == [0x61, 0x27, 0x62];
    QuoteDoubled();
  }

  lemma AtStarts(s: Text, key: Text, k: nat)
    requires key != []
    ensures Search.At(s, key, k) ==> k < |s| && s[k] == key[0]
  {
    assert Search.At(s, key, k) ==> s[k..k + |key|][0] == s[k];
  }

  lemma GapFound(query: Text)
    requires query == Query.HOSTNAME + [0x61, 0x27, 0x62] + Query.CLOSING + Query.GAMETYPE
    ensures Query.GametypeGap(query) == Some(21)
  {
    hide Search.Find;
    assert query[21..29] == Query.GAMETYPE;
    forall k: nat | k < 21 ensures !Search.At(query, Query.GAMETYPE, k) {
      AtStarts(query, Query.GAMETYPE, k);
      assert query[k] != 0x67;
    }
    Search.FindIs(query, Query.GAMETYPE, 0, 21);
  }

  lemma HostnameFound(query: Text)
    requires query == Query.HOSTNAME + [0x61, 0x27, 0x62] + Query.CLOSING + Query.AND + Query.GAMETYPE
    ensures Query.Hostname(query) == Some(Query.Span(16, 19))
  {
    hide Search.Find;
    assert query[0..16] == Query.HOSTNAME && query[19..21] == Query.CLOSING;
    Search.FindIs(query, Query.HOSTNAME, 0, 0);
    forall k: nat | 16 <= k < 19 ensures !Search.At(query, Query.CLOSING, k) {
      AtStarts(query, Query.CLOSING, k);
      assert query[k] != 0x25;
    }
    Search.FindIs(query, Query.CLOSING, 16, 19);
  }

  lemma QuoteDoubled()
    ensures Query.Doubled([0x61, 0x27, 0x62]) == [0x61, 0x27, 0x27, 0x62]
  {
    assert [0x61, 0x27, 0x62][1..] == [0x27, 0x62] && [0x27, 0x62][1..] == [0x62] && [0x62][1..] == [];
    assert Query.Doubled([0x62]) == [0x62] + Query.Doubled([]);
    assert Query.Doubled([0x27, 0x62]) == [0x27, 0x27] + Query.Doubled([0x62]);
  }
}

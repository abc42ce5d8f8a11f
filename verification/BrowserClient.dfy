/**
 One browser connection: the clear preamble, the mixing of the session key, the
 encrypted response to a server list request, and a client that reads it all back.
 */
module BrowserClient {
  import opened Bytes
  import opened Parsing
  import Decks
  import Sapphire
  import Request = ListRequest
  import Response = ListResponse

  const CRYPT_KEY_LENGTH := 8
  const SERVER_CHALLENGE_LENGTH := 25
  const RESULT_LIMIT := 500

  // ---- the preamble and the session key ----

  /** Lengths under fixed masks, the backend options, the crypt key and the server challenge. */
  function Preamble(backend: uint16, cryptKey: seq<byte>, serverChallenge: seq<byte>): seq<byte> {
    [Xor(ToByte(|cryptKey| + 2), 0xEC)] + U16Bytes(backend) + cryptKey
    + [Xor(ToByte(|serverChallenge|), 0xEA)] + serverChallenge
  }

  function MixStep(key: seq<byte>, secretKey: seq<byte>, challenge: byte, i: nat): (k: seq<byte>)
    requires key != [] && secretKey != []
    ensures |k| == |key|
  {
    var target := (i * secretKey[i % |secretKey|]) % |key|;
    key[target := Xor(key[target], Xor(key[i % |key|], challenge))]
  }

  /** The session key after the first `count` bytes of the server challenge. */
  function Mixed(key: seq<byte>, secretKey: seq<byte>, serverChallenge: seq<byte>, count: nat): (k: seq<byte>)
    requires key != [] && secretKey != [] && count <= |serverChallenge|
    ensures |k| == |key|
  {
    if count == 0 then key
    else MixStep(Mixed(key, secretKey, serverChallenge, count - 1), secretKey, serverChallenge[count - 1], count - 1)
  }

  function SessionKey(clientChallenge: seq<byte>, secretKey: seq<byte>, serverChallenge: seq<byte>): (k: seq<byte>)
    requires clientChallenge != [] && secretKey != []
    ensures |k| == |clientChallenge|
  {
    Mixed(clientChallenge, secretKey, serverChallenge, |serverChallenge|)
  }

  // ---- what is sent under encryption ----

  predicate NoList(options: uint32) {
    Request.Has(options, Request.NO_SERVER_LIST)
  }

  predicate ListFollows(game: Response.Game, options: uint32) {
    && !NoList(options)
    && game.queryPort != Response.NO_QUERY_PORT
    && !Request.Has(options, Request.SEND_GROUPS)
  }

  /** The clear text of a response; None when the encoder of some record throws. */
  function Payload(game: Response.Game, request: Request.Request, ip: Response.Ip, servers: seq<Response.Server>)
    : Option<seq<byte>>
  {
    var header := Response.Header(game, request.fieldList, NoList(request.options), ip);
    if ListFollows(game, request.options)
    then Response.Joined(header, Response.ListBytes(game, servers, request.fieldList))
    else Some(header)
  }

  /** The first response on a connection, byte for byte. */
  function Wire(game: Response.Game, request: Request.Request, payload: seq<byte>, cryptKey: seq<byte>,
                serverChallenge: seq<byte>): seq<byte>
    requires 0 < |request.challenge| < 256 && game.secretKey != []
  {
    var key := SessionKey(request.challenge, game.secretKey, serverChallenge);
    Preamble(game.backend, cryptKey, serverChallenge) + Sapphire.EncryptAll(Sapphire.Keyed(key), payload).1
  }

  // ---- the client ----

  datatype View = View(backend: uint16, header: Response.HeaderInfo, listings: seq<Response.Listing>)

  datatype Opened = Opened(backend: uint16, cryptKey: seq<byte>, serverChallenge: seq<byte>, rest: seq<byte>)

  function ReadPreamble(wire: seq<byte>): Option<Opened> {
    if wire == [] then None else
    var n := Xor(wire[0], 0xEC);
    if n < 2 || |wire| < 2 + n as int then None else
    var m := Xor(wire[1 + n as int], 0xEA);
    var rest := wire[2 + n as int..];
    if |rest| < m then None else Some(Opened(U16(wire[1..3]), wire[3..1 + n as int], rest[..m], rest[m..]))
  }

  /** A client that knows the secret key and its own challenge decodes the whole connection. */
  function ClientDecode(wire: seq<byte>, clientChallenge: seq<byte>, secretKey: seq<byte>): Option<View>
    requires 0 < |clientChallenge| < 256 && secretKey != []
  {
    var greeting := ReadPreamble(wire);
    if greeting.None? then None else
    var key := SessionKey(clientChallenge, secretKey, greeting.value.serverChallenge);
    var plain := Sapphire.DecryptAll(Sapphire.Keyed(key), greeting.value.rest).1;
    var payload := ReadPayload(plain);
    if payload.None? then None else Some(View(greeting.value.backend, payload.value.0, payload.value.1))
  }

  lemma PreambleReads(backend: uint16, cryptKey: seq<byte>, serverChallenge: seq<byte>, rest: seq<byte>)
    requires |cryptKey| < 254 && |serverChallenge| < 256
    ensures ReadPreamble(Preamble(backend, cryptKey, serverChallenge) + rest)
         == Some(Opened(backend, cryptKey, serverChallenge, rest))
  {
    hide Xor, U16Bytes, U16;
    var n := |cryptKey| + 2;
    var wire := Preamble(backend, cryptKey, serverChallenge) + rest;
    XorCancel(n, 0xEC);
    XorCancel(|serverChallenge|, 0xEA);
    U16RoundTrip(backend);
    assert wire[0] == Xor(n, 0xEC);
    assert wire[1..3] == U16Bytes(backend);
    assert wire[3..1 + n] == cryptKey;
    assert wire[1 + n] == Xor(|serverChallenge|, 0xEA);
    assert wire[2 + n..] == serverChallenge + rest;
    assert (serverChallenge + rest)[..|serverChallenge|] == serverChallenge;
    assert (serverChallenge + rest)[|serverChallenge|..] == rest;
  }

  /** Neither the count byte has wrapped around nor is a server without data listed. */
  predicate Readable(request: Request.Request, servers: seq<Response.Server>) {
    |request.fieldList| < 256 && Response.AllFilled(servers, request.fieldList)
  }

  /** Texts that go onto the wire in front of a NUL contain none. */
  ghost predicate Clean(game: Response.Game, request: Request.Request, servers: seq<Response.Server>) {
    (forall f :: f in request.fieldList ==> NUL !in f) && Response.AllClean(game, servers, request.fieldList)
  }

  /** What the client is owed. */
  function Owed(game: Response.Game, request: Request.Request, ip: Response.Ip, servers: seq<Response.Server>)
    : Option<View>
  {
    var listings := Response.Listings(game, servers, request.fieldList);
    if listings.None? then None
    else
      var infos := Response.FieldInfos(game, request.fieldList);
      Some(View(game.backend, Response.HeaderInfo(ip, game.queryPort, infos), listings.value))
  }

  /** Header and list, read from the clear text of a response that must end behind the terminator. */
  function ReadPayload(plain: seq<byte>): Option<(Response.HeaderInfo, seq<Response.Listing>)> {
    var header := Response.ReadHeader(plain);
    if header.None? then None else
    var types := Response.InfoTypes(header.value.value.fields);
    var list := Response.ReadList(header.value.rest, types, header.value.value.queryPort);
    if list.None? || list.value.rest != [] then None
    else Some((header.value.value, list.value.value))
  }

  lemma PayloadReads(game: Response.Game, request: Request.Request, ip: Response.Ip, servers: seq<Response.Server>)
    requires ListFollows(game, request.options) && Payload(game, request, ip, servers).Some?
    requires Clean(game, request, servers)
    ensures Response.Listings(game, servers, request.fieldList).Some?
    ensures var info := Response.HeaderInfo(ip, game.queryPort, Response.FieldInfos(game, request.fieldList));
      ReadPayload(Payload(game, request, ip, servers).value)
      == Some((info, Response.Listings(game, servers, request.fieldList).value))
      <==> Readable(request, servers)
  {
    hide Response.Header, Response.ReadHeader, Response.ListBytes, Response.ReadList, Response.AllClean,
      Response.AllFilled, Response.Listings, Response.FieldInfos, Response.InfoTypes;
    var fields := request.fieldList;
    var list := Response.ListBytes(game, servers, fields).value;
    Response.HeaderDecodes(game, fields, ip, list);
    Response.ListDecodes(game, servers, fields, []);
    assert list + [] == list;
    Response.InfoTypesAre(game, fields);
  }

  /**
   End to end: whatever keys and challenges were drawn, the client gets back the backend options,
   the header fields with their types, and exactly the listed servers in their order, if and only
   if there are fewer than 256 fields and no server without data.
   */
  lemma ClientReadsList(game: Response.Game, request: Request.Request, ip: Response.Ip, servers: seq<Response.Server>,
                        cryptKey: seq<byte>, serverChallenge: seq<byte>)
    requires 0 < |request.challenge| < 256 && game.secretKey != []
    requires |cryptKey| < 254 && |serverChallenge| < 256
    requires ListFollows(game, request.options) && Payload(game, request, ip, servers).Some?
    requires Clean(game, request, servers)
    ensures var wire := Wire(game, request, Payload(game, request, ip, servers).value, cryptKey, serverChallenge);
      && Owed(game, request, ip, servers).Some?
      && (ClientDecode(wire, request.challenge, game.secretKey) == Owed(game, request, ip, servers)
          <==> Readable(request, servers))
  {
    hide Response.FieldInfos, Response.Listings, ReadPayload, SessionKey, Payload, Preamble, ReadPreamble,
      ListFollows, Readable, Clean, Sapphire.EncryptAll, Sapphire.DecryptAll, Sapphire.Keyed;
    var payload := Payload(game, request, ip, servers).value;
    var start := Sapphire.Keyed(SessionKey(request.challenge, game.secretKey, serverChallenge));
    PreambleReads(game.backend, cryptKey, serverChallenge, Sapphire.EncryptAll(start, payload).1);
    Sapphire.DecryptEncrypt(start, payload);
    PayloadReads(game, request, ip, servers);
  }

  /** The same from the bytes of the request on. */
  lemma AcceptedReadsList(bytes: seq<byte>, game: Response.Game, ip: Response.Ip, servers: seq<Response.Server>,
                          cryptKey: seq<byte>, serverChallenge: seq<byte>)
    requires Request.Parse(bytes).Ok? && game.secretKey != []
    requires |cryptKey| < 254 && |serverChallenge| < 256
    ensures var request := Request.Parse(bytes).value;
      && |request.challenge| == Request.CHALLENGE_LENGTH
      && (ListFollows(game, request.options) && Payload(game, request, ip, servers).Some?
          && Response.AllClean(game, servers, request.fieldList) ==>
            var wire := Wire(game, request, Payload(game, request, ip, servers).value, cryptKey, serverChallenge);
            && Owed(game, request, ip, servers).Some?
            && (ClientDecode(wire, request.challenge, game.secretKey) == Owed(game, request, ip, servers)
                <==> Readable(request, servers)))
  {
    hide Request.Parse, ListFollows, Payload, Response.AllClean, Wire, ClientDecode, Owed, Readable;
    var request := Request.Parse(bytes).value;
    ChallengeLength(bytes);
    Request.AcceptedFieldsNulFree(bytes);
    if ListFollows(game, request.options) && Payload(game, request, ip, servers).Some?
       && Response.AllClean(game, servers, request.fieldList) {
      ClientReadsList(game, request, ip, servers, cryptKey, serverChallenge);
    }
  }

  // ---- the connection ----

  datatype Status = Closed | Thrown | Served

  class Client {
    var cypher: Sapphire.Cipher?
    var sent: seq<byte>

    ghost predicate Valid()
      reads this, cypher, if cypher == null then {} else {cypher.cards}
    {
      cypher != null ==> cypher.Valid()
    }

    constructor ()
      ensures Valid() && cypher == null && sent == []
    {
      cypher, sent := null, [];
    }

    /** Sends the preamble in the clear and sets up the cipher, once per connection. */
    method StartEncryption(clientChallenge: seq<byte>, game: Response.Game, cryptKey: seq<byte>,
                           serverChallenge: seq<byte>)
      requires Valid() && 0 < |clientChallenge| < 256 && game.secretKey != []
      modifies this
      ensures Valid() && cypher != null
      ensures old(cypher) != null ==> cypher == old(cypher) && sent == old(sent)
      ensures old(cypher) == null ==>
        && fresh(cypher) && fresh(cypher.cards)
        && cypher.Value() == Sapphire.Keyed(SessionKey(clientChallenge, game.secretKey, serverChallenge))
        && sent == old(sent) + Preamble(game.backend, cryptKey, serverChallenge)
    {
      hide Xor, SessionKey, Sapphire.Keyed, Decks.Shuffled;
      if cypher != null {
        return;
      }
      var data: seq<byte> := [Xor(ToByte(|cryptKey| + 2), 0xEC)];
      data := data + [ToByte(game.backend / 0x100), ToByte(game.backend)];
      data := data + cryptKey;
      data := data + [Xor(ToByte(|serverChallenge|), 0xEA)];
      data := data + serverChallenge;
      var key := MixKey(clientChallenge, game.secretKey, serverChallenge);
      cypher := new Sapphire.Cipher(key);
      sent := sent + data;
    }

    /** Encrypts a buffer in place with the one cipher of the connection and sends it. */
    method Send(bytes: array<byte>)
      requires Valid() && cypher != null && bytes != cypher.cards
      modifies this`sent, cypher, cypher.cards, bytes
      ensures Valid()
      ensures sent == old(sent) + Sapphire.EncryptAll(old(cypher.Value()), old(bytes[..])).1
      ensures cypher.Value() == Sapphire.EncryptAll(old(cypher.Value()), old(bytes[..])).0
    {
      hide Sapphire.EncryptAll, Decks.Shuffled;
      cypher.EncryptRange(bytes);
      sent := sent + bytes[..];
    }

    /** Sends one clear text after what was already sent since the cipher was in state `start`. */
    method SendText(text: seq<byte>, ghost start: Sapphire.State, ghost clear: seq<byte>, ghost before: seq<byte>)
      requires Valid() && cypher != null
      requires (cypher.Value(), sent) == After(start, clear, before)
      modifies this`sent, cypher, cypher.cards
      ensures Valid()
      ensures (cypher.Value(), sent) == After(start, clear + text, before)
    {
      hide Sapphire.EncryptAll, Decks.Shuffled;
      var bytes := new byte[|text|](i requires 0 <= i < |text| => text[i]);
      assert bytes[..] == text;
      Sapphire.EncryptConcat(start, clear, text);
      ghost var sentBefore, state := sent, cypher.Value();
      Send(bytes);
      ghost var first, second := Sapphire.EncryptAll(start, clear).1, Sapphire.EncryptAll(state, text).1;
      assert sent == sentBefore + second;
      assert (before + first) + second == before + (first + second);
    }

    /**
     Answers the first packet of a connection. `getServers` stands for the query on the game's
     table, which yields at most as many servers as it is asked for.
     */
    method HandleServerListRequest(bytes: seq<byte>, games: map<Text, Response.Game>, ip: Response.Ip,
                                   getServers: (Text, seq<Text>, nat) -> seq<Response.Server>,
                                   cryptKey: seq<byte>, serverChallenge: seq<byte>)
      returns (status: Status)
      requires Valid() && cypher == null
      requires forall name :: name in games ==> games[name].secretKey != []
      requires forall filter, fields, n :: |getServers(filter, fields, n)| <= n
      requires |cryptKey| == CRYPT_KEY_LENGTH && |serverChallenge| == SERVER_CHALLENGE_LENGTH
      modifies this
      ensures Valid()
      ensures var parsed := Request.Parse(bytes);
        if parsed.Err? || parsed.value.toGame !in games then status == Closed && sent == old(sent)
        else
          var request, game := parsed.value, games[parsed.value.toGame];
          var servers := getServers(request.serverFilter, request.fieldList, Limit(request));
          && |request.challenge| == Request.CHALLENGE_LENGTH && |servers| <= 500
          && (request.limitResultCount.Some? ==> |servers| <= request.limitResultCount.value)
          && Answered(game, request, ip, servers, cryptKey, serverChallenge, old(sent), sent, status)
    {
      hide Sapphire.EncryptAll, Decks.Shuffled, Sapphire.Keyed, SessionKey, Preamble, Response.Header, Owed, Readable,
        Wire, After, Response.ListBytes, Response.Records, Response.Converting, Response.AllClean,
        Request.Parse, ClientDecode;
      var parsed := Request.ParseRequest(bytes);
      if parsed.Err? || parsed.value.toGame !in games {
        return Closed;
      }
      var request, game := parsed.value, games[parsed.value.toGame];
      ChallengeLength(bytes);
      StartEncryption(request.challenge, game, cryptKey, serverChallenge);
      ghost var start, before := cypher.Value(), sent;
      NothingSent(start, before);
      var header := Response.GetResponseHeaderBytes(game, request.fieldList, NoList(request.options), ip);
      SendText(header, start, [], before);
      assert [] + header == header;
      SentIs(game, request, header, cryptKey, serverChallenge, cypher.Value(), old(sent), sent);
      if NoList(request.options) || game.queryPort == Response.NO_QUERY_PORT {
        return Served;
      }
      if Request.Has(request.options, Request.SEND_GROUPS) {
        return Served;
      }
      var servers := getServers(request.serverFilter, request.fieldList, Limit(request));
      var thrown := SendList(game, servers, request.fieldList, start, header, before);
      ghost var begun := Begun(game, request, ip, servers);
      assert begun + [] == begun;
      SentIs(game, request, begun + (if thrown then [] else Response.TERMINATOR), cryptKey, serverChallenge,
             cypher.Value(), old(sent), sent);
      PayloadIs(game, request, ip, servers);
      AcceptedReadsList(bytes, game, ip, servers, cryptKey, serverChallenge);
      status := if thrown then Thrown else Served;
    }

    /** Sends record after record until one does not convert, and otherwise the terminator. */
    method SendList(game: Response.Game, servers: seq<Response.Server>, fields: seq<Text>,
                    ghost start: Sapphire.State, ghost header: seq<byte>, ghost before: seq<byte>)
      returns (thrown: bool)
      requires Valid() && cypher != null
      requires (cypher.Value(), sent) == After(start, header, before)
      modifies this`sent, cypher, cypher.cards
      ensures Valid()
      ensures thrown <==> Response.Converting(game, servers, fields) < |servers|
      ensures (cypher.Value(), sent) == After(start,
                header + Response.Records(game, servers, fields) + (if thrown then [] else Response.TERMINATOR), before)
    {
      hide Sapphire.EncryptAll, Decks.Shuffled, Response.Record, After, Response.Records, Response.Converting;
      ghost var clear := header;
      assert servers[0..] == servers;
      for i := 0 to |servers|
        invariant Valid() && (cypher.Value(), sent) == After(start, clear, before)
        invariant clear + Response.Records(game, servers[i..], fields)
               == header + Response.Records(game, servers, fields)
        invariant Response.Converting(game, servers, fields) == i + Response.Converting(game, servers[i..], fields)
      {
        RecordsStep(game, servers[i..], fields, clear);
        assert servers[i..][1..] == servers[i + 1..];
        var record := Response.PrepareServer(game, servers[i], fields);
        if record.None? {
          assert header + Response.Records(game, servers, fields) + [] == clear;
          return true;
        }
        SendText(record.value, start, clear, before);
        clear := clear + record.value;
      }
      assert servers[|servers|..] == [];
      RecordsEnd(game, fields);
      assert clear + [] == clear;
      SendText(Response.TERMINATOR, start, clear, before);
      thrown := false;
    }
  }

  /**
   What an accepted request is answered with, behind what was sent before: the first response of
   the connection, as far as the values convert. On a fresh connection the client decodes it to
   what it is owed, under the exact condition.
   */
  ghost predicate Answered(game: Response.Game, request: Request.Request, ip: Response.Ip,
                           servers: seq<Response.Server>, cryptKey: seq<byte>, serverChallenge: seq<byte>,
                           before: seq<byte>, sent: seq<byte>, status: Status)
    requires 0 < |request.challenge| < 256 && game.secretKey != []
  {
    var payload := Payload(game, request, ip, servers);
    var clear := if payload.Some? then payload.value else Begun(game, request, ip, servers);
    && status == (if payload.Some? then Served else Thrown)
    && sent == before + Wire(game, request, clear, cryptKey, serverChallenge)
    && (payload.Some? && before == [] && ListFollows(game, request.options)
        && Response.AllClean(game, servers, request.fieldList) ==>
          && Owed(game, request, ip, servers).Some?
          && (ClientDecode(sent, request.challenge, game.secretKey) == Owed(game, request, ip, servers)
              <==> Readable(request, servers)))
  }

  /** How many servers are asked for: 500, or what the client asked for if that is less. */
  function Limit(request: Request.Request): (limit: nat)
    ensures request.limitResultCount.None? ==> limit == 500
    ensures request.limitResultCount.Some? ==>
      && limit <= 500 && limit <= request.limitResultCount.value
      && (limit == 500 || limit == request.limitResultCount.value)
  {
    Min(if request.limitResultCount.Some? then request.limitResultCount.value else RESULT_LIMIT, RESULT_LIMIT)
  }

  /** Cipher state and transcript once `clear` was sent, in any number of pieces, from `start`. */
  function After(start: Sapphire.State, clear: seq<byte>, before: seq<byte>): (Sapphire.State, seq<byte>) {
    var (last, encrypted) := Sapphire.EncryptAll(start, clear);
    (last, before + encrypted)
  }

  lemma NothingSent(start: Sapphire.State, before: seq<byte>)
    ensures After(start, [], before) == (start, before)
  {
    assert before + [] == before;
  }

  lemma ChallengeLength(bytes: seq<byte>)
    requires Request.Parse(bytes).Ok?
    ensures |Request.Parse(bytes).value.challenge| == Request.CHALLENGE_LENGTH
  {
    hide Request.TakeString, Request.TakeUInt32, Request.TakeFieldList, Request.TakeWhen;
  }

  /** What has been sent since the connection was fresh, when the clear text after the preamble is `clear`. */
  lemma SentIs(game: Response.Game, request: Request.Request, clear: seq<byte>, cryptKey: seq<byte>,
               serverChallenge: seq<byte>, state: Sapphire.State, sentBefore: seq<byte>, sent: seq<byte>)
    requires 0 < |request.challenge| < 256 && game.secretKey != []
    requires var start := Sapphire.Keyed(SessionKey(request.challenge, game.secretKey, serverChallenge));
      (state, sent) == After(start, clear, sentBefore + Preamble(game.backend, cryptKey, serverChallenge))
    ensures sent == sentBefore + Wire(game, request, clear, cryptKey, serverChallenge)
    ensures sentBefore == [] ==> sent == Wire(game, request, clear, cryptKey, serverChallenge)
  {
    hide Sapphire.EncryptAll, Sapphire.Keyed, SessionKey, Preamble;
    var start := Sapphire.Keyed(SessionKey(request.challenge, game.secretKey, serverChallenge));
    var preamble := Preamble(game.backend, cryptKey, serverChallenge);
    var encrypted := Sapphire.EncryptAll(start, clear).1;
    assert sentBefore + preamble + encrypted == sentBefore + (preamble + encrypted);
    assert [] + (preamble + encrypted) == preamble + encrypted;
  }

  /** What is sent of a response that breaks off: the header and the records before the one that does not convert. */
  function Begun(game: Response.Game, request: Request.Request, ip: Response.Ip,
                 servers: seq<Response.Server>): seq<byte>
  {
    Response.Header(game, request.fieldList, NoList(request.options), ip)
    + Response.Records(game, servers, request.fieldList)
  }

  lemma PayloadIs(game: Response.Game, request: Request.Request, ip: Response.Ip, servers: seq<Response.Server>)
    requires ListFollows(game, request.options)
    ensures Payload(game, request, ip, servers)
         == if Response.Converting(game, servers, request.fieldList) == |servers|
            then Some(Begun(game, request, ip, servers) + Response.TERMINATOR) else None
  {
    hide Response.Header, Response.ListBytes, Response.Records, Response.Converting, ListFollows;
    Response.ListBytesAre(game, servers, request.fieldList);
    var header := Response.Header(game, request.fieldList, NoList(request.options), ip);
    var records := Response.Records(game, servers, request.fieldList);
    assert header + (records + Response.TERMINATOR) == (header + records) + Response.TERMINATOR;
  }

  lemma RecordsStep(game: Response.Game, servers: seq<Response.Server>, fields: seq<Text>, clear: seq<byte>)
    requires servers != []
    ensures var first := Response.Record(game, servers[0], fields);
      if first.None? then
        Response.Records(game, servers, fields) == [] && Response.Converting(game, servers, fields) == 0
      else
        && clear + Response.Records(game, servers, fields)
           == (clear + first.value) + Response.Records(game, servers[1..], fields)
        && Response.Converting(game, servers, fields) == 1 + Response.Converting(game, servers[1..], fields)
  {
    hide Response.Record;
  }

  lemma RecordsEnd(game: Response.Game, fields: seq<Text>)
    ensures Response.Records(game, [], fields) == [] && Response.Converting(game, [], fields) == 0
  {
  }

  /** The in-place key mixing of the server. */
  method MixKey(clientChallenge: seq<byte>, secretKey: seq<byte>, serverChallenge: seq<byte>) returns (key: seq<byte>)
    requires clientChallenge != [] && secretKey != []
    ensures key == SessionKey(clientChallenge, secretKey, serverChallenge)
  {
    hide MixStep, Xor;
    key := clientChallenge;
    for i := 0 to |serverChallenge|
      invariant |key| == |clientChallenge|
      invariant key == Mixed(clientChallenge, secretKey, serverChallenge, i)
    {
      MixStepIs(key, secretKey, serverChallenge[i], i);
      var target := (i * secretKey[i % |secretKey|]) % |key|;
      key := key[target := Xor(key[target], Xor(key[i % |key|], serverChallenge[i]))];
    }
  }

  lemma MixStepIs(key: seq<byte>, secretKey: seq<byte>, challenge: byte, i: nat)
    requires key != [] && secretKey != []
    ensures var target := (i * secretKey[i % |secretKey|]) % |key|;
      MixStep(key, secretKey, challenge, i) == key[target := Xor(key[target], Xor(key[i % |key|], challenge))]
  {
    hide Xor;
  }
}

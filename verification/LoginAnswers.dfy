/** The replies of the login server as the texts that are sent, and known answers of what goes into them. */
module LoginAnswers {
  import opened Bytes
  import opened KeyValues
  import opened Login
  import opened Parsing
  import opened Players
  import opened Tokens
  import Md5
  import Md5Answers
  import Passwords

  // ---- replies as texts ----

  /** A key between backslashes, its value, and the rest of the text. */
  function Entry(name: string, value: Text, later: Text): Text {
    KeyFor(Ascii(name)) + (value + later)
  }

  const END: Text := KeyFor(Ascii("final"))

  /** A pair of tokens is an entry, with what follows it behind a backslash. */
  lemma EntryAt(tokens: seq<Text>, i: nat, name: string)
    requires i + 2 < |tokens| && tokens[i] == Ascii(name)
    ensures Join([[]] + tokens[i..]) == Entry(name, tokens[i + 1], Join([[]] + tokens[i + 2..]))
  {
    hide Join, Ascii;
    var rest := tokens[i + 2..];
    assert [[]] + tokens[i..] == [[]] + ([tokens[i]] + ([tokens[i + 1]] + rest));
    JoinFirst([], [tokens[i]] + ([tokens[i + 1]] + rest));
    JoinFirst(tokens[i], [tokens[i + 1]] + rest);
    JoinFirst(tokens[i + 1], rest);
    JoinFirst([], rest);
    var later := Join(rest);
    assert [BACKSLASH] + (tokens[i] + [BACKSLASH] + (tokens[i + 1] + [BACKSLASH] + later))
        == KeyFor(tokens[i]) + (tokens[i + 1] + ([] + [BACKSLASH] + later));
  }

  lemma EndAt(tokens: seq<Text>, i: nat)
    requires i <= |tokens| && tokens[i..] == FINAL
    ensures Join([[]] + tokens[i..]) == END
  {
    hide Ascii;
    assert ([[]] + FINAL)[1..] == FINAL && FINAL[1..] == [[]];
  }

  /** The greeting of a connection. */
  lemma GreetingText(s: Session)
    ensures ChallengeReply(s)
         == Entry("lc", Ascii("1"), Entry("challenge", s.serverChallenge, Entry("id", Ascii("1"), END)))
  {
    hide Join, Ascii, Entry, END;
    var tokens := GreetingTokens(s);
    assert [[]] + tokens[1..] == tokens;
    EntryAt(tokens, 1, "lc");
    EntryAt(tokens, 3, "challenge");
    EntryAt(tokens, 5, "id");
    EndAt(tokens, 7);
  }

  /** An error, which may be fatal. */
  lemma ErrorText(requestId: uint32, code: nat, message: Text, fatal: bool)
    ensures Error(requestId, code, message, fatal)
         == Entry("error", [], Entry("err", Decimal(code), Entry("errmsg", message,
              if fatal then Entry("fatal", [], Entry("id", Decimal(requestId), END))
              else Entry("id", Decimal(requestId), END))))
  {
    hide Join, Ascii, Entry, END, Decimal;
    var tokens := ErrorTokens(requestId, code, message, fatal);
    assert [[]] + tokens[1..] == tokens;
    EntryAt(tokens, 1, "error");
    EntryAt(tokens, 3, "err");
    EntryAt(tokens, 5, "errmsg");
    if fatal {
      EntryAt(tokens, 7, "fatal");
      EntryAt(tokens, 9, "id");
      EndAt(tokens, 11);
    } else {
      EntryAt(tokens, 7, "id");
      EndAt(tokens, 9);
    }
  }

  /** The reply to a successful login; the proof is followed by an empty token. */
  lemma LoginText(player: Player, session: bv16, ticket: Text, proof: Text)
    ensures LoginReply(player, session, ticket, proof)
         == Entry("lc", Ascii("2"), Entry("sesskey", Decimal(session as int), Entry("userid", Decimal(player.id),
            Entry("profileid", Decimal(player.id), Entry("uniquenick", player.name, Entry("lt", ticket,
            Entry("proof", proof, [BACKSLASH] + Entry("id", Ascii("1"), END))))))))
  {
    hide Join, Ascii, Entry, END, Decimal;
    var tokens := LoginTokens(player, session, ticket, proof);
    assert [[]] + tokens[1..] == tokens;
    EntryAt(tokens, 1, "lc");
    EntryAt(tokens, 3, "sesskey");
    EntryAt(tokens, 5, "userid");
    EntryAt(tokens, 7, "profileid");
    EntryAt(tokens, 9, "uniquenick");
    EntryAt(tokens, 11, "lt");
    EntryAt(tokens, 13, "proof");
    assert tokens[15..] == [[]] + tokens[16..];
    JoinFirst([], [[]] + tokens[16..]);
    assert [] + [BACKSLASH] + Join([[]] + tokens[16..]) == [BACKSLASH] + Join([[]] + tokens[16..]);
    EntryAt(tokens, 16, "id");
    EndAt(tokens, 18);
  }

  /** The reply to a registration. */
  lemma CreatedText(id: nat)
    ensures CreatedReply(id)
         == Entry("nur", [], Entry("userid", Decimal(id), Entry("profileid", Decimal(id),
            Entry("id", Ascii("1"), END))))
  {
    hide Join, Ascii, Entry, END, Decimal;
    var tokens :=
      [[], Ascii("nur"), [], Ascii("userid"), Decimal(id), Ascii("profileid"), Decimal(id), Ascii("id"), Ascii("1")]
      + FINAL;
    assert [[]] + tokens[1..] == tokens;
    EntryAt(tokens, 1, "nur");
    EntryAt(tokens, 3, "userid");
    EntryAt(tokens, 5, "profileid");
    EntryAt(tokens, 7, "id");
    EndAt(tokens, 9);
  }

  /** The thirty-first of May 2014, one byte each for day and month and two for the year. */
  lemma BirthdayAnswer()
    ensures Decimal(BIRTHDAY) == Ascii("520423390")
  {
    assert BIRTHDAY == 520423390;
    assert Decimal(5) == [0x35];
    hide Decimal;
    DecimalNext(5, 2);
    DecimalNext(52, 0);
    DecimalNext(520, 4);
    DecimalNext(5204, 2);
    DecimalNext(52042, 3);
    DecimalNext(520423, 3);
    DecimalNext(5204233, 9);
    DecimalNext(52042339, 0);
  }

  lemma DecimalNext(n: nat, d: nat)
    requires n > 0 && d < 10
    ensures Decimal(10 * n + d) == Decimal(n) + [0x30 + d]
  {
  }

  /** The profile, in three parts. */
  lemma ProfileText(requestId: uint32, player: Player, ticket: Plain)
    ensures Join(ProfileTokens(requestId, player, ticket))
         == Entry("pi", [], Entry("profileid", Decimal(player.id), Entry("nick", player.name,
            Entry("userid", Decimal(player.id), Entry("email", player.email,
            ProfileNames(player, ticket, Decimal(requestId)))))))
  {
    hide Join, Ascii, Entry, Decimal, ProfileNames, BIRTHDAY;
    var tokens := ProfileTokens(requestId, player, ticket);
    assert [[]] + tokens[1..] == tokens;
    EntryAt(tokens, 1, "pi");
    EntryAt(tokens, 3, "profileid");
    EntryAt(tokens, 5, "nick");
    EntryAt(tokens, 7, "userid");
    EntryAt(tokens, 9, "email");
    ProfileNamesAt(requestId, player, ticket);
  }

  function ProfileNames(player: Player, ticket: Plain, requestId: Text): Text {
    Entry("sig", ticket, Entry("uniquenick", player.name, Entry("pid", Ascii("0"), Entry("firstname", [],
      Entry("lastname", [], ProfilePlace(player, requestId))))))
  }

  function ProfilePlace(player: Player, requestId: Text): Text {
    Entry("countrycode", player.country, Entry("birthday", Ascii("520423390"), Entry("lon", Ascii("0.000000"),
      Entry("lat", Ascii("0.000000"), Entry("loc", [], Entry("id", requestId, END))))))
  }

  lemma ProfileNamesAt(requestId: uint32, player: Player, ticket: Plain)
    ensures Join([[]] + ProfileTokens(requestId, player, ticket)[11..])
         == ProfileNames(player, ticket, Decimal(requestId))
  {
    hide Join, Ascii, Entry, Decimal, NameTokens, ProfileNames, BIRTHDAY;
    var tokens := ProfileTokens(requestId, player, ticket);
    assert |NameTokens(player, ticket)| == 10 by { TenTokens(player, ticket); }
    assert tokens[11..] == NameTokens(player, ticket) + tokens[21..];
    ProfilePlaceAt(requestId, player, ticket);
    NamesAre(player, ticket, tokens[21..], Decimal(requestId));
  }

  lemma TenTokens(player: Player, ticket: Plain)
    ensures |NameTokens(player, ticket)| == 10
  {
  }

  lemma NamesAre(player: Player, ticket: Plain, rest: seq<Text>, requestId: Text)
    requires rest != [] && Join([[]] + rest) == ProfilePlace(player, requestId)
    ensures Join([[]] + (NameTokens(player, ticket) + rest)) == ProfileNames(player, ticket, requestId)
  {
    hide Join, Ascii, Entry, ProfilePlace;
    var tokens := NameTokens(player, ticket) + rest;
    assert tokens[0..] == tokens && tokens[10..] == rest;
    EntryAt(tokens, 0, "sig");
    EntryAt(tokens, 2, "uniquenick");
    EntryAt(tokens, 4, "pid");
    EntryAt(tokens, 6, "firstname");
    EntryAt(tokens, 8, "lastname");
  }

  lemma ProfilePlaceAt(requestId: uint32, player: Player, ticket: Plain)
    ensures Join([[]] + ProfileTokens(requestId, player, ticket)[21..]) == ProfilePlace(player, Decimal(requestId))
  {
    hide Join, Ascii, Entry, END, Decimal, BIRTHDAY;
    var tokens := ProfileTokens(requestId, player, ticket);
    BirthdayAnswer();
    EntryAt(tokens, 21, "countrycode");
    EntryAt(tokens, 23, "birthday");
    EntryAt(tokens, 25, "lon");
    EntryAt(tokens, 27, "lat");
    EntryAt(tokens, 29, "loc");
    EntryAt(tokens, 31, "id");
    EndAt(tokens, 33);
  }

  // ---- what goes into the replies ----

  lemma CrcNext(text: Text, n: nat, c: byte, w: bv16, before: bv16, after: bv16)
    requires n < |text| && text[n] == c && c as bv16 == w
    requires Crc(text[..n]) == before && CrcBits(before ^ w, 8) == after
    ensures Crc(text[..n + 1]) == after
  {
    hide CrcBits;
    assert text[..n + 1][..n] == text[..n];
  }

  const NINE: Text := [0x31, 0x32, 0x33, 0x34, 0x35, 0x36, 0x37, 0x38, 0x39]

  /** The check value of the catalogue of CRC algorithms for CRC-16/ARC: the checksum of "123456789". */
  lemma CrcAnswer()
    ensures Crc(NINE) == 0xBB3D
  {
    hide CrcBits, Crc;
    CrcSteps();
    CrcMiddle();
    CrcNext(NINE, 6, 0x37, 0x0037, 0x29E4, 0x9D68);
    CrcNext(NINE, 7, 0x38, 0x0038, 0x9D68, 0x3C9D);
    CrcNext(NINE, 8, 0x39, 0x0039, 0x3C9D, 0xBB3D);
    assert NINE[..9] == NINE;
  }

  lemma CrcMiddle()
    ensures Crc(NINE[..6]) == 0x29E4
  {
    hide CrcBits, Crc;
    CrcSteps();
    CrcStart();
    CrcNext(NINE, 3, 0x34, 0x0034, 0xBA04, 0x14BA);
    CrcNext(NINE, 4, 0x35, 0x0035, 0x14BA, 0xA455);
    CrcNext(NINE, 5, 0x36, 0x0036, 0xA455, 0x29E4);
  }

  lemma CrcStart()
    ensures Crc(NINE[..3]) == 0xBA04
  {
    hide CrcBits;
    CrcSteps();
    assert Crc(NINE[..0]) == 0;
    hide Crc;
    CrcNext(NINE, 0, 0x31, 0x0031, 0x0000, 0xD4C1);
    CrcNext(NINE, 1, 0x32, 0x0032, 0xD4C1, 0x4594);
    CrcNext(NINE, 2, 0x33, 0x0033, 0x4594, 0xBA04);
  }

  /** One byte each. */
  lemma CrcSteps()
    ensures CrcBits(0x0000 ^ 0x0031, 8) == 0xD4C1
    ensures CrcBits(0xD4C1 ^ 0x0032, 8) == 0x4594
    ensures CrcBits(0x4594 ^ 0x0033, 8) == 0xBA04
    ensures CrcBits(0xBA04 ^ 0x0034, 8) == 0x14BA
    ensures CrcBits(0x14BA ^ 0x0035, 8) == 0xA455
    ensures CrcBits(0xA455 ^ 0x0036, 8) == 0x29E4
    ensures CrcBits(0x29E4 ^ 0x0037, 8) == 0x9D68
    ensures CrcBits(0x9D68 ^ 0x0038, 8) == 0x3C9D
    ensures CrcBits(0x3C9D ^ 0x0039, 8) == 0xBB3D
  {
  }

  /** The digest of a text, on the shortest test message that is not empty. */
  lemma Md5TextAnswer()
    ensures Md5Text([0x61, 0x62, 0x63]) == Ascii("900150983cd24fb0d6963f7d28e17f72")
  {
    hide Md5.Hex, Ascii;
    Md5Answers.AbcAnswer();
    var text: Text := [0x61, 0x62, 0x63];
    assert seq(3, i requires 0 <= i < 3 => text[i] as bv8) == Md5Answers.ABC_TEXT;
  }

  /** The order of what is digested: password, blanks, name, both challenges, and the password again. */
  lemma ChallengeAnswer()
    ensures GenerateChallenge(Ascii("bob"), Ascii("pw"), Ascii("mine"), Ascii("yours"))
         == Md5Text(Ascii("pw") + seq(48, _ => 0x20) + Ascii("bobmineyourspw"))
  {
    hide Md5Text, Ascii;
    assert "bob" + "mine" + "yours" + "pw" == "bobmineyourspw";
    AsciiConcat("bob", "mine");
    AsciiConcat("bob" + "mine", "yours");
    AsciiConcat("bob" + "mine" + "yours", "pw");
    var start := Ascii("pw") + seq(48, _ => 0x20);
    assert start + Ascii("bob") + Ascii("mine") + Ascii("yours") + Ascii("pw")
        == start + (Ascii("bob") + Ascii("mine") + Ascii("yours") + Ascii("pw"));
  }

  lemma AsciiConcat(s: string, t: string)
    ensures Ascii(s + t) == Ascii(s) + Ascii(t)
  {
  }

  // ---- which request gets which reply ----

  /** What a client gets that is refused for good. */
  function Refusal(code: nat, message: Text, requestId: uint32): Text {
    Entry("error", [], Entry("err", Decimal(code), Entry("errmsg", message,
      Entry("fatal", [], Entry("id", Decimal(requestId), END)))))
  }

  lemma RefusalIs(code: nat, message: Text, requestId: uint32)
    ensures Error(requestId, code, message, true) == Refusal(code, message, requestId)
  {
    hide Entry, Error, END;
    ErrorText(requestId, code, message, true);
  }

  /** The replies to a login, case by case. */
  lemma LoginReplies(t: Table, s: Session, packet: Text)
    ensures var reply, credentials := OnLogin(t, s, packet).reply, ReadCredentials(packet);
      && (s.phase != Authenticating ==> reply == [])
      && (s.phase == Authenticating && credentials.None? ==> reply == Refusal(0, Ascii("Invalid Query!"), 1))
      && (s.phase == Authenticating && credentials.Some? ==>
            var name, row := credentials.value.name, FindRow(t.rows, credentials.value.name);
            && (row.None? ==> reply == Refusal(265, Ascii("Username [") + name + Ascii("] doesn't exist!"), 1))
            && (row.Some? && !LogsIn(t, s, packet)
                ==> reply == Refusal(260, Ascii("The password provided is incorrect."), 1))
            && (LogsIn(t, s, packet) ==> reply == LoginReply(row.value, Crc(name), s.ticket,
                  GenerateChallenge(name, row.value.password, s.serverChallenge, credentials.value.challenge))))
  {
    hide Error, Refusal, Decimal, Ascii, ReadCredentials, FindRow, Responds, Crc, GenerateChallenge, LoginReply;
    RefusalIs(0, Ascii("Invalid Query!"), 1);
    RefusalIs(260, Ascii("The password provided is incorrect."), 1);
    if ReadCredentials(packet).Some? {
      RefusalIs(265, Ascii("Username [") + ReadCredentials(packet).value.name + Ascii("] doesn't exist!"), 1);
    }
  }

  /** The replies to a registration, case by case. */
  lemma NewUserReplies(t: Table, s: Session, packet: Text)
    ensures var reply, registration := OnNewUser(t, s, packet).reply, ReadRegistration(packet);
      if s.phase != Authenticating || registration.None? then reply == Refusal(0, Ascii("Invalid Query!"), 1)
      else if FindRow(t.rows, registration.value.nick).Some?
      then reply == Refusal(516, Ascii("This account name is already in use!"), 1)
      else
        var password := Passwords.PassDecode(registration.value.passwordEnc);
        && (password.None? ==> reply == [])
        && (password.Some? && |password.value| < 3
            ==> reply == Refusal(0, Ascii("The password is too short, must be 3 characters at least!"), 1))
        && (password.Some? && 3 <= |password.value| <= 30 ==> reply == CreatedReply(t.nextId))
        && (password.Some? && |password.value| > 30
            ==> reply == Refusal(0, Ascii("The password is too long, must be 30 characters at most!"), 1))
  {
    hide Error, Refusal, Decimal, Ascii, ReadRegistration, FindRow, Passwords.PassDecode, CreatedReply, NewPlayer,
      Inserted;
    RefusalIs(0, Ascii("Invalid Query!"), 1);
    RefusalIs(516, Ascii("This account name is already in use!"), 1);
    RefusalIs(0, Ascii("The password is too short, must be 3 characters at least!"), 1);
    RefusalIs(0, Ascii("The password is too long, must be 30 characters at most!"), 1);
  }

  /** The replies to the two requests about a profile. */
  lemma ProfileReplies(t: Table, s: Session, packet: Text)
    ensures var reply, id := OnGetProfile(t, s, packet).reply, NumberForKey(packet, KeyFor(Ascii("id")));
      && (id.None? ==> reply == Refusal(0, Ascii("Invalid Query!"), 0))
      && (id.Some? && s.phase != Authenticated ==> reply == Refusal(0, Ascii("Invalid Query!"), id.value))
    ensures OnUpdateProfile(t, s, packet).reply
         == if s.phase != Authenticated then Refusal(0, Ascii("Invalid Query!"), 4294967295) else []
  {
    hide Error, Refusal, Decimal, Ascii, NumberForKey, Value, Join, ProfileTokens, UpperText, Updated;
    RefusalIs(0, Ascii("Invalid Query!"), 0);
    RefusalIs(0, Ascii("Invalid Query!"), 4294967295);
    if NumberForKey(packet, KeyFor(Ascii("id"))).Some? {
      RefusalIs(0, Ascii("Invalid Query!"), NumberForKey(packet, KeyFor(Ascii("id"))).value);
    }
  }

  lemma Prefixes()
    ensures KeyFor(Ascii("login")) == LOGIN && KeyFor(Ascii("newuser")) == NEWUSER
    ensures KeyFor(Ascii("getprofile")) == GETPROFILE && KeyFor(Ascii("updatepro")) == UPDATEPRO
    ensures KeyFor(Ascii("logout")) == LOGOUT
  {
  }

  /** How a request begins decides who handles it; what begins otherwise is refused, but not for good. */
  lemma Dispatch(t: Table, s: Session, packet: Text)
    ensures KeyFor(Ascii("login")) <= packet ==> OnRequest(t, s, packet) == OnLogin(t, s, packet)
    ensures KeyFor(Ascii("newuser")) <= packet ==> OnRequest(t, s, packet) == OnNewUser(t, s, packet)
    ensures KeyFor(Ascii("getprofile")) <= packet ==> OnRequest(t, s, packet) == OnGetProfile(t, s, packet)
    ensures KeyFor(Ascii("updatepro")) <= packet ==> OnRequest(t, s, packet) == OnUpdateProfile(t, s, packet)
    ensures KeyFor(Ascii("logout")) <= packet ==> OnRequest(t, s, packet) == Outcome(t, None, [])
    ensures !(KeyFor(Ascii("login")) <= packet) && !(KeyFor(Ascii("newuser")) <= packet)
         && !(KeyFor(Ascii("getprofile")) <= packet) && !(KeyFor(Ascii("updatepro")) <= packet)
         && !(KeyFor(Ascii("logout")) <= packet)
         ==> OnRequest(t, s, packet) == Outcome(t, Some(s),
               Entry("error", [], Entry("err", Decimal(0), Entry("errmsg", Ascii("Invalid Query!"),
                 Entry("id", Decimal(0), END)))))
  {
    hide OnLogin, OnNewUser, OnGetProfile, OnUpdateProfile, Entry, END, Error, KeyFor, Decimal;
    Prefixes();
    ErrorText(0, 0, Ascii("Invalid Query!"), false);
    assert LOGIN[1] == 0x6C && NEWUSER[1] == 0x6E && GETPROFILE[1] == 0x67 && UPDATEPRO[1] == 0x75;
    assert LOGOUT[1] == 0x6C && LOGIN[4] == 0x69 && LOGOUT[4] == 0x6F;
  }

  // ---- what a login names ----

  lemma TokenMissing(tokens: seq<Text>, name: Text)
    requires forall i :: 0 <= i < |tokens| ==> tokens[i] != name
    ensures TokenValue(tokens, name) == None
  {
    hide FindToken;
  }

  const BOB: Plain := [0x62, 0x6F, 0x62]
  const ALICE: Plain := [0x61, 0x6C, 0x69, 0x63, 0x65]
  const C: Plain := [0x63]
  const R: Plain := [0x72]

  function NamedLogin(named: seq<Text>): seq<Text> {
    [[], Ascii("login"), [], Ascii("challenge"), C, Ascii("response"), R] + named + FINAL
  }

  lemma KeysAnswer()
    ensures AllPlain([Ascii("login"), Ascii("challenge"), Ascii("response"), Ascii("uniquenick"), Ascii("user")])
    ensures AllPlain(FINAL) && |Ascii("login")| == 5 && |Ascii("challenge")| == 9 && |Ascii("response")| == 8
    ensures |Ascii("uniquenick")| == 10 && |Ascii("user")| == 4 && Ascii("user")[3] == 0x72 && |Ascii("final")| == 5
  {
    AsciiPlain("login");
    AsciiPlain("challenge");
    AsciiPlain("response");
    AsciiPlain("uniquenick");
    AsciiPlain("user");
    AsciiPlain("final");
  }

  /** The name is the one under "user" only where there is none under "uniquenick". */
  lemma NameAnswers()
    ensures ReadCredentials(Join(NamedLogin([Ascii("user"), BOB]))) == Some(Credentials(BOB, C, R))
    ensures ReadCredentials(Join(NamedLogin([Ascii("user"), BOB, Ascii("uniquenick"), ALICE])))
         == Some(Credentials(ALICE, C, R))
  {
    hide Join, Value, Ascii, TokenValue;
    UserAnswer();
    BothAnswer();
  }

  lemma UserAnswer()
    ensures var packet := Join(NamedLogin([Ascii("user"), BOB]));
      && Value(packet, Ascii("challenge")) == Some(C) && Value(packet, Ascii("response")) == Some(R)
      && Value(packet, Ascii("user")) == Some(BOB) && Value(packet, Ascii("uniquenick")) == None
  {
    hide Join, Value, Ascii, TokenValue;
    var tokens := NamedLogin([Ascii("user"), BOB]);
    KeysAnswer();
    TokenIs(tokens, Ascii("challenge"), 3);
    TokenIs(tokens, Ascii("response"), 5);
    TokenIs(tokens, Ascii("user"), 7);
    TokenMissing(tokens, Ascii("uniquenick"));
    ReplyValue(tokens, Ascii("challenge"));
    ReplyValue(tokens, Ascii("response"));
    ReplyValue(tokens, Ascii("user"));
    ReplyValue(tokens, Ascii("uniquenick"));
  }

  lemma BothAnswer()
    ensures var packet := Join(NamedLogin([Ascii("user"), BOB, Ascii("uniquenick"), ALICE]));
      && Value(packet, Ascii("challenge")) == Some(C) && Value(packet, Ascii("response")) == Some(R)
      && Value(packet, Ascii("user")) == Some(BOB) && Value(packet, Ascii("uniquenick")) == Some(ALICE)
  {
    hide Join, Value, Ascii, TokenValue;
    var tokens := NamedLogin([Ascii("user"), BOB, Ascii("uniquenick"), ALICE]);
    KeysAnswer();
    TokenIs(tokens, Ascii("challenge"), 3);
    TokenIs(tokens, Ascii("response"), 5);
    TokenIs(tokens, Ascii("user"), 7);
    TokenIs(tokens, Ascii("uniquenick"), 9);
    ReplyValue(tokens, Ascii("challenge"));
    ReplyValue(tokens, Ascii("response"));
    ReplyValue(tokens, Ascii("user"));
    ReplyValue(tokens, Ascii("uniquenick"));
  }

  // ---- what becomes of a player ----

  /** The first two players of a table, and the country that nobody has chosen. */
  lemma FirstPlayers(first: Player, second: Player)
    ensures var t := Inserted(Inserted(EMPTY, first), second);
      t.rows == [first.(id := 2900001), second.(id := 2900002)] && t.nextId == 2900003
  {
  }

  lemma NewPlayerAnswer(r: Registration, password: Text)
    ensures NewPlayer(r, password).country == Ascii("??") && NewPlayer(r, password).password == Md5Text(password)
    ensures NewPlayer(r, password).name == r.nick && NewPlayer(r, password).email == r.email
  {
    hide Md5Text;
  }

  /** Letters between a and z are raised, their neighbours and all others are not. */
  lemma UpperAnswer()
    ensures UpperText([0x61, 0x7A, 0x60, 0x7B, 0x41, 0x64, 0xE4]) == [0x41, 0x5A, 0x60, 0x7B, 0x41, 0x44, 0xE4]
  {
  }

  // ---- numbers ----

  /** A request number is any that fits into 32 bits. */
  lemma NumberAnswer(n: nat)
    ensures ParseUInt32(Decimal(n)) == if n <= 4294967295 then Some(n) else None
    ensures ParseUInt32([]) == None && ParseUInt32(Ascii("12a")) == None && ParseUInt32(Ascii("-1")) == None
  {
    DecimalRoundTrip(n, 4294967295);
    assert Ascii("12a")[2] == 0x61 && Ascii("-1")[0] == 0x2D;
    hide Decimal;
  }
}

/** Requests as clients print them, and runs that reach the states in which a reply misleads. */
module LoginRuns {
  import opened Bytes
  import opened KeyValues
  import opened Login
  import opened Parsing
  import opened Players
  import opened Tokens
  import Passwords

  // ---- the requests of a client ----

  const UNIQUENICK: Plain := [0x75, 0x6E, 0x69, 0x71, 0x75, 0x65, 0x6E, 0x69, 0x63, 0x6B]
  const RESPONSE: Plain := [0x72, 0x65, 0x73, 0x70, 0x6F, 0x6E, 0x73, 0x65]
  const PASSWORDENC: Plain := [0x70, 0x61, 0x73, 0x73, 0x77, 0x6F, 0x72, 0x64, 0x65, 0x6E, 0x63]

  lemma RequestKeys()
    ensures UNIQUENICK == Ascii("uniquenick") && CHALLENGE == Ascii("challenge")
    ensures RESPONSE == Ascii("response") && PASSWORDENC == Ascii("passwordenc")
  {
  }

  function NewUserTokens(email: Plain, nick: Plain, passwordEnc: Plain): seq<Text> {
    [[], Ascii("newuser"), [], EMAIL, email, NICK, nick, PASSWORDENC, passwordEnc] + FINAL
  }

  function LoginRequestTokens(challenge: Plain, name: Plain, response: Plain): seq<Text> {
    [[], Ascii("login"), [], CHALLENGE, challenge, UNIQUENICK, name, RESPONSE, response] + FINAL
  }

  function UpdateTokens(country: Plain): seq<Text> {
    [[], Ascii("updatepro"), [], COUNTRYCODE, country] + FINAL
  }

  /** A request text begins with its first key between backslashes. */
  lemma JoinStart(name: Text, rest: seq<Text>)
    requires rest != []
    ensures KeyFor(name) <= Join([[], name] + rest)
  {
    hide Join;
    JoinFirst(name, rest);
    JoinFirst([], [name] + rest);
    assert [[], name] + rest == [[]] + ([name] + rest);
    assert Join([[], name] + rest) == KeyFor(name) + Join(rest);
  }

  lemma KindOfPacket(packet: Text)
    ensures KeyFor(Ascii("login")) <= packet ==> KindOf(packet) == LoginKind
    ensures KeyFor(Ascii("newuser")) <= packet ==> KindOf(packet) == NewUserKind
    ensures KeyFor(Ascii("updatepro")) <= packet ==> KindOf(packet) == UpdateKind
  {
    assert KeyFor(Ascii("login")) == LOGIN && KeyFor(Ascii("newuser")) == NEWUSER;
    assert KeyFor(Ascii("updatepro")) == UPDATEPRO;
    assert LOGIN[1] == 0x6C && NEWUSER[1] == 0x6E && GETPROFILE[1] == 0x67 && UPDATEPRO[1] == 0x75;
  }

  lemma FinalPlain()
    ensures AllPlain(FINAL)
  {
    hide Ascii;
    AsciiPlain("final");
  }

  /** What is read from a printed registration: the word after the first place at which a key stands. */
  function ReadBack(email: Plain, nick: Plain, passwordEnc: Plain): Registration {
    Registration(
      email,
      if email == NICK then NICK else nick,
      if email == PASSWORDENC then NICK else if nick == PASSWORDENC then PASSWORDENC else passwordEnc)
  }

  /**
   A printed registration is always accepted as one; it is the one that was printed if and only
   if no value stands where a later key is looked for, or what follows there is that key's value.
   */
  lemma NewUserReads(email: Plain, nick: Plain, passwordEnc: Plain)
    ensures var packet := Join(NewUserTokens(email, nick, passwordEnc));
      && KindOf(packet) == NewUserKind
      && ReadRegistration(packet) == Some(ReadBack(email, nick, passwordEnc))
      && (ReadRegistration(packet) == Some(Registration(email, nick, passwordEnc))
          <==>
          ((email == NICK ==> nick == NICK)
           && (email == PASSWORDENC ==> passwordEnc == NICK)
           && (nick == PASSWORDENC && email != PASSWORDENC ==> passwordEnc == PASSWORDENC)))
  {
    hide Join, TokenValue, Value, KindOf;
    var tokens := NewUserTokens(email, nick, passwordEnc);
    FinalPlain();
    AsciiPlain("newuser");
    assert AllPlain(tokens);
    NewUserValues(email, nick, passwordEnc);
    ReplyValue(tokens, EMAIL);
    ReplyValue(tokens, NICK);
    ReplyValue(tokens, PASSWORDENC);
    KeyNames();
    RequestKeys();
    assert tokens == [[], Ascii("newuser")] + tokens[2..];
    JoinStart(Ascii("newuser"), tokens[2..]);
    KindOfPacket(Join(tokens));
  }

  lemma NewUserValues(email: Plain, nick: Plain, passwordEnc: Plain)
    ensures var tokens, read := NewUserTokens(email, nick, passwordEnc), ReadBack(email, nick, passwordEnc);
      && TokenValue(tokens, EMAIL) == Some(read.email) && TokenValue(tokens, NICK) == Some(read.nick)
      && TokenValue(tokens, PASSWORDENC) == Some(read.passwordEnc)
  {
    hide TokenValue;
    var tokens := NewUserTokens(email, nick, passwordEnc);
    KeyNames();
    RequestKeys();
    assert Ascii("newuser")[2] != NICK[2] && |Ascii("newuser")| == 7;
    TokenIs(tokens, EMAIL, 3);
    TokenIs(tokens, NICK, if email == NICK then 4 else 5);
    TokenIs(tokens, PASSWORDENC, if email == PASSWORDENC then 4 else if nick == PASSWORDENC then 6 else 7);
  }

  /** The name and the response that are read from a printed login. */
  function NameRead(challenge: Plain, name: Plain): Plain {
    if challenge == UNIQUENICK then UNIQUENICK else name
  }

  function ResponseRead(challenge: Plain, name: Plain, response: Plain): Plain {
    if challenge == RESPONSE then UNIQUENICK else if name == RESPONSE then RESPONSE else response
  }

  /**
   A printed login is refused if and only if the name read from it is empty; it is the one that was
   printed if and only if besides no value stands where a later key is looked for, or what follows
   there is that key's value.
   */
  lemma LoginReads(challenge: Plain, name: Plain, response: Plain)
    ensures var packet := Join(LoginRequestTokens(challenge, name, response));
      && KindOf(packet) == LoginKind
      && ReadCredentials(packet)
         == (if NameRead(challenge, name) == [] then None
             else Some(Credentials(NameRead(challenge, name), challenge, ResponseRead(challenge, name, response))))
      && (ReadCredentials(packet) == Some(Credentials(name, challenge, response))
          <==>
          (name != []
           && (challenge == UNIQUENICK ==> name == UNIQUENICK)
           && (challenge == RESPONSE ==> response == UNIQUENICK)
           && (name == RESPONSE && challenge != RESPONSE ==> response == RESPONSE)))
  {
    hide Join, TokenValue, Value, KindOf;
    var tokens := LoginRequestTokens(challenge, name, response);
    FinalPlain();
    AsciiPlain("login");
    assert AllPlain(tokens);
    LoginValues(challenge, name, response);
    ReplyValue(tokens, CHALLENGE);
    ReplyValue(tokens, UNIQUENICK);
    ReplyValue(tokens, RESPONSE);
    RequestKeys();
    assert tokens == [[], Ascii("login")] + tokens[2..];
    JoinStart(Ascii("login"), tokens[2..]);
    KindOfPacket(Join(tokens));
  }

  lemma LoginValues(challenge: Plain, name: Plain, response: Plain)
    ensures var tokens := LoginRequestTokens(challenge, name, response);
      && TokenValue(tokens, CHALLENGE) == Some(challenge)
      && TokenValue(tokens, UNIQUENICK) == Some(NameRead(challenge, name))
      && TokenValue(tokens, RESPONSE) == Some(ResponseRead(challenge, name, response))
  {
    hide TokenValue;
    var tokens := LoginRequestTokens(challenge, name, response);
    RequestKeys();
    assert |Ascii("login")| == 5;
    TokenIs(tokens, CHALLENGE, 3);
    TokenIs(tokens, UNIQUENICK, if challenge == UNIQUENICK then 4 else 5);
    TokenIs(tokens, RESPONSE, if challenge == RESPONSE then 4 else if name == RESPONSE then 6 else 7);
  }

  lemma UpdateReads(country: Plain)
    ensures var packet := Join(UpdateTokens(country));
      KindOf(packet) == UpdateKind && Value(packet, Ascii("countrycode")) == Some(country)
  {
    hide Join, TokenValue, Value, KindOf;
    var tokens := UpdateTokens(country);
    FinalPlain();
    AsciiPlain("updatepro");
    assert AllPlain(tokens);
    KeyNames();
    assert |Ascii("updatepro")| == 9;
    TokenIs(tokens, COUNTRYCODE, 3);
    ReplyValue(tokens, COUNTRYCODE);
    assert tokens == [[], Ascii("updatepro")] + tokens[2..];
    JoinStart(Ascii("updatepro"), tokens[2..]);
    KindOfPacket(Join(tokens));
  }

  // ---- two sessions of one player ----

  const EMAIL_ADDRESS: Plain := [0x78]
  const CLIENT_CHALLENGE: Plain := [0x63]

  /** A password of three characters whose encoding keeps the last one. */
  function Password(): (p: seq<byte>)
    ensures |p| == 3 && p[2] != Passwords.KeyByte(2)
  {
    [0x61, 0x61, if Passwords.KeyByte(2) == 0x61 then 0x62 else 0x61]
  }

  predicate Registering(packet: Text, name: Plain) {
    && KindOf(packet) == NewUserKind && ReadRegistration(packet).Some?
    && ReadRegistration(packet).value.nick == name && ReadRegistration(packet).value.email == EMAIL_ADDRESS
    && ReadRegistration(packet).value.passwordEnc == Passwords.PassEncode(Password())
  }

  predicate Answering(packet: Text, name: Plain, challenge: Text) {
    && KindOf(packet) == LoginKind && ReadCredentials(packet).Some?
    && ReadCredentials(packet).value.name == name && ReadCredentials(packet).value.challenge == CLIENT_CHALLENGE
    && ReadCredentials(packet).value.response
       == GenerateChallenge(name, Md5Text(Password()), CLIENT_CHALLENGE, challenge)
  }

  /** Names that both requests carry unharmed. */
  predicate Usable(name: Plain) {
    name != [] && name != PASSWORDENC && name != RESPONSE
  }

  lemma RegistrationPrints(name: Plain) returns (packet: Text)
    requires Usable(name)
    ensures Registering(packet, name)
  {
    hide KindOf, ReadRegistration, NewUserTokens, Passwords.PassEncode, Password, Join;
    var encoded := Passwords.PassEncode(Password());
    Passwords.PassEncodePlain(Password());
    NewUserReads(EMAIL_ADDRESS, name, encoded);
    packet := Join(NewUserTokens(EMAIL_ADDRESS, name, encoded));
  }

  lemma ChallengePlain(name: Text, password: Text, local: Text, remote: Text)
    ensures BACKSLASH !in GenerateChallenge(name, password, local, remote)
    ensures NUL !in GenerateChallenge(name, password, local, remote)
  {
    hide Md5Text;
    Md5TextPlain(password + seq(48, _ => SPACE) + name + local + remote + password);
  }

  lemma AnswerPrints(name: Plain, challenge: Text) returns (packet: Text)
    requires Usable(name)
    ensures Answering(packet, name, challenge)
  {
    hide KindOf, ReadCredentials, LoginRequestTokens, GenerateChallenge, Md5Text, Password, Join;
    var response := GenerateChallenge(name, Md5Text(Password()), CLIENT_CHALLENGE, challenge);
    ChallengePlain(name, Md5Text(Password()), CLIENT_CHALLENGE, challenge);
    LoginReads(CLIENT_CHALLENGE, name, response);
    packet := Join(LoginRequestTokens(CLIENT_CHALLENGE, name, response));
  }

  /** Two connections; the first registers the name, then both log in under it. */
  predicate Story(run: seq<Event>, name: Plain, first: Plain, second: Plain, ticket: Plain) {
    && |run| == 5
    && run[0] == Connect(0, first, ticket) && run[1] == Connect(1, second, ticket)
    && run[2].Request? && run[2].sid == 0 && Registering(run[2].packet, name)
    && run[3].Request? && run[3].sid == 0 && Answering(run[3].packet, name, first)
    && run[4].Request? && run[4].sid == 1 && Answering(run[4].packet, name, second)
  }

  lemma StoryExists(name: Plain, first: Plain, second: Plain, ticket: Plain) returns (run: seq<Event>)
    requires Usable(name)
    ensures Story(run, name, first, second, ticket)
  {
    hide Registering, Answering;
    var registering := RegistrationPrints(name);
    var answering := AnswerPrints(name, first);
    var other := AnswerPrints(name, second);
    run := [Connect(0, first, ticket), Connect(1, second, ticket), Request(0, registering),
            Request(0, answering), Request(1, other)];
  }

  lemma ConnectStep(w: World, sid: nat, challenge: Plain, ticket: Plain)
    requires sid !in w.sessions
    ensures Step(w, Connect(sid, challenge, ticket)) == World(w.table, w.sessions[sid := Greeted(challenge, ticket)])
  {
    hide OnRequest;
  }

  /** Both connections wait for a login, and no name is taken. */
  function BothGreeted(first: Plain, second: Plain, ticket: Plain): World {
    World(EMPTY, map[0 := Greeted(first, ticket), 1 := Greeted(second, ticket)])
  }

  lemma AfterConnecting(run: seq<Event>, first: Plain, second: Plain, ticket: Plain)
    requires |run| >= 2 && run[0] == Connect(0, first, ticket) && run[1] == Connect(1, second, ticket)
    ensures At(run, 2) == BothGreeted(first, second, ticket)
  {
    hide At, Step, Greeted;
    StartsEmpty(run);
    NextState(run, 0);
    NextState(run, 1);
    ConnectStep(START, 0, first, ticket);
    ConnectStep(At(run, 1), 1, second, ticket);
  }

  /** The first registration of a table succeeds. */
  lemma RegistrationEffect(t: Table, s: Session, packet: Text, name: Plain)
    requires t.rows == [] && s.phase == Authenticating && Registering(packet, name)
    ensures Creates(t, s, packet) && PlayerOf(packet).name == name && PlayerOf(packet).email == EMAIL_ADDRESS
    ensures PlayerOf(packet).password == Md5Text(Password()) && PlayerOf(packet).country == UNKNOWN_COUNTRY
    ensures OnRequest(t, s, packet).table == Inserted(t, PlayerOf(packet))
    ensures OnRequest(t, s, packet).session == Some(s.(player := Some(PlayerOf(packet).(id := t.nextId))))
  {
    hide KindOf, OnRequest, OnNewUser, ReadRegistration, Passwords.PassEncode, Passwords.PassDecode,
      Passwords.KeyByte, Password, Md5Text, Inserted;
    Passwords.PassDecodeEncode(Password());
    RequestEffect(t, s, packet);
    NewUserEffect(t, s, packet);
  }

  /** The first connection has created a player and goes on waiting; the other one is as before. */
  predicate HasRegistered(w: World, name: Plain, first: Plain, second: Plain, ticket: Plain) {
    && |w.table.rows| == 1 && w.table.rows[0].name == name && w.table.rows[0].email == EMAIL_ADDRESS
    && w.table.rows[0].password == Md5Text(Password()) && w.table.rows[0].country == UNKNOWN_COUNTRY
    && w.sessions.Keys == {0, 1}
    && w.sessions[0] == Greeted(first, ticket).(player := Some(w.table.rows[0]))
    && w.sessions[1] == Greeted(second, ticket)
  }

  lemma RegistrationStep(ev: Event, name: Plain, first: Plain, second: Plain, ticket: Plain)
    requires ev.Request? && ev.sid == 0 && Registering(ev.packet, name)
    ensures HasRegistered(Step(BothGreeted(first, second, ticket), ev), name, first, second, ticket)
    ensures RegistersWith(BothGreeted(first, second, ticket), ev, name, Password())
  {
    hide KindOf, OnRequest, ReadRegistration, Passwords.PassEncode, Passwords.KeyByte, Password, Creates, Md5Text;
    RegistrationEffect(EMPTY, Greeted(first, ticket), ev.packet, name);
  }

  predicate HasOnly(t: Table, name: Plain) {
    && |t.rows| == 1 && t.rows[0].name == name && t.rows[0].password == Md5Text(Password())
  }

  /** A right answer logs in, and changes nothing else. */
  lemma AnswerStep(w: World, ev: Event, sid: nat, name: Plain)
    requires HasOnly(w.table, name) && sid in w.sessions && w.sessions[sid].phase == Authenticating
    requires ev.Request? && ev.sid == sid && Answering(ev.packet, name, w.sessions[sid].serverChallenge)
    ensures Authenticates(w, ev, sid)
    ensures ReadCredentials(ev.packet).value.name == name
    ensures Step(w, ev) == World(w.table,
              w.sessions[sid := w.sessions[sid].(phase := Authenticated, player := Some(w.table.rows[0]))])
  {
    hide KindOf, OnRequest, OnLogin, ReadCredentials, Password, Md5Text, GenerateChallenge;
    RequestEffect(w.table, w.sessions[sid], ev.packet);
    LoginEffect(w.table, w.sessions[sid], ev.packet);
  }

  /** Both sessions hold the one player. */
  predicate BothIn(w: World, name: Plain) {
    && HasOnly(w.table, name) && w.table.rows[0].email == EMAIL_ADDRESS && w.table.rows[0].country == UNKNOWN_COUNTRY
    && IsAuthenticated(w, 0) && w.sessions[0].player == Some(w.table.rows[0])
    && IsAuthenticated(w, 1) && w.sessions[1].player == Some(w.table.rows[0])
  }

  lemma FirstAnswer(w: World, ev: Event, name: Plain, first: Plain, second: Plain, ticket: Plain)
    requires HasRegistered(w, name, first, second, ticket)
    requires ev.Request? && ev.sid == 0 && Answering(ev.packet, name, first)
    ensures Authenticates(w, ev, 0) && ReadCredentials(ev.packet).value.name == name
    ensures Step(w, ev).table == w.table && 1 in Step(w, ev).sessions && IsAuthenticated(Step(w, ev), 0)
    ensures Step(w, ev).sessions[1] == Greeted(second, ticket)
    ensures Step(w, ev).sessions[0].player == Some(w.table.rows[0])
  {
    hide Step, Answering, Authenticates, ReadCredentials, Greeted, Md5Text, Password;
    GreetedIs(first, ticket);
    AnswerStep(w, ev, 0, name);
  }

  lemma SecondAnswer(w: World, ev: Event, name: Plain, second: Plain, ticket: Plain)
    requires HasOnly(w.table, name)
    requires w.table.rows[0].email == EMAIL_ADDRESS && w.table.rows[0].country == UNKNOWN_COUNTRY
    requires IsAuthenticated(w, 0) && w.sessions[0].player == Some(w.table.rows[0])
    requires 1 in w.sessions && w.sessions[1] == Greeted(second, ticket)
    requires ev.Request? && ev.sid == 1 && Answering(ev.packet, name, second)
    ensures BothIn(Step(w, ev), name)
  {
    hide Step, Answering, Authenticates, ReadCredentials, Greeted, Md5Text, Password;
    GreetedIs(second, ticket);
    AnswerStep(w, ev, 1, name);
  }

  /** The whole story: registered, logged in by right answers, and both sessions authenticated as one player. */
  lemma StoryEnds(run: seq<Event>, name: Plain, first: Plain, second: Plain, ticket: Plain)
    requires Story(run, name, first, second, ticket)
    ensures RegistersWith(At(run, 2), run[2], name, Password())
    ensures HasRegistered(At(run, 3), name, first, second, ticket)
    ensures Authenticates(At(run, 3), run[3], 0) && ReadCredentials(run[3].packet).value.name == name
    ensures BothIn(At(run, 5), name)
  {
    hide At, Step, Registering, Answering, Greeted, Authenticates, BothGreeted, RegistersWith, ReadCredentials, BothIn,
      Md5Text, Password;
    AfterConnecting(run, first, second, ticket);
    NextState(run, 2);
    RegistrationStep(run[2], name, first, second, ticket);
    NextState(run, 3);
    FirstAnswer(At(run, 3), run[3], name, first, second, ticket);
    NextState(run, 4);
    SecondAnswer(At(run, 4), run[4], name, second, ticket);
  }

  lemma GreetedIs(challenge: Plain, ticket: Plain)
    ensures Greeted(challenge, ticket).phase == Authenticating
    ensures Greeted(challenge, ticket).serverChallenge == challenge
    ensures Greeted(challenge, ticket).ticket == ticket
  {
  }

  // ---- what the other sides of the conditions look like ----

  const DE: Plain := [0x44, 0x45]

  lemma CountryChange(w: World, name: Plain, packet: Text)
    requires Agreed(w) && BothIn(w, name)
    requires KindOf(packet) == UpdateKind && Value(packet, Ascii("countrycode")) == Some(DE)
    ensures var after := Step(w, Request(0, packet));
      && FindRow(after.table.rows, name).Some? && FindRow(after.table.rows, name).value.country == DE
      && 1 in after.sessions && after.sessions[1] == w.sessions[1]
      && w.sessions[1].player.value.country == UNKNOWN_COUNTRY
  {
    hide Step, KindOf, Agreed, FindRow, Value, Ascii;
    CountryMayBeStale(w, 0, 1, packet);
    assert UpperText(DE) == DE;
  }

  /** A stale country happens: the row says DE, and the other session of the same player does not. */
  lemma StaleCountryReachable(name: Plain, first: Plain, second: Plain, ticket: Plain)
    returns (run: seq<Event>, packet: Text)
    requires Usable(name)
    ensures |run| == 5 && BothIn(At(run, 5), name)
    ensures var after := Step(At(run, 5), Request(0, packet));
      && FindRow(after.table.rows, name).Some? && FindRow(after.table.rows, name).value.country == DE
      && 1 in after.sessions && after.sessions[1] == At(run, 5).sessions[1]
      && after.sessions[1].player.value.country == UNKNOWN_COUNTRY
  {
    hide At, Step, KindOf, Join, Value, FindRow, Agreed, UpdateTokens, BothIn, Registering, Answering;
    run := StoryExists(name, first, second, ticket);
    StoryEnds(run, name, first, second, ticket);
    packet := Join(UpdateTokens(DE));
    UpdateReads(DE);
    AlwaysAgreed(run, 5);
    CountryChange(At(run, 5), name, packet);
  }

  const TWO: Plain := [0x32]

  function ProfileRequest(): Text {
    Join([[], Ascii("getprofile"), [], Ascii("id"), TWO] + FINAL)
  }

  lemma ProfileRequestReads()
    ensures NumberForKey(ProfileRequest(), KeyFor(Ascii("id"))) == Some(2)
  {
    hide Join, TokenValue;
    var tokens := [[], Ascii("getprofile"), [], Ascii("id"), TWO] + FINAL;
    FinalPlain();
    AsciiPlain("getprofile");
    AsciiPlain("id");
    assert AllPlain(tokens);
    assert |Ascii("getprofile")| == 10 && |Ascii("id")| == 2;
    TokenIs(tokens, Ascii("id"), 3);
    ReplyValue(tokens, Ascii("id"));
    hide ValueForKey;
    TwoParses();
  }

  lemma TwoParses()
    ensures ParseUInt32(TWO) == Some(2)
  {
    assert TWO[..0] == [];
  }

  lemma EmailMisread(run: seq<Event>, n: nat)
    requires n <= |run| && BothIn(At(run, n), EMAIL)
    ensures var w := At(run, n);
      Value(OnGetProfile(w.table, w.sessions[0], ProfileRequest()).reply, EMAIL) != Some(w.table.rows[0].email)
  {
    hide At, Value, FindRow, OnGetProfile, ProfileRequest, NumberForKey, Md5Text, Password;
    ProfileRequestReads();
    ProfileMatchesRow(run, n, 0, ProfileRequest());
    FindsRow(At(run, n).table.rows, 0);
    assert |Ascii("userid")| == 6;
  }

  /** A misread profile happens: the player is named "email", and its client reads another email than the row's. */
  lemma MisreadEmailReachable(first: Plain, second: Plain, ticket: Plain) returns (run: seq<Event>)
    ensures |run| == 5 && BothIn(At(run, 5), EMAIL)
    ensures var w := At(run, 5);
      Value(OnGetProfile(w.table, w.sessions[0], ProfileRequest()).reply, EMAIL) != Some(w.table.rows[0].email)
  {
    hide At, Value, OnGetProfile, ProfileRequest, BothIn, HasRegistered, RegistersWith, Authenticates, Registering,
      Answering, ReadCredentials;
    run := StoryExists(EMAIL, first, second, ticket);
    StoryEnds(run, EMAIL, first, second, ticket);
    EmailMisread(run, 5);
  }

  lemma ProofMisread(w: World, ev: Event)
    requires Authenticates(w, ev, 0) && ReadCredentials(ev.packet).value.name == PROOF
    ensures var credentials := ReadCredentials(ev.packet).value;
      Value(OnLogin(w.table, w.sessions[0], ev.packet).reply, PROOF)
      != Some(GenerateChallenge(PROOF, FindRow(w.table.rows, PROOF).value.password,
                                w.sessions[0].serverChallenge, credentials.challenge))
  {
    hide Value, FindRow, OnLogin, GenerateChallenge, KindOf, ReadCredentials;
    LoginProof(w.table, w.sessions[0], ev.packet);
  }

  /** A misread proof happens: the player is named "proof", and its client does not read the proof it is owed. */
  lemma MisreadProofReachable(first: Plain, second: Plain, ticket: Plain) returns (run: seq<Event>)
    ensures |run| == 5 && Authenticates(At(run, 3), run[3], 0) && ReadCredentials(run[3].packet).value.name == PROOF
    ensures var w, credentials := At(run, 3), ReadCredentials(run[3].packet).value;
      Value(OnLogin(w.table, w.sessions[0], run[3].packet).reply, PROOF)
      != Some(GenerateChallenge(PROOF, FindRow(w.table.rows, PROOF).value.password,
                                w.sessions[0].serverChallenge, credentials.challenge))
  {
    hide At, Value, OnLogin, BothIn, HasRegistered, RegistersWith, Authenticates, Registering, Answering,
      ReadCredentials, GenerateChallenge, FindRow;
    run := StoryExists(PROOF, first, second, ticket);
    StoryEnds(run, PROOF, first, second, ticket);
    ProofMisread(At(run, 3), run[3]);
  }

  /** A taken name happens: the second connection is refused the name that the first one registered. */
  lemma TakenNameReachable(name: Plain, first: Plain, second: Plain, ticket: Plain) returns (run: seq<Event>)
    requires Usable(name)
    ensures |run| == 5 && run[2].Request? && 1 in At(run, 3).sessions
    ensures Value(OnNewUser(At(run, 3).table, At(run, 3).sessions[1], run[2].packet).reply, ERR) == Some(Decimal(516))
  {
    hide At, Value, OnNewUser, KindOf, ReadRegistration, Answering, BothIn, Md5Text, Password, Decimal;
    run := StoryExists(name, first, second, ticket);
    StoryEnds(run, name, first, second, ticket);
    var t := At(run, 3).table;
    assert t.rows[0] in t.rows;
    NewUserVerdict(t, At(run, 3).sessions[1], run[2].packet);
  }
}

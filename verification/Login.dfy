/** Login sessions: many clients at once on one player table. */
module Login {
  import opened Bytes
  import opened KeyValues
  import opened Parsing
  import opened Players
  import opened Tokens
  import Md5
  import Passwords

  // ---- digests ----

  /** The MD5 digest of a text, in hexadecimal digits. */
  function Md5Text(text: Text): Text {
    Ascii(Md5.Hex(seq(|text|, i requires 0 <= i < |text| => text[i] as bv8)))
  }

  const SPACE: byte := 0x20

  function GenerateChallenge(name: Text, password: Text, local: Text, remote: Text): Text {
    Md5Text(password + seq(48, _ => SPACE) + name + local + remote + password)
  }

  /** The session key shown to the client: CRC-16 of its name. */
  function CrcBits(crc: bv16, bits: nat): bv16
    decreases bits
  {
    if bits == 0 then crc
    else CrcBits(if crc & 1 == 1 then (crc >> 1) ^ 0xA001 else crc >> 1, bits - 1)
  }

  function Crc(text: Text): bv16 {
    if text == [] then 0
    else CrcBits(Crc(text[..|text| - 1]) ^ (text[|text| - 1] as bv16), 8)
  }

  // ---- state ----

  datatype Phase = Initializing | Authenticating | Authenticated

  datatype SessionData = Session(phase: Phase, player: Option<Player>, serverChallenge: Plain, ticket: Plain)

  /** An authenticated session has a player. */
  type Session = s: SessionData | s.phase == Authenticated ==> s.player.Some?
    witness Session(Initializing, None, [], [])

  /** After one request: no session is left when an exception or a logout has ended it. */
  datatype Outcome = Outcome(table: Table, session: Option<Session>, reply: Text)

  // ---- requests ----

  const LOGIN: Text := Ascii("\\login\\")
  const NEWUSER: Text := Ascii("\\newuser\\")
  const GETPROFILE: Text := Ascii("\\getprofile\\")
  const UPDATEPRO: Text := Ascii("\\updatepro\\")
  const LOGOUT: Text := Ascii("\\logout\\")

  function Value(packet: Text, name: Text): (value: Option<Plain>) {
    var value := ValueForKey(packet, KeyFor(name));
    if value.Some? then Some(value.value) else None
  }

  datatype Credentials = Credentials(name: Plain, challenge: Plain, response: Plain)

  function ReadCredentials(packet: Text): Option<Credentials> {
    var uniqueNick := Value(packet, Ascii("uniquenick"));
    var user := Value(packet, Ascii("user"));
    var challenge := Value(packet, Ascii("challenge"));
    var response := Value(packet, Ascii("response"));
    if (uniqueNick.None? && user.None?) || challenge.None? || response.None? then None
    else
      var name := if uniqueNick.Some? then uniqueNick.value else user.value;
      if name == [] then None else Some(Credentials(name, challenge.value, response.value))
  }

  datatype Registration = Registration(email: Plain, nick: Plain, passwordEnc: Plain)

  function ReadRegistration(packet: Text): Option<Registration> {
    var email := Value(packet, Ascii("email"));
    var nick := Value(packet, Ascii("nick"));
    var passwordEnc := Value(packet, Ascii("passwordenc"));
    if email.None? || nick.None? || passwordEnc.None? then None
    else Some(Registration(email.value, nick.value, passwordEnc.value))
  }

  function Upper(c: byte): byte {
    if 0x61 <= c <= 0x7A then c - 0x20 else c
  }

  function UpperText(text: Plain): (upper: Plain)
    ensures |upper| == |text| && forall i :: 0 <= i < |text| ==> upper[i] == Upper(text[i])
  {
    var upper := seq(|text|, i requires 0 <= i < |text| => Upper(text[i]));
    assert forall i :: 0 <= i < |text| ==> text[i] in text;
    upper
  }

  // ---- replies ----

  const FINAL: seq<Text> := [Ascii("final"), []]
  const INVALID_QUERY: Text := Ascii("Invalid Query!")

  const NAME_IN_USE: Text := Ascii("This account name is already in use!")
  const INCORRECT: Text := Ascii("The password provided is incorrect.")

  function UnknownName(name: Text): Text {
    Ascii("Username [") + name + Ascii("] doesn't exist!")
  }

  function ErrorTokens(requestId: uint32, code: nat, message: Text, fatal: bool): seq<Text> {
    [[], Ascii("error"), [], Ascii("err"), Decimal(code), Ascii("errmsg"), message]
    + (if fatal then [Ascii("fatal"), []] else [])
    + [Ascii("id"), Decimal(requestId)] + FINAL
  }

  function Error(requestId: uint32, code: nat, message: Text, fatal: bool): Text {
    Join(ErrorTokens(requestId, code, message, fatal))
  }

  function GreetingTokens(s: Session): seq<Text> {
    [[], Ascii("lc"), Ascii("1"), Ascii("challenge"), s.serverChallenge, Ascii("id"), Ascii("1")] + FINAL
  }

  function ChallengeReply(s: Session): Text {
    Join(GreetingTokens(s))
  }

  function LoginTokens(player: Player, session: bv16, ticket: Text, proof: Text): seq<Text> {
    [[], Ascii("lc"), Ascii("2"), Ascii("sesskey"), Decimal(session as int), Ascii("userid"), Decimal(player.id),
     Ascii("profileid"), Decimal(player.id), Ascii("uniquenick"), player.name, Ascii("lt"), ticket,
     Ascii("proof"), proof, [], Ascii("id"), Ascii("1")] + FINAL
  }

  function LoginReply(player: Player, session: bv16, ticket: Text, proof: Text): Text {
    Join(LoginTokens(player, session, ticket, proof))
  }

  function CreatedReply(id: nat): Text {
    Join([[], Ascii("nur"), [], Ascii("userid"), Decimal(id), Ascii("profileid"), Decimal(id), Ascii("id"), Ascii("1")]
         + FINAL)
  }

  /** The thirty-first of May 2014, day, month and year in one number. */
  const BIRTHDAY: nat := 31 * 0x100_0000 + 5 * 0x1_0000 + 2014

  function IdentityTokens(player: Player): seq<Text> {
    [[], Ascii("pi"), [], Ascii("profileid"), Decimal(player.id), Ascii("nick"), player.name,
     Ascii("userid"), Decimal(player.id), Ascii("email"), player.email]
  }

  function NameTokens(player: Player, ticket: Plain): seq<Text> {
    [Ascii("sig"), ticket, Ascii("uniquenick"), player.name, Ascii("pid"), Ascii("0"),
     Ascii("firstname"), [], Ascii("lastname"), []]
  }

  function PlaceTokens(player: Player): seq<Text> {
    [Ascii("countrycode"), player.country, Ascii("birthday"), Decimal(BIRTHDAY),
     Ascii("lon"), Ascii("0.000000"), Ascii("lat"), Ascii("0.000000"), Ascii("loc"), []]
  }

  function ProfileTokens(requestId: uint32, player: Player, ticket: Plain): seq<Text> {
    IdentityTokens(player) + NameTokens(player, ticket) + PlaceTokens(player)
    + [Ascii("id"), Decimal(requestId)] + FINAL
  }

  // ---- steps of a session ----

  function Greeted(challenge: Plain, ticket: Plain): Session {
    Session(Authenticating, None, challenge, ticket)
  }

  /** The response proves the player's password against this session's challenge. */
  predicate Responds(player: Player, s: Session, credentials: Credentials) {
    credentials.response
    == GenerateChallenge(credentials.name, player.password, credentials.challenge, s.serverChallenge)
  }

  function OnLogin(t: Table, s: Session, packet: Text): Outcome {
    if s.phase != Authenticating then Outcome(t, Some(s), [])
    else
      var credentials := ReadCredentials(packet);
      if credentials.None? then Outcome(t, Some(s), Error(1, 0, INVALID_QUERY, true))
      else
        var name := credentials.value.name;
        var player := FindRow(t.rows, name);
        if player.None? then
          Outcome(t, Some(s), Error(1, 265, UnknownName(name), true))
        else if !Responds(player.value, s, credentials.value) then
          Outcome(t, Some(s), Error(1, 260, INCORRECT, true))
        else
          var proof :=
            GenerateChallenge(player.value.name, player.value.password, s.serverChallenge, credentials.value.challenge);
          Outcome(t, Some(s.(phase := Authenticated, player := player)),
                  LoginReply(player.value, Crc(name), s.ticket, proof))
  }

  const UNKNOWN_COUNTRY: Plain := [0x3F, 0x3F]

  function NewPlayer(r: Registration, password: Text): Player {
    Player(0, r.nick, r.email, Md5Text(password), UNKNOWN_COUNTRY)
  }

  function RegistrationOutcome(t: Table, s: Session, registration: Registration, password: Text): Outcome {
    if |password| < 3 then
      Outcome(t, Some(s), Error(1, 0, Ascii("The password is too short, must be 3 characters at least!"), true))
    else if |password| > 30 then
      Outcome(t, Some(s), Error(1, 0, Ascii("The password is too long, must be 30 characters at most!"), true))
    else
      var player := NewPlayer(registration, password);
      Outcome(Inserted(t, player), Some(s.(player := Some(player.(id := t.nextId)))), CreatedReply(t.nextId))
  }

  function OnNewUser(t: Table, s: Session, packet: Text): Outcome {
    if s.phase != Authenticating then Outcome(t, Some(s), Error(1, 0, INVALID_QUERY, true))
    else
      var registration := ReadRegistration(packet);
      if registration.None? then Outcome(t, Some(s), Error(1, 0, INVALID_QUERY, true))
      else if FindRow(t.rows, registration.value.nick).Some? then
        Outcome(t, Some(s), Error(1, 516, NAME_IN_USE, true))
      else
        var password := Passwords.PassDecode(registration.value.passwordEnc);
        if password.None? then Outcome(t, None, [])
        else RegistrationOutcome(t, s, registration.value, password.value)
  }

  function OnGetProfile(t: Table, s: Session, packet: Text): Outcome {
    var requestId := NumberForKey(packet, KeyFor(Ascii("id")));
    if requestId.None? then Outcome(t, Some(s), Error(0, 0, INVALID_QUERY, true))
    else if s.phase != Authenticated then
      Outcome(t, Some(s), Error(requestId.value, 0, INVALID_QUERY, true))
    else Outcome(t, Some(s), Join(ProfileTokens(requestId.value, s.player.value, s.ticket)))
  }

  const NO_REQUEST: uint32 := 0xFFFF_FFFF

  function OnUpdateProfile(t: Table, s: Session, packet: Text): Outcome {
    if s.phase != Authenticated then Outcome(t, Some(s), Error(NO_REQUEST, 0, INVALID_QUERY, true))
    else
      var country := Value(packet, Ascii("countrycode"));
      if country.None? then Outcome(t, Some(s), [])
      else
        var player := s.player.value.(country := UpperText(country.value));
        Outcome(Updated(t, player), Some(s.(player := Some(player))), [])
  }

  function OnRequest(t: Table, s: Session, packet: Text): Outcome {
    if LOGIN <= packet then OnLogin(t, s, packet)
    else if NEWUSER <= packet then OnNewUser(t, s, packet)
    else if GETPROFILE <= packet then OnGetProfile(t, s, packet)
    else if UPDATEPRO <= packet then OnUpdateProfile(t, s, packet)
    else if LOGOUT <= packet then Outcome(t, None, [])
    else Outcome(t, Some(s), Error(0, 0, INVALID_QUERY, false))
  }

  // ---- runs ----

  datatype World = World(table: Table, sessions: map<nat, Session>)

  const START := World(EMPTY, map[])

  datatype Event =
    | Connect(sid: nat, challenge: Plain, ticket: Plain)
    | Request(sid: nat, packet: Text)
    | Disconnect(sid: nat)

  function Step(w: World, ev: Event): World {
    match ev
    case Connect(sid, challenge, ticket) =>
      if sid in w.sessions then w else w.(sessions := w.sessions[sid := Greeted(challenge, ticket)])
    case Request(sid, packet) =>
      if sid !in w.sessions then w
      else
        var outcome := OnRequest(w.table, w.sessions[sid], packet);
        World(outcome.table,
              if outcome.session.Some? then w.sessions[sid := outcome.session.value] else w.sessions - {sid})
    case Disconnect(sid) => w.(sessions := w.sessions - {sid})
  }

  function After(run: seq<Event>): World {
    if run == [] then START else Step(After(run[..|run| - 1]), run[|run| - 1])
  }

  function At(run: seq<Event>, k: nat): World
    requires k <= |run|
  {
    After(run[..k])
  }

  lemma NextState(run: seq<Event>, k: nat)
    requires k < |run|
    ensures At(run, k + 1) == Step(At(run, k), run[k])
  {
    assert run[..k + 1][..k] == run[..k];
  }

  lemma StartsEmpty(run: seq<Event>)
    ensures At(run, 0) == START
  {
  }

  // ---- what one request can change ----

  /** The rows that were there keep everything but their country. */
  ghost predicate RowsKept(before: Table, after: Table) {
    && |before.rows| <= |after.rows|
    && forall i :: 0 <= i < |before.rows| ==> Same(after.rows[i], before.rows[i])
  }

  ghost predicate Agrees(t: Table, s: Session) {
    s.player.Some? ==> Knows(t, s.player.value)
  }

  predicate Creates(t: Table, s: Session, packet: Text) {
    && s.phase == Authenticating && ReadRegistration(packet).Some?
    && var r := ReadRegistration(packet).value;
       FindRow(t.rows, r.nick).None? && Passwords.PassDecode(r.passwordEnc).Some?
       && 3 <= |Passwords.PassDecode(r.passwordEnc).value| <= 30
  }

  function PlayerOf(packet: Text): Player
    requires ReadRegistration(packet).Some? && Passwords.PassDecode(ReadRegistration(packet).value.passwordEnc).Some?
  {
    var r := ReadRegistration(packet).value;
    NewPlayer(r, Passwords.PassDecode(r.passwordEnc).value)
  }

  predicate LogsIn(t: Table, s: Session, packet: Text) {
    && s.phase == Authenticating && ReadCredentials(packet).Some?
    && FindRow(t.rows, ReadCredentials(packet).value.name).Some?
    && Responds(FindRow(t.rows, ReadCredentials(packet).value.name).value, s, ReadCredentials(packet).value)
  }

  lemma LoginEffect(t: Table, s: Session, packet: Text)
    ensures var after := OnLogin(t, s, packet);
      && after.table == t
      && after.session == Some(
           if LogsIn(t, s, packet)
           then s.(phase := Authenticated, player := FindRow(t.rows, ReadCredentials(packet).value.name)) else s)
  {
    hide FindRow, ReadCredentials, Responds, Error, LoginReply, GenerateChallenge, Crc;
  }

  lemma NewUserEffect(t: Table, s: Session, packet: Text)
    ensures var after := OnNewUser(t, s, packet);
      if Creates(t, s, packet)
      then && after.table == Inserted(t, PlayerOf(packet))
           && after.session == Some(s.(player := Some(PlayerOf(packet).(id := t.nextId))))
      else after.table == t && (after.session.Some? ==> after.session == Some(s))
  {
    hide FindRow, ReadRegistration, Passwords.PassDecode, Error, CreatedReply, NewPlayer, Inserted;
  }

  predicate Changes(s: Session, packet: Text) {
    s.phase == Authenticated && Value(packet, Ascii("countrycode")).Some?
  }

  function Changed(s: Session, packet: Text): Player
    requires Changes(s, packet)
  {
    s.player.value.(country := UpperText(Value(packet, Ascii("countrycode")).value))
  }

  lemma UpdateEffect(t: Table, s: Session, packet: Text)
    ensures var after := OnUpdateProfile(t, s, packet);
      if Changes(s, packet)
      then after.table == Updated(t, Changed(s, packet))
        && after.session == Some(s.(player := Some(Changed(s, packet))))
      else after.table == t && after.session == Some(s)
  {
    hide Value, UpperText, Error, Updated;
  }

  lemma ProfileEffect(t: Table, s: Session, packet: Text)
    ensures OnGetProfile(t, s, packet).table == t && OnGetProfile(t, s, packet).session == Some(s)
  {
    hide NumberForKey, Error, Join, ProfileTokens;
  }

  datatype Kind = LoginKind | NewUserKind | ProfileKind | UpdateKind | OtherKind

  function KindOf(packet: Text): Kind {
    if LOGIN <= packet then LoginKind
    else if NEWUSER <= packet then NewUserKind
    else if GETPROFILE <= packet then ProfileKind
    else if UPDATEPRO <= packet then UpdateKind
    else OtherKind
  }

  /** A request changes the table and its own session in one of three ways, or not at all, or it ends the session. */
  lemma RequestEffect(t: Table, s: Session, packet: Text)
    ensures var after := OnRequest(t, s, packet);
      match KindOf(packet)
      case LoginKind => after == OnLogin(t, s, packet)
      case NewUserKind => after == OnNewUser(t, s, packet)
      case UpdateKind => after == OnUpdateProfile(t, s, packet)
      case ProfileKind => after == OnGetProfile(t, s, packet)
      case OtherKind => after.table == t && (after.session.Some? ==> after.session == Some(s))
  {
    hide OnLogin, OnNewUser, OnUpdateProfile, OnGetProfile, Error;
  }

  /** Names stay unique, rows stay, and every player that agreed with the table still does, whose session ever it is. */
  lemma RequestKeeps(t: Table, s: Session, packet: Text, other: Session)
    requires WellFormed(t) && Agrees(t, s)
    ensures var after := OnRequest(t, s, packet);
      && WellFormed(after.table) && RowsKept(t, after.table)
      && (Agrees(t, other) ==> Agrees(after.table, other))
      && (after.session.Some? ==> Agrees(after.table, after.session.value))
  {
    hide OnLogin, OnNewUser, OnUpdateProfile, OnGetProfile, OnRequest, KindOf, WellFormed, Inserted, Updated, FindRow,
      LogsIn, Creates, Changes, Changed, PlayerOf;
    RequestEffect(t, s, packet);
    match KindOf(packet)
    case LoginKind => LoginEffect(t, s, packet);
    case NewUserKind =>
      NewUserEffect(t, s, packet);
      if Creates(t, s, packet) {
        NewUserKeeps(t, s, packet, other);
      }
    case UpdateKind =>
      UpdateEffect(t, s, packet);
      if Changes(s, packet) {
        UpdateRequestKeeps(t, s, packet, other);
      }
    case ProfileKind => ProfileEffect(t, s, packet);
    case OtherKind =>
  }

  lemma NewUserKeeps(t: Table, s: Session, packet: Text, other: Session)
    requires WellFormed(t) && Creates(t, s, packet)
    ensures var player, after := PlayerOf(packet), Inserted(t, PlayerOf(packet));
      && WellFormed(after) && RowsKept(t, after)
      && Knows(after, player.(id := t.nextId)) && (Agrees(t, other) ==> Agrees(after, other))
  {
    hide WellFormed, FindRow, Knows, ReadRegistration, Passwords.PassDecode, Md5Text;
    var player := PlayerOf(packet);
    InsertKeeps(t, player, if other.player.Some? then other.player.value else player);
  }

  lemma UpdateRequestKeeps(t: Table, s: Session, packet: Text, other: Session)
    requires WellFormed(t) && Agrees(t, s) && Changes(s, packet)
    ensures var player, after := Changed(s, packet), Updated(t, Changed(s, packet));
      WellFormed(after) && RowsKept(t, after) && Knows(after, player) && (Agrees(t, other) ==> Agrees(after, other))
  {
    hide WellFormed, FindRow, Value, UpperText;
    var player := Changed(s, packet);
    assert Knows(t, player);
    UpdateKeeps(t, player, if other.player.Some? then other.player.value else player);
  }

  // ---- every interleaving of sessions ----

  ghost predicate Agreed(w: World) {
    WellFormed(w.table) && forall sid :: sid in w.sessions ==> Agrees(w.table, w.sessions[sid])
  }

  lemma AgreedStep(w: World, ev: Event)
    requires Agreed(w)
    ensures Agreed(Step(w, ev)) && RowsKept(w.table, Step(w, ev).table)
  {
    hide OnRequest, WellFormed, Knows;
    if ev.Request? && ev.sid in w.sessions {
      var s := w.sessions[ev.sid];
      RequestKeeps(w.table, s, ev.packet, s);
      forall sid | sid in w.sessions
        ensures Agrees(OnRequest(w.table, s, ev.packet).table, w.sessions[sid])
      {
        RequestKeeps(w.table, s, ev.packet, w.sessions[sid]);
      }
    }
  }

  /**
   In every interleaving of any number of sessions, after every step: names are unique, numbers
   increase, and every session that holds a player, authenticated or not, holds the number,
   name, email and password that the table has under that name.
   */
  lemma {:induction false} AlwaysAgreed(run: seq<Event>, n: nat)
    requires n <= |run|
    ensures Agreed(At(run, n))
  {
    hide Step, Agreed;
    if n == 0 {
      StartsEmpty(run);
      StartAgreed();
    } else {
      NextState(run, n - 1);
      hide At;
      AlwaysAgreed(run, n - 1);
      AgreedStep(At(run, n - 1), run[n - 1]);
    }
  }

  lemma StartAgreed()
    ensures Agreed(START)
  {
  }

  /** A row, once created, keeps its number, name, email and password for ever. */
  lemma {:induction false} RowsNeverChange(run: seq<Event>, m: nat, n: nat)
    requires m <= n <= |run|
    ensures RowsKept(At(run, m).table, At(run, n).table)
    decreases n
  {
    hide Step, At;
    if m < n {
      RowsNeverChange(run, m, n - 1);
      AlwaysAgreed(run, n - 1);
      NextState(run, n - 1);
      AgreedStep(At(run, n - 1), run[n - 1]);
    }
  }

  // ---- who is authenticated, and since when ----

  predicate IsAuthenticated(w: World, sid: nat) {
    sid in w.sessions && w.sessions[sid].phase == Authenticated
  }

  /** The step is a successful login of this session. */
  predicate Authenticates(w: World, ev: Event, sid: nat) {
    && ev.Request? && ev.sid == sid && sid in w.sessions
    && KindOf(ev.packet) == LoginKind && LogsIn(w.table, w.sessions[sid], ev.packet)
  }

  lemma SessionEffect(t: Table, s: Session, packet: Text)
    ensures var after := OnRequest(t, s, packet).session;
      after.Some? ==>
        && after.value.serverChallenge == s.serverChallenge && after.value.ticket == s.ticket
        && (if s.phase == Authenticated
            then after.value.phase == Authenticated && Same(after.value.player.value, s.player.value)
            else after.value.phase == Authenticated <==> KindOf(packet) == LoginKind && LogsIn(t, s, packet))
        && (KindOf(packet) == LoginKind && LogsIn(t, s, packet)
            ==> after.value.player == FindRow(t.rows, ReadCredentials(packet).value.name))
  {
    hide OnLogin, OnNewUser, OnUpdateProfile, OnGetProfile, OnRequest, KindOf, FindRow, ReadCredentials, Responds,
      ReadRegistration, PlayerOf, Value, Inserted, Updated, Passwords.PassDecode;
    RequestEffect(t, s, packet);
    match KindOf(packet)
    case LoginKind => LoginEffect(t, s, packet);
    case NewUserKind => NewUserEffect(t, s, packet);
    case UpdateKind => UpdateEffect(t, s, packet);
    case ProfileKind => ProfileEffect(t, s, packet);
    case OtherKind =>
  }

  /** A session becomes authenticated by a successful login and by nothing else. */
  lemma BecomesAuthenticated(w: World, ev: Event, sid: nat)
    requires !IsAuthenticated(w, sid)
    ensures IsAuthenticated(Step(w, ev), sid) <==> Authenticates(w, ev, sid)
    ensures Authenticates(w, ev, sid) ==>
      Step(w, ev).sessions[sid].player == FindRow(w.table.rows, ReadCredentials(ev.packet).value.name)
  {
    hide OnRequest, FindRow, LogsIn, KindOf;
    if ev.Request? && ev.sid == sid && sid in w.sessions {
      SessionEffect(w.table, w.sessions[sid], ev.packet);
      LoginSurvives(w.table, w.sessions[sid], ev.packet);
    }
  }

  lemma LoginSurvives(t: Table, s: Session, packet: Text)
    ensures KindOf(packet) == LoginKind ==> OnRequest(t, s, packet).session.Some?
  {
    hide OnRequest, OnLogin, KindOf;
    RequestEffect(t, s, packet);
    LoginEffect(t, s, packet);
  }

  /** An authenticated session keeps its number, name, email and password until it ends, whatever any session does. */
  lemma StaysAuthenticated(w: World, ev: Event, sid: nat)
    requires IsAuthenticated(w, sid) && sid in Step(w, ev).sessions
    ensures IsAuthenticated(Step(w, ev), sid)
    ensures Same(Step(w, ev).sessions[sid].player.value, w.sessions[sid].player.value)
  {
    hide OnRequest, FindRow, LogsIn, KindOf;
    if ev.Request? && ev.sid in w.sessions {
      SessionEffect(w.table, w.sessions[ev.sid], ev.packet);
    }
  }

  /** The step creates a row. */
  predicate Registers(w: World, ev: Event) {
    && ev.Request? && ev.sid in w.sessions
    && KindOf(ev.packet) == NewUserKind && Creates(w.table, w.sessions[ev.sid], ev.packet)
  }

  lemma TableEffect(w: World, ev: Event)
    requires |Step(w, ev).table.rows| > |w.table.rows|
    ensures Registers(w, ev) && Step(w, ev).table == Inserted(w.table, PlayerOf(ev.packet))
  {
    hide OnLogin, OnNewUser, OnUpdateProfile, OnGetProfile, OnRequest, KindOf, FindRow, ReadCredentials, LogsIn,
      Creates,
      Changed, PlayerOf, Value, Inserted;
    var s := w.sessions[ev.sid];
    RequestEffect(w.table, s, ev.packet);
    LoginEffect(w.table, s, ev.packet);
    NewUserEffect(w.table, s, ev.packet);
    UpdateEffect(w.table, s, ev.packet);
    ProfileEffect(w.table, s, ev.packet);
  }

  /** Row `k` was created by step `c`, from that step's own packet. */
  ghost predicate Created(run: seq<Event>, c: nat, row: Player) {
    && c < |run| && Registers(At(run, c), run[c])
    && Same(row, PlayerOf(run[c].packet).(id := At(run, c).table.nextId))
  }

  lemma SameCreated(run: seq<Event>, c: nat, a: Player, b: Player)
    requires Created(run, c, a) && Same(b, a)
    ensures Created(run, c, b)
  {
    hide At, Registers, PlayerOf;
  }

  lemma RowStarts(run: seq<Event>, n: nat, k: nat)
    requires n < |run| && |At(run, n).table.rows| <= k < |At(run, n + 1).table.rows|
    ensures Created(run, n, At(run, n + 1).table.rows[k])
  {
    NextState(run, n);
    hide At, Step, Registers, PlayerOf;
    TableEffect(At(run, n), run[n]);
  }

  lemma RowGoesOn(run: seq<Event>, n: nat, k: nat)
    requires n < |run| && k < |At(run, n).table.rows|
    ensures k < |At(run, n + 1).table.rows| && Same(At(run, n + 1).table.rows[k], At(run, n).table.rows[k])
  {
    AlwaysAgreed(run, n);
    NextState(run, n);
    hide At, Step, Agreed, Same;
    AgreedStep(At(run, n), run[n]);
  }

  lemma {:induction false} RowSince(run: seq<Event>, n: nat, k: nat) returns (c: nat)
    requires n <= |run| && k < |At(run, n).table.rows|
    ensures c < n && Created(run, c, At(run, n).table.rows[k])
    decreases n
  {
    StartsEmpty(run);
    hide At, Created, Same;
    if k < |At(run, n - 1).table.rows| {
      c := RowSince(run, n - 1, k);
      RowGoesOn(run, n - 1, k);
      SameCreated(run, c, At(run, n - 1).table.rows[k], At(run, n).table.rows[k]);
    } else {
      c := n - 1;
      RowStarts(run, c, k);
    }
  }

  /** Step `l` logs the session in as the player that step `c` created, with the digest of that step's password. */
  ghost predicate Entered(run: seq<Event>, sid: nat, c: nat, l: nat)
  {
    && c < l < |run| && Registers(At(run, c), run[c]) && Authenticates(At(run, l), run[l], sid)
    && var credentials := ReadCredentials(run[l].packet).value;
       credentials.name == PlayerOf(run[c].packet).name
       && Responds(PlayerOf(run[c].packet), At(run, l).sessions[sid], credentials)
  }

  lemma EnteredBy(run: seq<Event>, l: nat, sid: nat) returns (c: nat)
    requires l < |run| && Authenticates(At(run, l), run[l], sid)
    ensures Entered(run, sid, c, l)
    ensures var row := FindRow(At(run, l).table.rows, ReadCredentials(run[l].packet).value.name).value;
      Created(run, c, row)
  {
    var t := At(run, l).table;
    var row := FindRow(t.rows, ReadCredentials(run[l].packet).value.name).value;
    var k :| 0 <= k < |t.rows| && t.rows[k] == row;
    c := RowSince(run, l, k);
    hide At, Registers, PlayerOf, KindOf, ReadCredentials, FindRow, GenerateChallenge;
  }

  lemma SessionStarts(run: seq<Event>, n: nat, sid: nat)
    requires n < |run| && !IsAuthenticated(At(run, n), sid) && IsAuthenticated(At(run, n + 1), sid)
    ensures Authenticates(At(run, n), run[n], sid)
    ensures var credentials := ReadCredentials(run[n].packet).value;
      At(run, n + 1).sessions[sid].player == FindRow(At(run, n).table.rows, credentials.name)
  {
    NextState(run, n);
    hide At, Step, FindRow, KindOf, LogsIn;
    BecomesAuthenticated(At(run, n), run[n], sid);
  }

  /** Step `o` opens the connection, which lasts, with its challenge, in every state up to the one before step `n`. */
  ghost predicate Connected(run: seq<Event>, sid: nat, o: nat, n: nat)
    requires n <= |run|
  {
    && o < n && run[o].Connect? && run[o].sid == sid && sid !in At(run, o).sessions
    && forall k :: o < k <= n ==>
         sid in At(run, k).sessions && At(run, k).sessions[sid].serverChallenge == run[o].challenge
  }

  lemma ConnectionStarts(run: seq<Event>, n: nat, sid: nat)
    requires n < |run| && sid !in At(run, n).sessions && sid in At(run, n + 1).sessions
    ensures Connected(run, sid, n, n + 1)
  {
    NextState(run, n);
    hide At, OnRequest;
  }

  lemma ConnectionGoesOn(run: seq<Event>, n: nat, sid: nat)
    requires n < |run| && sid in At(run, n).sessions && sid in At(run, n + 1).sessions
    ensures At(run, n + 1).sessions[sid].serverChallenge == At(run, n).sessions[sid].serverChallenge
  {
    NextState(run, n);
    hide At, OnRequest, FindRow, LogsIn, KindOf;
    var w, ev := At(run, n), run[n];
    if ev.Request? && ev.sid in w.sessions {
      SessionEffect(w.table, w.sessions[ev.sid], ev.packet);
    }
  }

  lemma ConnectedOn(run: seq<Event>, sid: nat, o: nat, n: nat)
    requires n < |run| && Connected(run, sid, o, n) && sid in At(run, n + 1).sessions
    ensures Connected(run, sid, o, n + 1)
  {
    ConnectionGoesOn(run, n, sid);
    hide At;
  }

  /** Every session was opened by a connection, and keeps the challenge it was given then. */
  lemma {:induction false} ConnectedSince(run: seq<Event>, n: nat, sid: nat) returns (o: nat)
    requires n <= |run| && sid in At(run, n).sessions
    ensures Connected(run, sid, o, n)
    decreases n
  {
    StartsEmpty(run);
    hide At, Connected;
    if sid in At(run, n - 1).sessions {
      o := ConnectedSince(run, n - 1, sid);
      ConnectedOn(run, sid, o, n - 1);
    } else {
      o := n - 1;
      ConnectionStarts(run, o, sid);
    }
  }

  /** The session is authenticated in every state from behind step `l` on up to the one before step `n`. */
  ghost predicate AuthenticatedFrom(run: seq<Event>, sid: nat, l: nat, n: nat)
    requires n <= |run|
  {
    l < n && forall k :: l < k <= n ==> IsAuthenticated(At(run, k), sid)
  }

  lemma AuthenticatedOn(run: seq<Event>, sid: nat, l: nat, n: nat)
    requires n < |run| && AuthenticatedFrom(run, sid, l, n) && IsAuthenticated(At(run, n + 1), sid)
    ensures AuthenticatedFrom(run, sid, l, n + 1)
  {
    hide At, IsAuthenticated;
  }

  lemma AuthenticatedFirst(run: seq<Event>, sid: nat, l: nat)
    requires l < |run| && IsAuthenticated(At(run, l + 1), sid)
    ensures AuthenticatedFrom(run, sid, l, l + 1)
  {
  }

  /**
   Nobody is authenticated who did not prove a password: in every interleaving, an authenticated
   session has been authenticated since it logged in as a player that a still earlier step
   created, with a response computed from the password given then and its own challenge.
   */
  lemma {:induction false} AuthenticatedSince(run: seq<Event>, n: nat, sid: nat) returns (c: nat, l: nat)
    requires n <= |run| && IsAuthenticated(At(run, n), sid)
    ensures Entered(run, sid, c, l) && AuthenticatedFrom(run, sid, l, n)
    ensures Created(run, c, At(run, n).sessions[sid].player.value)
    decreases n
  {
    StartsEmpty(run);
    hide At, Entered, Created, Authenticates, AuthenticatedFrom, FindRow, Same;
    if IsAuthenticated(At(run, n - 1), sid) {
      c, l := AuthenticatedSince(run, n - 1, sid);
      AuthenticatedOn(run, sid, l, n - 1);
      SessionLasts(run, n - 1, sid);
      SameCreated(run, c, At(run, n - 1).sessions[sid].player.value, At(run, n).sessions[sid].player.value);
    } else {
      l := n - 1;
      AuthenticatedFirst(run, sid, l);
      SessionStarts(run, l, sid);
      c := EnteredBy(run, l, sid);
    }
  }

  /**
   The same from the connection on: step `o` opened the connection that still lasts, step `l`
   logged it in with a response to the challenge that step `o` sent, as the player of step `c`.
   */
  lemma AuthenticatedOverConnection(run: seq<Event>, n: nat, sid: nat) returns (o: nat, c: nat, l: nat)
    requires n <= |run| && IsAuthenticated(At(run, n), sid)
    ensures Connected(run, sid, o, n) && o < l && Entered(run, sid, c, l) && AuthenticatedFrom(run, sid, l, n)
    ensures At(run, l).sessions[sid].serverChallenge == run[o].challenge
    ensures Value(GreetingOf(run, o, sid), CHALLENGE) == Some(At(run, l).sessions[sid].serverChallenge)
    ensures Created(run, c, At(run, n).sessions[sid].player.value)
  {
    hide At, Created, Authenticates, Registers, Value, GreetingOf, PlayerOf, Responds, ReadCredentials;
    c, l := AuthenticatedSince(run, n, sid);
    o := ConnectedSince(run, n, sid);
    LoggedInWhileConnected(run, sid, o, c, l, n);
    GreetingLasts(run, sid, o, n);
  }

  /** A connection that still lasts was open when its session logged in. */
  lemma LoggedInWhileConnected(run: seq<Event>, sid: nat, o: nat, c: nat, l: nat, n: nat)
    requires n <= |run| && Connected(run, sid, o, n) && Entered(run, sid, c, l) && AuthenticatedFrom(run, sid, l, n)
    ensures o < l && At(run, l).sessions[sid].serverChallenge == run[o].challenge
  {
    hide At, KindOf, LogsIn, Registers, ReadCredentials, PlayerOf, Responds;
  }

  /** The request registers a name for the first time, with a password that its encoding keeps. */
  predicate RegistersWith(w: World, ev: Event, nick: Text, password: seq<byte>) {
    && ev.Request? && ev.sid in w.sessions && w.sessions[ev.sid].phase == Authenticating
    && KindOf(ev.packet) == NewUserKind && ReadRegistration(ev.packet).Some?
    && ReadRegistration(ev.packet).value.nick == nick && FindRow(w.table.rows, nick).None?
    && ReadRegistration(ev.packet).value.passwordEnc == Passwords.PassEncode(password)
    && 3 <= |password| <= 30 && password[|password| - 1] != Passwords.KeyByte(|password| - 1)
  }

  /** The request answers the challenge that its client reads in a greeting with a name and a password. */
  predicate AnswersWith(w: World, ev: Event, sid: nat, greeting: Text, nick: Text, password: seq<byte>) {
    && ev.Request? && ev.sid == sid && sid in w.sessions && w.sessions[sid].phase == Authenticating
    && KindOf(ev.packet) == LoginKind && ReadCredentials(ev.packet).Some?
    && Value(greeting, CHALLENGE).Some?
    && var credentials := ReadCredentials(ev.packet).value;
       credentials.name == nick && credentials.response
         == GenerateChallenge(nick, Md5Text(password), credentials.challenge, Value(greeting, CHALLENGE).value)
  }

  /** What step `o` has sent when it opened the connection. */
  function GreetingOf(run: seq<Event>, o: nat, sid: nat): Text
    requires o < |run| && sid in At(run, o + 1).sessions
  {
    ChallengeReply(At(run, o + 1).sessions[sid])
  }

  /** As long as the connection lasts, its greeting is read as the challenge that answers are held against. */
  lemma GreetingLasts(run: seq<Event>, sid: nat, o: nat, n: nat)
    requires n <= |run| && Connected(run, sid, o, n)
    ensures Value(GreetingOf(run, o, sid), CHALLENGE) == Some(At(run, n).sessions[sid].serverChallenge)
  {
    hide At, Value, ChallengeReply;
    GreetingReads(At(run, o + 1).sessions[sid]);
  }

  lemma RegistrationRow(run: seq<Event>, i: nat, nick: Text, password: seq<byte>)
    requires i < |run| && RegistersWith(At(run, i), run[i], nick, password)
    ensures var before, after := At(run, i).table.rows, At(run, i + 1).table.rows;
      |after| == |before| + 1 && after[|before|].name == nick && after[|before|].password == Md5Text(password)
  {
    var w, packet := At(run, i), run[i].packet;
    NextState(run, i);
    hide At, KindOf, OnRequest, OnNewUser, FindRow, ReadRegistration, Passwords.PassEncode, Passwords.PassDecode,
      Passwords.KeyByte, Md5Text;
    Passwords.PassDecodeEncode(password);
    RequestEffect(w.table, w.sessions[run[i].sid], packet);
    NewUserEffect(w.table, w.sessions[run[i].sid], packet);
  }

  lemma RegisteredIsFound(run: seq<Event>, i: nat, j: nat, nick: Text, password: seq<byte>)
    requires i < j <= |run| && RegistersWith(At(run, i), run[i], nick, password)
    ensures var row := FindRow(At(run, j).table.rows, nick);
      row.Some? && row.value.name == nick && row.value.password == Md5Text(password)
  {
    RegistrationRow(run, i, nick, password);
    RowsNeverChange(run, i + 1, j);
    AlwaysAgreed(run, j);
    hide At, RegistersWith, FindRow, Md5Text, Agrees;
    FindsRow(At(run, j).table.rows, |At(run, i).table.rows|);
  }

  lemma AnswerLogsIn(w: World, ev: Event, sid: nat, greeting: Text, nick: Text, password: seq<byte>)
    requires AnswersWith(w, ev, sid, greeting, nick, password)
    requires Value(greeting, CHALLENGE) == Some(w.sessions[sid].serverChallenge)
    requires FindRow(w.table.rows, nick).Some? && FindRow(w.table.rows, nick).value.password == Md5Text(password)
    ensures Authenticates(w, ev, sid)
    ensures IsAuthenticated(Step(w, ev), sid) && Step(w, ev).sessions[sid].player == FindRow(w.table.rows, nick)
  {
    hide Step, KindOf, ReadCredentials, FindRow, GenerateChallenge, Md5Text, Value;
    BecomesAuthenticated(w, ev, sid);
  }

  /**
   Conversely, the right password is enough: in every interleaving, whoever answers the challenge
   it reads in the greeting of its connection, which still lasts, with a registered name and the
   password it was registered with is authenticated as that player.
   */
  lemma RightPasswordLogsIn(run: seq<Event>, i: nat, o: nat, j: nat, sid: nat, nick: Text, password: seq<byte>)
    requires i < j < |run| && RegistersWith(At(run, i), run[i], nick, password)
    requires Connected(run, sid, o, j)
    requires AnswersWith(At(run, j), run[j], sid, GreetingOf(run, o, sid), nick, password)
    ensures Authenticates(At(run, j), run[j], sid)
    ensures IsAuthenticated(At(run, j + 1), sid) && At(run, j + 1).sessions[sid].player.value.name == nick
  {
    hide At, Step, Authenticates, AnswersWith, RegistersWith, FindRow, Md5Text, Value, ChallengeReply;
    RegisteredIsFound(run, i, j, nick, password);
    GreetingLasts(run, sid, o, j);
    NextState(run, j);
    AnswerLogsIn(At(run, j), run[j], sid, GreetingOf(run, o, sid), nick, password);
  }

  lemma SessionLasts(run: seq<Event>, n: nat, sid: nat)
    requires n < |run| && IsAuthenticated(At(run, n), sid) && sid in At(run, n + 1).sessions
    ensures IsAuthenticated(At(run, n + 1), sid)
    ensures Same(At(run, n + 1).sessions[sid].player.value, At(run, n).sessions[sid].player.value)
  {
    NextState(run, n);
    hide At, Step, Same;
    StaysAuthenticated(At(run, n), run[n], sid);
  }

  /** As long as a session lasts, it stays the same player, whatever any session does. */
  lemma {:induction false} IdentityNeverChanges(run: seq<Event>, m: nat, n: nat, sid: nat)
    requires m <= n <= |run| && IsAuthenticated(At(run, m), sid)
    requires forall k :: m <= k <= n ==> sid in At(run, k).sessions
    ensures IsAuthenticated(At(run, n), sid)
    ensures Same(At(run, n).sessions[sid].player.value, At(run, m).sessions[sid].player.value)
    decreases n
  {
    hide At;
    if m < n {
      IdentityNeverChanges(run, m, n - 1, sid);
      SessionLasts(run, n - 1, sid);
    }
  }

  // ---- what a client reads from its profile ----

  lemma TokenIs(tokens: seq<Text>, name: Text, i: nat)
    requires 1 <= i && i + 2 < |tokens| && tokens[i] == name && forall k :: 1 <= k < i ==> tokens[k] != name
    ensures TokenValue(tokens, name) == Some(tokens[i + 1])
  {
    hide FindToken;
  }

  lemma DecimalIsPlain(n: nat)
    ensures BACKSLASH !in Decimal(n) && NUL !in Decimal(n) && Digit(Decimal(n)[0])
  {
    NumberDecimal(n);
  }

  predicate AllPlain(tokens: seq<Text>) {
    forall t :: t in tokens ==> BACKSLASH !in t && NUL !in t
  }

  lemma IdentityTokensPlain(player: Player)
    ensures AllPlain(IdentityTokens(player))
  {
    hide Decimal;
    DecimalIsPlain(player.id);
  }

  lemma AsciiPlain(s: string)
    requires forall i :: 0 <= i < |s| ==> 0 < s[i] as int < 0x5C || 0x5C < s[i] as int < 0x80
    ensures BACKSLASH !in Ascii(s) && NUL !in Ascii(s)
  {
  }

  lemma NameTokensPlain(player: Player, ticket: Plain)
    ensures AllPlain(NameTokens(player, ticket))
  {
    hide Ascii;
    AsciiPlain("sig");
    AsciiPlain("uniquenick");
    AsciiPlain("pid");
    AsciiPlain("0");
    AsciiPlain("firstname");
    AsciiPlain("lastname");
  }

  lemma PlaceTokensPlain(player: Player)
    ensures AllPlain(PlaceTokens(player))
  {
    hide Ascii, Decimal;
    DecimalIsPlain(BIRTHDAY);
    AsciiPlain("countrycode");
    AsciiPlain("birthday");
    AsciiPlain("lon");
    AsciiPlain("0.000000");
    AsciiPlain("lat");
    AsciiPlain("loc");
  }

  lemma LastTokensPlain(requestId: uint32)
    ensures AllPlain([Ascii("id"), Decimal(requestId)] + FINAL)
  {
    hide Decimal;
    DecimalIsPlain(requestId);
  }

  lemma ProfileTokensPlain(requestId: uint32, player: Player, ticket: Plain)
    ensures AllPlain(ProfileTokens(requestId, player, ticket))
  {
    hide IdentityTokens, NameTokens, PlaceTokens, Decimal, Ascii;
    IdentityTokensPlain(player);
    NameTokensPlain(player, ticket);
    PlaceTokensPlain(player);
    LastTokensPlain(requestId);
  }

  /** Tokens without backslash and NUL are found in the joined text. */
  lemma ReplyValue(tokens: seq<Text>, name: Plain)
    requires tokens != [] && AllPlain(tokens)
    ensures Value(Join(tokens), name) == TokenValue(tokens, name)
  {
    hide TokenValue, ValueForKey, Join, Pieces;
    PiecesJoin(tokens);
    JoinNulFree(tokens);
    ValueIsTokenValue(Join(tokens), name);
  }

  /** Reading a value from the text of a profile is looking for its token. */
  lemma ProfileValue(requestId: uint32, player: Player, ticket: Plain, name: Plain)
    ensures Value(Join(ProfileTokens(requestId, player, ticket)), name)
         == TokenValue(ProfileTokens(requestId, player, ticket), name)
  {
    hide Value, TokenValue, Join, IdentityTokens, NameTokens, PlaceTokens, Decimal;
    ProfileTokensPlain(requestId, player, ticket);
    ReplyValue(ProfileTokens(requestId, player, ticket), name);
  }

  const PROFILEID: Plain := [0x70, 0x72, 0x6F, 0x66, 0x69, 0x6C, 0x65, 0x69, 0x64]
  const NICK: Plain := [0x6E, 0x69, 0x63, 0x6B]
  const EMAIL: Plain := [0x65, 0x6D, 0x61, 0x69, 0x6C]
  const COUNTRYCODE: Plain := [0x63, 0x6F, 0x75, 0x6E, 0x74, 0x72, 0x79, 0x63, 0x6F, 0x64, 0x65]

  lemma KeyNames()
    ensures PROFILEID == Ascii("profileid") && NICK == Ascii("nick")
    ensures EMAIL == Ascii("email") && COUNTRYCODE == Ascii("countrycode")
  {
  }

  lemma TokenOfIdentity(requestId: uint32, player: Player, ticket: Plain)
    ensures var tokens := ProfileTokens(requestId, player, ticket);
      && TokenValue(tokens, PROFILEID) == Some(Decimal(player.id))
      && TokenValue(tokens, NICK) == Some(player.name)
  {
    hide Decimal, TokenValue, NameTokens, PlaceTokens;
    DecimalIsPlain(player.id);
    KeyNames();
    var tokens := ProfileTokens(requestId, player, ticket);
    assert |Ascii("pi")| == 2;
    TokenIs(tokens, PROFILEID, 3);
    TokenIs(tokens, NICK, 5);
  }

  lemma TokenOfEmail(requestId: uint32, player: Player, ticket: Plain)
    ensures TokenValue(ProfileTokens(requestId, player, ticket), EMAIL)
         == Some(if player.name == EMAIL then Ascii("userid") else player.email)
  {
    hide Decimal, TokenValue, NameTokens, PlaceTokens;
    DecimalIsPlain(player.id);
    KeyNames();
    var tokens := ProfileTokens(requestId, player, ticket);
    assert Ascii("pi")[0] != EMAIL[0] && Ascii("userid")[0] != EMAIL[0];
    TokenIs(tokens, EMAIL, if player.name == EMAIL then 6 else 9);
  }

  /** A session asks for its profile, and the reply is the profile it holds. */
  lemma ProfileReplied(t: Table, s: Session, packet: Text)
    requires s.phase == Authenticated && NumberForKey(packet, KeyFor(Ascii("id"))).Some?
    ensures OnGetProfile(t, s, packet).reply
         == Join(ProfileTokens(NumberForKey(packet, KeyFor(Ascii("id"))).value, s.player.value, s.ticket))
  {
  }

  /**
   In every interleaving, a client that looks its profile up in the reply reads the number and
   the name of its row, and its email exactly when its name is not the word "email" itself, or
   the email is what then stands in the place of a value.
   */
  lemma ProfileMatchesRow(run: seq<Event>, n: nat, sid: nat, packet: Text)
    requires n <= |run| && IsAuthenticated(At(run, n), sid) && NumberForKey(packet, KeyFor(Ascii("id"))).Some?
    ensures var w := At(run, n);
      var row := FindRow(w.table.rows, w.sessions[sid].player.value.name);
      var reply := OnGetProfile(w.table, w.sessions[sid], packet).reply;
      && row.Some?
      && Value(reply, PROFILEID) == Some(Decimal(row.value.id))
      && Value(reply, NICK) == Some(row.value.name)
      && (Value(reply, EMAIL) == Some(row.value.email)
          <==> row.value.name != EMAIL || row.value.email == Ascii("userid"))
  {
    hide At, Value, FindRow, ProfileTokens, Join, NumberForKey, Decimal, OnGetProfile, WellFormed, Ascii;
    AlwaysAgreed(run, n);
    var s := At(run, n).sessions[sid];
    ProfileReplied(At(run, n).table, s, packet);
    var requestId := NumberForKey(packet, KeyFor(Ascii("id"))).value;
    ProfileValue(requestId, s.player.value, s.ticket, PROFILEID);
    ProfileValue(requestId, s.player.value, s.ticket, NICK);
    ProfileValue(requestId, s.player.value, s.ticket, EMAIL);
    TokenOfIdentity(requestId, s.player.value, s.ticket);
    TokenOfEmail(requestId, s.player.value, s.ticket);
  }

  /**
   The country is the exception: what one session changes, another session of the same player
   does not see, so its profile shows the country of the row exactly when it was that country before.
   */
  lemma CountryMayBeStale(w: World, a: nat, b: nat, packet: Text)
    requires Agreed(w) && a != b && IsAuthenticated(w, a) && IsAuthenticated(w, b)
    requires w.sessions[a].player.value.name == w.sessions[b].player.value.name
    requires KindOf(packet) == UpdateKind && Changes(w.sessions[a], packet)
    ensures var after := Step(w, Request(a, packet));
      var country := UpperText(Value(packet, Ascii("countrycode")).value);
      var row := FindRow(after.table.rows, w.sessions[a].player.value.name);
      && row == Some(w.sessions[a].player.value.(country := country))
      && b in after.sessions && after.sessions[b] == w.sessions[b]
      && (row == after.sessions[b].player <==> w.sessions[b].player.value.country == country)
  {
    hide OnRequest, OnUpdateProfile, FindRow, Value, UpperText, WellFormed, KindOf;
    var s := w.sessions[a];
    RequestEffect(w.table, s, packet);
    UpdateEffect(w.table, s, packet);
    UpdateKeeps(w.table, Changed(s, packet), s.player.value);
  }

  // ---- what a client reads from a verdict ----

  const ERR: Plain := [0x65, 0x72, 0x72]
  const PROOF: Plain := [0x70, 0x72, 0x6F, 0x6F, 0x66]
  const CHALLENGE: Plain := [0x63, 0x68, 0x61, 0x6C, 0x6C, 0x65, 0x6E, 0x67, 0x65]

  /** The challenge of a greeting is read back. */
  lemma GreetingReads(s: Session)
    ensures Value(ChallengeReply(s), CHALLENGE) == Some(s.serverChallenge)
  {
    hide TokenValue, Value, Join, Ascii;
    GreetingPlain();
    ReplyValue(GreetingTokens(s), CHALLENGE);
    TokenIs(GreetingTokens(s), CHALLENGE, 3);
  }

  lemma GreetingPlain()
    ensures CHALLENGE == Ascii("challenge") && Ascii("lc") != CHALLENGE && Ascii("1") != CHALLENGE
    ensures AllPlain([Ascii("lc"), Ascii("1"), Ascii("challenge"), Ascii("id"), Ascii("final")])
  {
    assert |Ascii("lc")| == 2 && |Ascii("1")| == 1;
    AsciiPlain("lc");
    AsciiPlain("1");
    AsciiPlain("challenge");
    AsciiPlain("id");
    AsciiPlain("final");
  }

  lemma ErrorTokensPlain(requestId: uint32, code: nat, message: Plain, fatal: bool)
    ensures AllPlain(ErrorTokens(requestId, code, message, fatal))
  {
    hide Ascii, Decimal;
    DecimalIsPlain(code);
    DecimalIsPlain(requestId);
    AsciiPlain("error");
    AsciiPlain("err");
    AsciiPlain("errmsg");
    AsciiPlain("fatal");
    AsciiPlain("id");
    AsciiPlain("final");
  }

  /** The code of an error reply is read back. */
  lemma ErrorReads(requestId: uint32, code: nat, message: Plain, fatal: bool)
    ensures Value(Error(requestId, code, message, fatal), ERR) == Some(Decimal(code))
  {
    hide TokenValue, Value, Join, Decimal;
    ErrorTokensPlain(requestId, code, message, fatal);
    var tokens := ErrorTokens(requestId, code, message, fatal);
    ReplyValue(tokens, ERR);
    assert Ascii("err") == ERR && |Ascii("error")| == 5;
    TokenIs(tokens, ERR, 3);
  }

  lemma MessagesPlain(name: Plain)
    ensures BACKSLASH !in INVALID_QUERY && NUL !in INVALID_QUERY
    ensures BACKSLASH !in NAME_IN_USE && NUL !in NAME_IN_USE
    ensures BACKSLASH !in INCORRECT && NUL !in INCORRECT
    ensures BACKSLASH !in UnknownName(name) && NUL !in UnknownName(name)
  {
    hide Ascii;
    AsciiPlain("Invalid Query!");
    AsciiPlain("Username [");
    AsciiPlain("] doesn't exist!");
    AsciiPlain("The password provided is incorrect.");
    AsciiPlain("This account name is already in use!");
  }

  /** A refused login tells why: no valid query, no such name, or the wrong response. */
  lemma LoginVerdict(t: Table, s: Session, packet: Text)
    requires s.phase == Authenticating && !LogsIn(t, s, packet)
    ensures var credentials := ReadCredentials(packet);
      Value(OnLogin(t, s, packet).reply, ERR) == Some(Decimal(
        if credentials.None? then 0
        else if forall row :: row in t.rows ==> row.name != credentials.value.name then 265
        else 260))
  {
    hide FindRow, ReadCredentials, Responds, Error, Value, Ascii, Decimal;
    var credentials := ReadCredentials(packet);
    var name: Plain := if credentials.Some? then credentials.value.name else [];
    MessagesPlain(name);
    ErrorReads(1, 0, INVALID_QUERY, true);
    ErrorReads(1, 265, UnknownName(name), true);
    ErrorReads(1, 260, INCORRECT, true);
  }

  /** A name that is in use is refused as such, whatever the password. */
  lemma NewUserVerdict(t: Table, s: Session, packet: Text)
    requires s.phase == Authenticating && ReadRegistration(packet).Some?
    requires exists row :: row in t.rows && row.name == ReadRegistration(packet).value.nick
    ensures Value(OnNewUser(t, s, packet).reply, ERR) == Some(Decimal(516))
  {
    hide FindRow, ReadRegistration, Error, Value, Ascii, Decimal, Passwords.PassDecode;
    MessagesPlain([]);
    ErrorReads(1, 516, NAME_IN_USE, true);
  }

  lemma {:induction false} HexTextPlain(octets: seq<bv8>)
    ensures forall i :: 0 <= i < |Md5.HexText(octets)| ==> Md5.HexText(octets)[i] in Md5.HEX_CHARS
  {
    hide Md5.HexChar;
    if octets != [] {
      assert Md5.HexChar(octets[0] >> 4) in Md5.HEX_CHARS by { HexCharIn(octets[0] >> 4); }
      assert Md5.HexChar(octets[0] & 0xf) in Md5.HEX_CHARS by { HexCharIn(octets[0] & 0xf); }
      HexTextPlain(octets[1..]);
    }
  }

  lemma HexCharIn(nibble: bv8)
    requires nibble < 16
    ensures Md5.HexChar(nibble) in Md5.HEX_CHARS
  {
  }

  lemma Md5TextPlain(text: Text)
    ensures |Md5Text(text)| == 32 && BACKSLASH !in Md5Text(text) && NUL !in Md5Text(text)
  {
    hide Md5.Digested, Md5.HexText;
    var message: seq<bv8> := seq(|text|, i requires 0 <= i < |text| => text[i] as bv8);
    var octets := Md5.DigestOctets(Md5.Digested(Md5.INITIAL, message));
    HexTextPlain(octets);
    Md5.HexTextLength(octets);
    var hex := Md5.HexText(octets);
    forall i | 0 <= i < |hex| ensures 0 < hex[i] as int < 0x5C || 0x5C < hex[i] as int < 0x80 {
      assert hex[i] in Md5.HEX_CHARS;
    }
    AsciiPlain(hex);
  }

  lemma LoginTokensPlain(player: Player, session: bv16, ticket: Plain, proof: Plain)
    ensures LoginTokens(player, session, ticket, proof) != [] && AllPlain(LoginTokens(player, session, ticket, proof))
  {
    hide Ascii, Decimal;
    DecimalIsPlain(session as int);
    DecimalIsPlain(player.id);
    AsciiPlain("lc");
    AsciiPlain("2");
    AsciiPlain("sesskey");
    AsciiPlain("userid");
    AsciiPlain("profileid");
    AsciiPlain("uniquenick");
    AsciiPlain("lt");
    AsciiPlain("proof");
    AsciiPlain("id");
    AsciiPlain("1");
    AsciiPlain("final");
  }

  lemma TokenOfProof(player: Player, session: bv16, ticket: Plain, proof: Plain)
    ensures TokenValue(LoginTokens(player, session, ticket, proof), PROOF)
         == Some(if player.name == PROOF then Ascii("lt") else if ticket == PROOF then Ascii("proof") else proof)
  {
    hide Decimal, TokenValue;
    DecimalIsPlain(player.id);
    DecimalIsPlain(session as int);
    assert Ascii("proof") == PROOF;
    assert Ascii("lc")[0] != PROOF[0] && Ascii("2")[0] != PROOF[0] && Ascii("sesskey")[0] != PROOF[0];
    assert Ascii("userid")[0] != PROOF[0] && |Ascii("profileid")| == 9 && Ascii("uniquenick")[0] != PROOF[0];
    assert Ascii("lt")[0] != PROOF[0];
    TokenIs(LoginTokens(player, session, ticket, proof), PROOF,
            if player.name == PROOF then 10 else if ticket == PROOF then 12 else 13);
  }

  /**
   A successful login also proves the server to the client: the client reads a proof made from
   the password and both challenges, in the opposite order, exactly when neither its name nor
   the ticket is the word "proof" itself.
   */
  lemma LoginProof(t: Table, s: Session, packet: Text)
    requires LogsIn(t, s, packet)
    ensures var credentials := ReadCredentials(packet).value;
      var password := FindRow(t.rows, credentials.name).value.password;
      (Value(OnLogin(t, s, packet).reply, PROOF)
       == Some(GenerateChallenge(credentials.name, password, s.serverChallenge, credentials.challenge)))
      <==> credentials.name != PROOF && s.ticket != PROOF
  {
    hide FindRow, ReadCredentials, Responds, Error, Value, Ascii, Decimal, Crc, Md5Text, Join, TokenValue, LoginTokens;
    var credentials := ReadCredentials(packet).value;
    var player := FindRow(t.rows, credentials.name).value;
    Md5TextPlain(player.password + seq(48, _ => SPACE) + player.name + s.serverChallenge + credentials.challenge
                 + player.password);
    var proof: Plain := GenerateChallenge(player.name, player.password, s.serverChallenge, credentials.challenge);
    LoginTokensPlain(player, Crc(credentials.name), s.ticket, proof);
    ReplyValue(LoginTokens(player, Crc(credentials.name), s.ticket, proof), PROOF);
    TokenOfProof(player, Crc(credentials.name), s.ticket, proof);
  }

  // ---- the session object ----

  method LookUp(packet: Text, name: Text) returns (value: Option<Plain>)
    ensures value == Value(packet, name)
  {
    var found := Lookup(packet, KeyFor(name));
    value := if found.Some? then Some(found.value) else None;
  }

  class LoginClient {
    const players: PlayerTable
    var phase: Phase
    var player: Option<Player>
    var serverChallenge: Plain
    var ticket: Plain

    ghost predicate Valid()
      reads this
    {
      phase == Authenticated ==> player.Some?
    }

    function Current(): Session
      requires Valid()
      reads this
    {
      Session(phase, player, serverChallenge, ticket)
    }

    constructor (players: PlayerTable)
      ensures Valid() && this.players == players
      ensures Current() == Session(Initializing, None, [], [])
    {
      this.players := players;
      phase, player, serverChallenge, ticket := Initializing, None, [], [];
    }

    /** A new challenge opens the session. */
    method SendChallenge(challenge: Plain, ticket: Plain) returns (reply: Text)
      requires Valid() && phase == Initializing && player.None?
      modifies this
      ensures Valid() && Current() == Greeted(challenge, ticket) && reply == ChallengeReply(Current())
      ensures Value(reply, CHALLENGE) == Some(challenge)
    {
      hide ChallengeReply, Value;
      serverChallenge, this.ticket := challenge, ticket;
      phase := Authenticating;
      reply := ChallengeReply(Current());
      GreetingReads(Current());
    }

    method HandleLogin(packet: Text) returns (reply: Text)
      requires Valid()
      modifies this
      ensures Valid()
      ensures Outcome(players.Current(), Some(Current()), reply) == old(OnLogin(players.Current(), Current(), packet))
    {
      hide Error, LoginReply, GenerateChallenge, Crc, FindRow, Value, Ascii;
      if phase != Authenticating {
        return [];
      }
      var uniqueNick := LookUp(packet, Ascii("uniquenick"));
      var user := LookUp(packet, Ascii("user"));
      var challenge := LookUp(packet, Ascii("challenge"));
      var response := LookUp(packet, Ascii("response"));
      if (uniqueNick.None? && user.None?) || challenge.None? || response.None? {
        return Error(1, 0, INVALID_QUERY, true);
      }
      var name := if uniqueNick.Some? then uniqueNick.value else user.value;
      if name == [] {
        return Error(1, 0, INVALID_QUERY, true);
      }
      var known := players.HasPlayer(name);
      if !known {
        return Error(1, 265, UnknownName(name), true);
      }
      var found := players.GetPlayerByName(name);
      if response.value != GenerateChallenge(name, found.value.password, challenge.value, serverChallenge) {
        return Error(1, 260, INCORRECT, true);
      }
      player := found;
      var proof := GenerateChallenge(found.value.name, found.value.password, serverChallenge, challenge.value);
      reply := LoginReply(found.value, Crc(name), ticket, proof);
      phase := Authenticated;
    }

    /** `thrown` where decoding the password throws, which ends the session. */
    method HandleNewUser(packet: Text) returns (reply: Text, thrown: bool)
      requires Valid()
      modifies this, players
      ensures Valid()
      ensures Outcome(players.Current(), if thrown then None else Some(Current()), reply)
           == old(OnNewUser(players.Current(), Current(), packet))
    {
      hide Error, RegistrationOutcome, FindRow, Value, Ascii, Passwords.PassDecode, UnknownName;
      reply, thrown := [], false;
      if phase != Authenticating {
        return Error(1, 0, INVALID_QUERY, true), false;
      }
      var email := LookUp(packet, Ascii("email"));
      var nick := LookUp(packet, Ascii("nick"));
      var passwordEnc := LookUp(packet, Ascii("passwordenc"));
      if email.None? || nick.None? || passwordEnc.None? {
        return Error(1, 0, INVALID_QUERY, true), false;
      }
      var taken := players.HasPlayer(nick.value);
      if taken {
        return Error(1, 516, NAME_IN_USE, true), false;
      }
      var password := Passwords.PasswordDecode(passwordEnc.value);
      if password.None? {
        return [], true;
      }
      reply := Register(Registration(email.value, nick.value, passwordEnc.value), password.value);
    }

    /** The last part of a registration: the length of the password, and the new row. */
    method Register(registration: Registration, password: seq<byte>) returns (reply: Text)
      requires Valid() && phase == Authenticating && FindRow(players.rows, registration.nick).None?
      modifies this`player, players
      ensures Valid()
      ensures Outcome(players.Current(), Some(Current()), reply)
           == old(RegistrationOutcome(players.Current(), Current(), registration, password))
    {
      hide Error, CreatedReply, FindRow, Ascii, Md5Text;
      if |password| < 3 {
        reply := Error(1, 0, Ascii("The password is too short, must be 3 characters at least!"), true);
      } else if |password| > 30 {
        reply := Error(1, 0, Ascii("The password is too long, must be 30 characters at most!"), true);
      } else {
        var created := Player(0, registration.nick, registration.email, Md5Text(password), UNKNOWN_COUNTRY);
        var id := players.CreatePlayer(created);
        player := Some(created.(id := id.value));
        reply := CreatedReply(id.value);
      }
    }

    method HandleGetProfile(packet: Text) returns (reply: Text)
      requires Valid()
      ensures Outcome(players.Current(), Some(Current()), reply) == OnGetProfile(players.Current(), Current(), packet)
    {
      hide Error, Join, ProfileTokens, NumberForKey;
      var requestId := NumberForKey(packet, KeyFor(Ascii("id")));
      if requestId.None? {
        return Error(0, 0, INVALID_QUERY, true);
      }
      if phase != Authenticated {
        return Error(requestId.value, 0, INVALID_QUERY, true);
      }
      reply := Join(ProfileTokens(requestId.value, player.value, ticket));
    }

    method HandleUpdateProfile(packet: Text) returns (reply: Text)
      requires Valid()
      modifies this, players
      ensures Valid()
      ensures Outcome(players.Current(), Some(Current()), reply)
           == old(OnUpdateProfile(players.Current(), Current(), packet))
    {
      hide Error, Value, UpperText, Ascii, Updated;
      reply := [];
      if phase != Authenticated {
        return Error(NO_REQUEST, 0, INVALID_QUERY, true);
      }
      var country := LookUp(packet, Ascii("countrycode"));
      if country.Some? {
        player := Some(player.value.(country := UpperText(country.value)));
        players.UpdatePlayer(player.value);
      }
    }

    /** One packet, dispatched by how it begins; `open` is false when the session ends. */
    method Process(packet: Text) returns (reply: Text, open: bool)
      requires Valid()
      modifies this, players
      ensures Valid()
      ensures Outcome(players.Current(), if open then Some(Current()) else None, reply)
           == old(OnRequest(players.Current(), Current(), packet))
    {
      hide OnLogin, OnNewUser, OnGetProfile, OnUpdateProfile, Error;
      open := true;
      if LOGIN <= packet {
        reply := HandleLogin(packet);
      } else if NEWUSER <= packet {
        var thrown;
        reply, thrown := HandleNewUser(packet);
        open := !thrown;
      } else if GETPROFILE <= packet {
        reply := HandleGetProfile(packet);
      } else if UPDATEPRO <= packet {
        reply := HandleUpdateProfile(packet);
      } else if LOGOUT <= packet {
        reply, open := [], false;
      } else {
        reply := Error(0, 0, INVALID_QUERY, false);
      }
    }
  }
}

/** The master server: game servers announce themselves, prove that they know a key, and are listed. */
module Master {
  import opened Bytes
  import Base64
  import Challenge
  import Qr

  // ---- state ----

  datatype Endpoint = Endpoint(ip: uint32, port: uint16)

  datatype Availability = Available | DisabledTemporary | DisabledPermanently

  datatype GameData = GameData(secretKey: Text, backend: uint16, availability: Availability)

  /** A game is not accepted without a secret key. */
  type Game = g: GameData | g.secretKey != [] witness GameData([0], 0, Available)

  type Values = map<Text, Text>

  /** What is remembered of a game server; times count nanoseconds. */
  datatype Entry = Entry(lastUpdate: int, proof: Text, instance: seq<byte>, gamename: Text, values: Values)

  type Servers = map<Endpoint, Entry>

  /** A row in the server table of a game. */
  datatype Place = Place(game: Text, server: Endpoint)

  datatype State = State(awaiting: Servers, validated: Servers, listed: map<Place, Values>)

  const EMPTY := State(map[], map[], map[])

  const GAMENAME: Text := Ascii("gamename")
  const SECOND: int := 1_000_000_000
  const TIMEOUT: int := 60

  // ---- steps ----

  /** The table refuses rows without a port; it may also refuse the keys of the server data. */
  predicate Stores(client: Endpoint, accepted: bool) {
    client.port != 0 && accepted
  }

  function Expected(game: Game, client: Endpoint, prefix: Text): Text {
    Challenge.Encode(game.secretKey, Challenge.ResponseData(prefix, game.backend, client.ip, client.port))
  }

  predicate Known(games: map<Text, Game>, values: Values) {
    GAMENAME in values && values[GAMENAME] in games
  }

  function OnHeartbeat(games: map<Text, Game>, s: State, now: int, client: Endpoint,
                       heartbeat: Qr.Heartbeat, prefix: Text, accepted: bool): State
  {
    var values := heartbeat.serverData;
    if !Known(games, values) then s
    else
      var gamename := values[GAMENAME];
      if client in s.validated then
        if Stores(client, accepted) then s.(listed := s.listed[Place(gamename, client) := values]) else s
      else if client !in s.awaiting then
        var proof := Expected(games[gamename], client, prefix);
        s.(awaiting := s.awaiting[client := Entry(now, proof, heartbeat.instance, gamename, values)])
      else
        s.(awaiting := s.awaiting[client := s.awaiting[client].(lastUpdate := now, values := values)])
  }

  function OnKeepAlive(s: State, now: int, client: Endpoint): State {
    if client in s.awaiting then
      s.(awaiting := s.awaiting[client := s.awaiting[client].(lastUpdate := now)])
    else if client in s.validated then
      s.(validated := s.validated[client := s.validated[client].(lastUpdate := now)])
    else s
  }

  /** When the table refuses the row, the handler ends before it forgets the challenge. */
  function OnAnswer(s: State, client: Endpoint, answer: Text, accepted: bool): State {
    if client !in s.awaiting then s
    else
      var entry := s.awaiting[client];
      if entry.proof != answer then s.(awaiting := s.awaiting - {client})
      else
        var validated := if client in s.validated then s.validated else s.validated[client := entry];
        if Stores(client, accepted) then
          State(s.awaiting - {client}, validated, s.listed[Place(entry.gamename, client) := entry.values])
        else s.(validated := validated)
  }

  /** Whole seconds since the last update, rounded towards zero. */
  function Age(now: int, lastUpdate: int): int {
    if now >= lastUpdate then (now - lastUpdate) / SECOND else -((lastUpdate - now) / SECOND)
  }

  predicate Expired(entry: Entry, now: int) {
    Age(now, entry.lastUpdate) > TIMEOUT
  }

  function Kept(servers: Servers, now: int): Servers {
    map e | e in servers && !Expired(servers[e], now) :: servers[e]
  }

  predicate Unlists(servers: Servers, now: int, p: Place) {
    p.server in servers && Expired(servers[p.server], now) && servers[p.server].gamename == p.game
  }

  function Remaining(listed: map<Place, Values>, servers: Servers, now: int): map<Place, Values> {
    map p | p in listed && !Unlists(servers, now, p) :: listed[p]
  }

  function OnTimer(s: State, now: int): State {
    State(Kept(s.awaiting, now), Kept(s.validated, now),
          Remaining(Remaining(s.listed, s.awaiting, now), s.validated, now))
  }

  // ---- runs ----

  /**
   A datagram, with what the outside world contributes: the bytes left in the receive buffer
   behind it, the random prefix of a new challenge, and whether the table accepts an update.
   */
  datatype Event =
    | Datagram(now: int, client: Endpoint, bytes: seq<byte>, leftover: Text, prefix: Text, accepted: bool)
    | Timer(now: int)

  const CHALLENGE: byte := 1
  const HEARTBEAT: byte := 3
  const KEEPALIVE: byte := 8
  const PREQUERY: byte := 9

  datatype Signal = Nothing | Heartbeat(heartbeat: Qr.Heartbeat) | KeepAlive | Answer(text: Text) | Query(game: Text)

  /** The answer is read up to the first NUL; a packet without data leaves what was there before. */
  function AnswerText(data: seq<byte>, leftover: Text): Text {
    if data == [] then leftover else data[..FindByte(data, NUL)]
  }

  /** All but the NUL at the end. */
  function GameName(data: seq<byte>): Text
    requires data != []
  {
    data[..|data| - 1]
  }

  function SignalOf(bytes: seq<byte>, leftover: Text): Signal {
    var packet := Qr.ParsePacket(bytes);
    if packet.Err? then Nothing
    else if packet.value.kind == HEARTBEAT then
      var heartbeat := Qr.ParseHeartbeat(packet.value);
      if heartbeat.Err? then Nothing else Heartbeat(heartbeat.value)
    else if packet.value.kind == KEEPALIVE then KeepAlive
    else if packet.value.kind == CHALLENGE then Answer(AnswerText(packet.value.data, leftover))
    else if packet.value.kind == PREQUERY && packet.value.data != [] then Query(GameName(packet.value.data))
    else Nothing
  }

  function Sent(ev: Event): Signal {
    if ev.Timer? then Nothing else SignalOf(ev.bytes, ev.leftover)
  }

  function Step(games: map<Text, Game>, s: State, ev: Event): State {
    match ev
    case Timer(now) => OnTimer(s, now)
    case Datagram(now, client, bytes, leftover, prefix, accepted) =>
      match Sent(ev)
      case Nothing => s
      case Heartbeat(heartbeat) => OnHeartbeat(games, s, now, client, heartbeat, prefix, accepted)
      case KeepAlive => OnKeepAlive(s, now, client)
      case Answer(text) => OnAnswer(s, client, text, accepted)
      case Query(_) => s
  }

  function After(games: map<Text, Game>, s: State, run: seq<Event>): State {
    if run == [] then s else Step(games, After(games, s, run[..|run| - 1]), run[|run| - 1])
  }

  lemma AfterPrefix(games: map<Text, Game>, s: State, run: seq<Event>, k: nat)
    requires k < |run|
    ensures After(games, s, run[..k + 1]) == Step(games, After(games, s, run[..k]), run[k])
  {
    assert run[..k + 1][..k] == run[..k];
  }

  // ---- one endpoint at a time ----

  /** The datagram is a heartbeat from `e` for a game that is served. */
  predicate Announces(games: map<Text, Game>, ev: Event, e: Endpoint) {
    ev.Datagram? && ev.client == e && Sent(ev).Heartbeat? && Known(games, Sent(ev).heartbeat.serverData)
  }

  predicate Refreshes(ev: Event, e: Endpoint) {
    ev.Datagram? && ev.client == e && Sent(ev).KeepAlive?
  }

  predicate Answers(ev: Event, e: Endpoint) {
    ev.Datagram? && ev.client == e && Sent(ev).Answer?
  }

  function Announced(ev: Event): Values
    requires Sent(ev).Heartbeat?
  {
    Sent(ev).heartbeat.serverData
  }

  function ProofFor(games: map<Text, Game>, ev: Event): Text
    requires ev.Datagram? && Announces(games, ev, ev.client)
  {
    Expected(games[Announced(ev)[GAMENAME]], ev.client, ev.prefix)
  }

  /** An endpoint starts to wait only by a heartbeat while it is unknown; it is asked for that heartbeat's proof. */
  lemma StartsWaiting(games: map<Text, Game>, s: State, ev: Event, e: Endpoint)
    ensures e !in s.awaiting ==>
      (e in Step(games, s, ev).awaiting <==> e !in s.validated && Announces(games, ev, e))
    ensures e !in s.awaiting && e in Step(games, s, ev).awaiting ==>
      Step(games, s, ev).awaiting[e]
        == Entry(ev.now, ProofFor(games, ev), Sent(ev).heartbeat.instance, Announced(ev)[GAMENAME], Announced(ev))
  {
    hide SignalOf, Expected, Expired;
  }

  /** While it waits, proof, game and instance stay; its heartbeats change values and time, keepalives the time. */
  lemma KeepsWaiting(games: map<Text, Game>, s: State, ev: Event, e: Endpoint)
    requires e in s.awaiting && e in Step(games, s, ev).awaiting
    ensures var announces := Announces(games, ev, e) && e !in s.validated;
      Step(games, s, ev).awaiting[e] == s.awaiting[e].(
        values := if announces then Announced(ev) else s.awaiting[e].values,
        lastUpdate := if announces || Refreshes(ev, e) then ev.now else s.awaiting[e].lastUpdate)
  {
    hide SignalOf, Expected, OnTimer, Age, Consistent;
    if ev.Timer? {
      TimerRemoves(s, ev.now);
    }
  }

  /** It stops waiting exactly by an answer, unless a right one finds its row refused, or by a timeout. */
  lemma StopsWaiting(games: map<Text, Game>, s: State, ev: Event, e: Endpoint)
    requires e in s.awaiting
    ensures e !in Step(games, s, ev).awaiting <==>
      || (Answers(ev, e) && (Sent(ev).text != s.awaiting[e].proof || Stores(e, ev.accepted)))
      || (ev.Timer? && Expired(s.awaiting[e], ev.now))
  {
    hide SignalOf, Expected, OnTimer, Age, Consistent;
    if ev.Timer? {
      TimerRemoves(s, ev.now);
    }
  }

  /** An endpoint becomes validated only by the right answer, and keeps the time of its last refresh. */
  lemma BecomesValidated(games: map<Text, Game>, s: State, ev: Event, e: Endpoint)
    requires e !in s.validated
    ensures e in Step(games, s, ev).validated <==>
      Answers(ev, e) && e in s.awaiting && Sent(ev).text == s.awaiting[e].proof
    ensures e in Step(games, s, ev).validated ==> Step(games, s, ev).validated[e] == s.awaiting[e]
  {
    hide SignalOf, Expected, OnTimer, Age, Consistent;
    if ev.Timer? {
      TimerRemoves(s, ev.now);
    }
  }

  /** Only keepalives change a validated entry, only in their time, and only the timer removes it. */
  lemma StaysValidated(games: map<Text, Game>, s: State, ev: Event, e: Endpoint)
    requires e in s.validated
    ensures e in Step(games, s, ev).validated <==> !(ev.Timer? && Expired(s.validated[e], ev.now))
    ensures e in Step(games, s, ev).validated ==>
      Step(games, s, ev).validated[e]
        == if Refreshes(ev, e) && e !in s.awaiting then s.validated[e].(lastUpdate := ev.now) else s.validated[e]
  {
    hide SignalOf, Expected, OnTimer, Age, Consistent;
    if ev.Timer? {
      TimerRemoves(s, ev.now);
    }
  }

  /** A row appears or changes only by the right answer or by a heartbeat of a validated endpoint. */
  lemma Lists(games: map<Text, Game>, s: State, ev: Event, p: Place)
    requires p in Step(games, s, ev).listed
    ensures (p in s.listed && Step(games, s, ev).listed[p] == s.listed[p])
         || (Announces(games, ev, p.server) && p.server in s.validated
             && p.game == Announced(ev)[GAMENAME] && Step(games, s, ev).listed[p] == Announced(ev))
         || (Answers(ev, p.server) && p.server in s.awaiting && Sent(ev).text == s.awaiting[p.server].proof
             && p.game == s.awaiting[p.server].gamename && Step(games, s, ev).listed[p] == s.awaiting[p.server].values)
  {
    hide SignalOf, Expected, OnHeartbeat, OnKeepAlive, OnAnswer, OnTimer, Known, Consistent;
    if ev.Timer? {
      TimerRemoves(s, ev.now);
    } else {
      match Sent(ev)
      case Nothing =>
      case Heartbeat(heartbeat) =>
        HeartbeatLists(games, s, ev.now, ev.client, heartbeat, ev.prefix, ev.accepted, p);
      case KeepAlive => KeepAliveLists(s, ev.now, ev.client);
      case Answer(text) => AnswerRow(s, ev.client, text, ev.accepted, p);
      case Query(_) =>
    }
  }

  lemma HeartbeatLists(games: map<Text, Game>, s: State, now: int, client: Endpoint, heartbeat: Qr.Heartbeat,
                       prefix: Text, accepted: bool, p: Place)
    requires p in OnHeartbeat(games, s, now, client, heartbeat, prefix, accepted).listed
    ensures var after, values := OnHeartbeat(games, s, now, client, heartbeat, prefix, accepted), heartbeat.serverData;
      || (p in s.listed && after.listed[p] == s.listed[p])
      || (Known(games, values) && client in s.validated && p == Place(values[GAMENAME], client)
          && after.listed[p] == values)
  {
    hide Expected;
  }

  lemma KeepAliveLists(s: State, now: int, client: Endpoint)
    ensures OnKeepAlive(s, now, client).listed == s.listed
  {
  }

  lemma AnswerRow(s: State, client: Endpoint, answer: Text, accepted: bool, p: Place)
    requires p in OnAnswer(s, client, answer, accepted).listed
    ensures var after := OnAnswer(s, client, answer, accepted);
      || (p in s.listed && after.listed[p] == s.listed[p])
      || (client in s.awaiting && answer == s.awaiting[client].proof
          && p == Place(s.awaiting[client].gamename, client) && after.listed[p] == s.awaiting[client].values)
  {
  }

  // ---- the listing agrees with the validated servers ----

  /** No endpoint is in both maps, and the rows are those of the validated endpoints in their own games. */
  ghost predicate Consistent(s: State) {
    && (forall e :: e in s.awaiting ==> e !in s.validated)
    && (forall p :: p in s.listed <==> p.server in s.validated && s.validated[p.server].gamename == p.game)
  }

  /** A validated endpoint announces itself for another game, and that game's table takes the row. */
  predicate Renames(games: map<Text, Game>, s: State, ev: Event) {
    && ev.Datagram? && Announces(games, ev, ev.client) && ev.client in s.validated
    && Announced(ev)[GAMENAME] != s.validated[ev.client].gamename && Stores(ev.client, ev.accepted)
  }

  /** An endpoint answers correctly, but the table does not take its row. */
  predicate Loses(s: State, ev: Event) {
    && ev.Datagram? && Answers(ev, ev.client) && ev.client in s.awaiting
    && Sent(ev).text == s.awaiting[ev.client].proof && !Stores(ev.client, ev.accepted)
  }

  predicate Breaks(games: map<Text, Game>, s: State, ev: Event) {
    Renames(games, s, ev) || Loses(s, ev)
  }

  /** One step keeps the agreement exactly when it is neither of these two. */
  lemma ConsistentStep(games: map<Text, Game>, s: State, ev: Event)
    requires Consistent(s)
    ensures Consistent(Step(games, s, ev)) <==> !Breaks(games, s, ev)
  {
    hide SignalOf, Expected, Expired;
    var after := Step(games, s, ev);
    if Renames(games, s, ev) {
      assert Place(Announced(ev)[GAMENAME], ev.client) in after.listed;
    } else if Loses(s, ev) {
      assert ev.client in after.awaiting && ev.client in after.validated;
    } else {
      KeepsConsistent(games, s, ev);
    }
  }

  lemma KeepsConsistent(games: map<Text, Game>, s: State, ev: Event)
    requires Consistent(s) && !Breaks(games, s, ev)
    ensures Consistent(Step(games, s, ev))
  {
    hide SignalOf, Consistent, Expected, OnHeartbeat, OnKeepAlive, OnAnswer, OnTimer, Stores, Known;
    match Sent(ev)
    case Nothing =>
      if ev.Timer? {
        TimerKeepsConsistent(s, ev.now);
      }
    case Heartbeat(heartbeat) =>
      HeartbeatKeepsConsistent(games, s, ev.now, ev.client, heartbeat, ev.prefix, ev.accepted);
    case KeepAlive =>
      KeepAliveKeepsConsistent(s, ev.now, ev.client);
    case Answer(text) =>
      AnswerKeepsConsistent(s, ev.client, text, ev.accepted);
    case Query(_) =>
  }

  lemma HeartbeatKeepsConsistent(games: map<Text, Game>, s: State, now: int, client: Endpoint,
                                 heartbeat: Qr.Heartbeat, prefix: Text, accepted: bool)
    requires Consistent(s)
    requires Known(games, heartbeat.serverData) && client in s.validated && Stores(client, accepted) ==>
      heartbeat.serverData[GAMENAME] == s.validated[client].gamename
    ensures Consistent(OnHeartbeat(games, s, now, client, heartbeat, prefix, accepted))
  {
    hide Expected;
  }

  lemma KeepAliveKeepsConsistent(s: State, now: int, client: Endpoint)
    requires Consistent(s)
    ensures Consistent(OnKeepAlive(s, now, client))
  {
  }

  lemma AnswerKeepsConsistent(s: State, client: Endpoint, answer: Text, accepted: bool)
    requires Consistent(s)
    requires client in s.awaiting && answer == s.awaiting[client].proof ==> Stores(client, accepted)
    ensures Consistent(OnAnswer(s, client, answer, accepted))
  {
  }

  lemma TimerKeepsConsistent(s: State, now: int)
    requires Consistent(s)
    ensures Consistent(OnTimer(s, now))
  {
    hide Expired;
  }

  /** The state of a run before its step `k`. */
  function At(games: map<Text, Game>, run: seq<Event>, k: nat): State
    requires k <= |run|
  {
    After(games, EMPTY, run[..k])
  }

  ghost predicate ConsistentUpTo(games: map<Text, Game>, run: seq<Event>, n: nat)
    requires n <= |run|
  {
    forall k :: 0 <= k <= n ==> Consistent(At(games, run, k))
  }

  ghost predicate UnbrokenUpTo(games: map<Text, Game>, run: seq<Event>, n: nat)
    requires n <= |run|
  {
    forall k :: 0 <= k < n ==> !Breaks(games, At(games, run, k), run[k])
  }

  /** Over whole runs: the agreement holds in every state exactly when no step of the run is one of these two. */
  lemma {:induction false} ConsistentRun(games: map<Text, Game>, run: seq<Event>, n: nat)
    requires n <= |run|
    ensures ConsistentUpTo(games, run, n) <==> UnbrokenUpTo(games, run, n)
  {
    hide At, Consistent, Step, Breaks, After;
    if n == 0 {
      StartsEmpty(games, run);
      EmptyConsistent();
    } else {
      ConsistentRun(games, run, n - 1);
      NextState(games, run, n - 1);
      if Consistent(At(games, run, n - 1)) {
        ConsistentStep(games, At(games, run, n - 1), run[n - 1]);
      }
    }
  }

  lemma NextState(games: map<Text, Game>, run: seq<Event>, k: nat)
    requires k < |run|
    ensures At(games, run, k + 1) == Step(games, At(games, run, k), run[k])
  {
    hide Step;
    AfterPrefix(games, EMPTY, run, k);
  }

  lemma StartsEmpty(games: map<Text, Game>, run: seq<Event>)
    ensures At(games, run, 0) == EMPTY
  {
  }

  lemma EmptyConsistent()
    ensures Consistent(EMPTY)
  {
  }

  // ---- nobody is listed without having proved the key ----

  /** Step `i` makes `e` wait, and it waits in every state from then on up to the one before step `n`. */
  ghost predicate Waiting(games: map<Text, Game>, run: seq<Event>, e: Endpoint, i: nat, n: nat)
    requires n <= |run|
  {
    && i < n && Announces(games, run[i], e)
    && e !in At(games, run, i).awaiting && e !in At(games, run, i).validated
    && forall k :: i < k <= n ==> e in At(games, run, k).awaiting
  }

  /** Step `i` makes `e` wait for a proof, and step `j` gives exactly that proof. */
  ghost predicate Proved(games: map<Text, Game>, run: seq<Event>, e: Endpoint, i: nat, j: nat) {
    && i < j < |run| && Waiting(games, run, e, i, j)
    && Answers(run[j], e) && Sent(run[j]).text == ProofFor(games, run[i])
  }

  lemma WaitingStarts(games: map<Text, Game>, run: seq<Event>, e: Endpoint, i: nat)
    requires i < |run| && e !in At(games, run, i).awaiting && e in At(games, run, i + 1).awaiting
    ensures Waiting(games, run, e, i, i + 1)
    ensures At(games, run, i + 1).awaiting[e].proof == ProofFor(games, run[i])
    ensures At(games, run, i + 1).awaiting[e].gamename == Announced(run[i])[GAMENAME]
  {
    NextState(games, run, i);
    hide At, Step, ProofFor;
    StartsWaiting(games, At(games, run, i), run[i], e);
  }

  lemma WaitingGoesOn(games: map<Text, Game>, run: seq<Event>, e: Endpoint, i: nat, n: nat)
    requires n < |run| && Waiting(games, run, e, i, n) && e in At(games, run, n + 1).awaiting
    ensures Waiting(games, run, e, i, n + 1)
  {
    hide At, Announces;
  }

  lemma EntryGoesOn(games: map<Text, Game>, run: seq<Event>, e: Endpoint, n: nat)
    requires n < |run| && e in At(games, run, n).awaiting && e in At(games, run, n + 1).awaiting
    ensures var before, after := At(games, run, n).awaiting[e], At(games, run, n + 1).awaiting[e];
      after.proof == before.proof && after.gamename == before.gamename
  {
    NextState(games, run, n);
    hide At, Step, Announces;
    KeepsWaiting(games, At(games, run, n), run[n], e);
  }

  /** Every waiting endpoint waits since some heartbeat, and for that heartbeat's proof. */
  lemma {:induction false} WaitingSince(games: map<Text, Game>, run: seq<Event>, n: nat, e: Endpoint) returns (i: nat)
    requires n <= |run| && e in At(games, run, n).awaiting
    ensures Waiting(games, run, e, i, n)
    ensures At(games, run, n).awaiting[e].proof == ProofFor(games, run[i])
    ensures At(games, run, n).awaiting[e].gamename == Announced(run[i])[GAMENAME]
    decreases n
  {
    StartsEmpty(games, run);
    hide At, ProofFor, Waiting, Announces;
    if e in At(games, run, n - 1).awaiting {
      i := WaitingSince(games, run, n - 1, e);
      WaitingGoesOn(games, run, e, i, n - 1);
      EntryGoesOn(games, run, e, n - 1);
    } else {
      i := n - 1;
      WaitingStarts(games, run, e, i);
    }
  }

  /** The right answer of a waiting endpoint is the proof it was last asked for. */
  lemma ProvedBy(games: map<Text, Game>, run: seq<Event>, e: Endpoint, j: nat) returns (i: nat)
    requires j < |run| && e in At(games, run, j).awaiting
    requires Answers(run[j], e) && Sent(run[j]).text == At(games, run, j).awaiting[e].proof
    ensures Proved(games, run, e, i, j) && At(games, run, j).awaiting[e].gamename == Announced(run[i])[GAMENAME]
  {
    hide At, ProofFor;
    i := WaitingSince(games, run, j, e);
  }

  lemma ValidationStarts(games: map<Text, Game>, run: seq<Event>, e: Endpoint, n: nat)
    requires n < |run| && e !in At(games, run, n).validated && e in At(games, run, n + 1).validated
    ensures e in At(games, run, n).awaiting && At(games, run, n + 1).validated[e] == At(games, run, n).awaiting[e]
    ensures Answers(run[n], e) && Sent(run[n]).text == At(games, run, n).awaiting[e].proof
  {
    NextState(games, run, n);
    hide At, Step;
    BecomesValidated(games, At(games, run, n), run[n], e);
  }

  lemma ValidationGoesOn(games: map<Text, Game>, run: seq<Event>, e: Endpoint, n: nat)
    requires n < |run| && e in At(games, run, n).validated && e in At(games, run, n + 1).validated
    ensures At(games, run, n + 1).validated[e].gamename == At(games, run, n).validated[e].gamename
  {
    NextState(games, run, n);
    hide At, Step;
    StaysValidated(games, At(games, run, n), run[n], e);
  }

  /** Step `j` validates `e`, which is validated in every state from then on up to the one before step `n`. */
  ghost predicate ValidatedFrom(games: map<Text, Game>, run: seq<Event>, e: Endpoint, j: nat, n: nat)
    requires n <= |run|
  {
    j < n && e !in At(games, run, j).validated && forall k :: j < k <= n ==> e in At(games, run, k).validated
  }

  lemma ValidatedOn(games: map<Text, Game>, run: seq<Event>, e: Endpoint, j: nat, n: nat)
    requires n < |run| && ValidatedFrom(games, run, e, j, n) && e in At(games, run, n + 1).validated
    ensures ValidatedFrom(games, run, e, j, n + 1)
  {
    hide At;
  }

  /**
   Every validated endpoint has been validated since it gave the proof it was last asked for
   before, and keeps the game it announced then.
   */
  lemma {:induction false} ValidatedSince(games: map<Text, Game>, run: seq<Event>, n: nat, e: Endpoint)
    returns (i: nat, j: nat)
    requires n <= |run| && e in At(games, run, n).validated
    ensures Proved(games, run, e, i, j) && ValidatedFrom(games, run, e, j, n)
    ensures At(games, run, n).validated[e].gamename == Announced(run[i])[GAMENAME]
    decreases n
  {
    StartsEmpty(games, run);
    hide At, ProofFor, Waiting, Announces, Answers;
    if e in At(games, run, n - 1).validated {
      i, j := ValidatedSince(games, run, n - 1, e);
      ValidatedOn(games, run, e, j, n - 1);
      ValidationGoesOn(games, run, e, n - 1);
    } else {
      j := n - 1;
      ValidationStarts(games, run, e, j);
      i := ProvedBy(games, run, e, j);
    }
  }

  /** Step `m` lists `p`, which is listed in every state from then on up to the one before step `n`. */
  ghost predicate ListedFrom(games: map<Text, Game>, run: seq<Event>, p: Place, m: nat, n: nat)
    requires n <= |run|
  {
    m < n && p !in At(games, run, m).listed && forall k :: m < k <= n ==> p in At(games, run, k).listed
  }

  lemma ListedOn(games: map<Text, Game>, run: seq<Event>, p: Place, m: nat, n: nat)
    requires n < |run| && ListedFrom(games, run, p, m, n) && p in At(games, run, n + 1).listed
    ensures ListedFrom(games, run, p, m, n + 1)
  {
    hide At;
  }

  /** Step `j` is the right answer that validates `e`; `e` is validated when step `m` comes, or that is step `j`. */
  ghost predicate Vouched(games: map<Text, Game>, run: seq<Event>, e: Endpoint, i: nat, j: nat, m: nat)
    requires m <= |run|
  {
    && Proved(games, run, e, i, j)
    && if j == m then e !in At(games, run, j).validated else ValidatedFrom(games, run, e, j, m)
  }

  /** What lists a row: the answer that validates its server, or some step while it has been validated. */
  lemma VouchedFor(games: map<Text, Game>, run: seq<Event>, p: Place, m: nat) returns (i: nat, j: nat)
    requires m < |run| && p !in At(games, run, m).listed && p in At(games, run, m + 1).listed
    ensures Vouched(games, run, p.server, i, j, m)
  {
    NextState(games, run, m);
    hide At, Step, ProofFor, Waiting, Announces, Answers;
    Lists(games, At(games, run, m), run[m], p);
    if p.server in At(games, run, m).validated {
      i, j := ValidatedSince(games, run, m, p.server);
    } else {
      j := m;
      i := ProvedBy(games, run, p.server, j);
    }
  }

  /**
   In every run, every row in the table of any game has been there since a step at which its
   server was validated, or became so, by the proof that it had then been asked for.
   */
  lemma {:induction false} ListedSince(games: map<Text, Game>, run: seq<Event>, n: nat, p: Place)
    returns (i: nat, j: nat, m: nat)
    requires n <= |run| && p in At(games, run, n).listed
    ensures ListedFrom(games, run, p, m, n) && Vouched(games, run, p.server, i, j, m)
    decreases n
  {
    StartsEmpty(games, run);
    hide At, Vouched;
    if p in At(games, run, n - 1).listed {
      i, j, m := ListedSince(games, run, n - 1, p);
      ListedOn(games, run, p, m, n - 1);
    } else {
      m := n - 1;
      i, j := VouchedFor(games, run, p, m);
    }
  }

  // ---- rows show the latest heartbeat ----

  /** The server data of the last heartbeat of `e` for a served game. */
  function Latest(games: map<Text, Game>, run: seq<Event>, n: nat, e: Endpoint): Values
    requires n <= |run|
  {
    if n == 0 then map[]
    else if Announces(games, run[n - 1], e) then Announced(run[n - 1])
    else Latest(games, run, n - 1, e)
  }

  predicate Accepting(ev: Event) {
    ev.Datagram? ==> Stores(ev.client, ev.accepted)
  }

  lemma {:induction false} WaitingShowsLatest(games: map<Text, Game>, run: seq<Event>, n: nat, e: Endpoint)
    requires n <= |run| && UnbrokenUpTo(games, run, n) && e in At(games, run, n).awaiting
    ensures At(games, run, n).awaiting[e].values == Latest(games, run, n, e)
  {
    hide At, Step, After, ProofFor, Consistent, Announces, Breaks;
    StartsEmpty(games, run);
    NextState(games, run, n - 1);
    ConsistentRun(games, run, n);
    var s := At(games, run, n - 1);
    assert Consistent(s);
    if e in s.awaiting {
      WaitingShowsLatest(games, run, n - 1, e);
      KeepsWaiting(games, s, run[n - 1], e);
      NotValidated(s, e);
    } else {
      StartsWaiting(games, s, run[n - 1], e);
    }
  }

  lemma NotValidated(s: State, e: Endpoint)
    requires Consistent(s) && e in s.awaiting
    ensures e !in s.validated
  {
  }

  /**
   While nothing breaks the agreement and the tables take the rows of this server's heartbeats,
   every row of the server shows its latest heartbeat.
   */
  lemma {:induction false} ListedShowsLatest(games: map<Text, Game>, run: seq<Event>, n: nat, p: Place)
    requires n <= |run| && UnbrokenUpTo(games, run, n) && p in At(games, run, n).listed
    requires forall k :: 0 <= k < n && Announces(games, run[k], p.server) ==> Accepting(run[k])
    ensures At(games, run, n).listed[p] == Latest(games, run, n, p.server)
  {
    hide At, Step, After, Consistent, Breaks, Stores, Accepting, Announces;
    StartsEmpty(games, run);
    NextState(games, run, n - 1);
    ConsistentRun(games, run, n);
    var s := At(games, run, n - 1);
    assert Consistent(s) && !Breaks(games, s, run[n - 1]);
    if p in s.listed {
      ListedShowsLatest(games, run, n - 1, p);
      ListedUpdates(games, s, run[n - 1], p);
    } else {
      NewlyListed(games, s, run[n - 1], p);
      WaitingShowsLatest(games, run, n - 1, p.server);
    }
  }

  lemma ListedUpdates(games: map<Text, Game>, s: State, ev: Event, p: Place)
    requires Consistent(s) && !Breaks(games, s, ev) && (Announces(games, ev, p.server) ==> Accepting(ev))
    requires p in s.listed && p in Step(games, s, ev).listed
    ensures Step(games, s, ev).listed[p] == if Announces(games, ev, p.server) then Announced(ev) else s.listed[p]
  {
    hide SignalOf, Expected, Expired;
    assert p.server in s.validated && s.validated[p.server].gamename == p.game;
  }

  lemma NewlyListed(games: map<Text, Game>, s: State, ev: Event, p: Place)
    requires Consistent(s) && !Breaks(games, s, ev)
    requires p !in s.listed && p in Step(games, s, ev).listed
    ensures p.server in s.awaiting && Answers(ev, p.server) && !Announces(games, ev, p.server)
    ensures Step(games, s, ev).listed[p] == s.awaiting[p.server].values
  {
    Lists(games, s, ev, p);
    hide Step;
  }

  // ---- timeouts ----

  lemma AgeOver(now: int, lastUpdate: int)
    ensures Age(now, lastUpdate) > TIMEOUT <==> now - lastUpdate >= (TIMEOUT + 1) * SECOND
  {
  }

  /**
   A pass of the timer leaves no entry older than the timeout in either map, and changes no other
   entry and no row that it leaves. Where the listing agrees with the maps, it takes the rows of
   the removed validated endpoints, and no others, off the tables.
   */
  lemma TimerRemoves(s: State, now: int)
    ensures var after := OnTimer(s, now);
      && (forall e :: e in after.awaiting <==> e in s.awaiting && Age(now, s.awaiting[e].lastUpdate) <= TIMEOUT)
      && (forall e :: e in after.awaiting ==> after.awaiting[e] == s.awaiting[e])
      && (forall e :: e in after.validated <==> e in s.validated && Age(now, s.validated[e].lastUpdate) <= TIMEOUT)
      && (forall e :: e in after.validated ==> after.validated[e] == s.validated[e])
      && (forall p :: p in after.listed ==> p in s.listed && after.listed[p] == s.listed[p])
      && (Consistent(s) ==> forall p :: p in after.listed <==>
            p in s.listed && p.server in s.validated && Age(now, s.validated[p.server].lastUpdate) <= TIMEOUT)
  {
    hide Age;
  }

  /** A keepalive counts for the validation unless the endpoint also waits: then it refreshes the waiting entry. */
  predicate Counts(games: map<Text, Game>, s: State, events: seq<Event>, k: nat, e: Endpoint)
    requires k < |events|
  {
    Refreshes(events[k], e) && e !in After(games, s, events[..k]).awaiting
  }

  /** The time of the last keepalive of `e` that counts among the first `n` events, or the one it was validated with. */
  function Refreshed(games: map<Text, Game>, s: State, events: seq<Event>, n: nat, e: Endpoint): int
    requires n <= |events| && e in s.validated
  {
    if n == 0 then s.validated[e].lastUpdate
    else if Counts(games, s, events, n - 1, e) then events[n - 1].now
    else Refreshed(games, s, events, n - 1, e)
  }

  ghost predicate StaysUpTo(games: map<Text, Game>, s: State, events: seq<Event>, n: nat, e: Endpoint)
    requires n <= |events|
  {
    forall k :: 0 <= k <= n ==> e in After(games, s, events[..k]).validated
  }

  /** Every pass of the timer comes within the timeout after a keepalive. */
  ghost predicate TimelyUpTo(games: map<Text, Game>, s: State, events: seq<Event>, n: nat, e: Endpoint)
    requires n <= |events| && e in s.validated
  {
    forall k :: 0 <= k < n && events[k].Timer? ==>
      Age(events[k].now, Refreshed(games, s, events, k, e)) <= TIMEOUT
  }

  /**
   From any state in which an endpoint is validated, and for any further events: it is never
   removed exactly when every pass of the timer finds its last keepalive that counts recent
   enough. Heartbeats do not count.
   */
  lemma {:induction false} StaysExactly(games: map<Text, Game>, s: State, events: seq<Event>, n: nat, e: Endpoint)
    requires e in s.validated && n <= |events|
    ensures StaysUpTo(games, s, events, n, e) <==> TimelyUpTo(games, s, events, n, e)
    ensures StaysUpTo(games, s, events, n, e) ==>
      After(games, s, events[..n]).validated[e].lastUpdate == Refreshed(games, s, events, n, e)
  {
    hide Step, Age, Refreshes;
    if n > 0 {
      hide After;
      StaysExactly(games, s, events, n - 1, e);
      AfterPrefix(games, s, events, n - 1);
      var before := After(games, s, events[..n - 1]);
      if StaysUpTo(games, s, events, n - 1, e) {
        StaysValidated(games, before, events[n - 1], e);
      }
    }
  }

  /** An endpoint that does not wait when it is validated does not wait later, so that all its keepalives count. */
  lemma {:induction false} AllCount(games: map<Text, Game>, s: State, events: seq<Event>, n: nat, e: Endpoint)
    requires e !in s.awaiting && n <= |events| && StaysUpTo(games, s, events, n, e)
    ensures e !in After(games, s, events[..n]).awaiting
    ensures forall k :: 0 <= k < n ==> (Counts(games, s, events, k, e) <==> Refreshes(events[k], e))
  {
    hide Step, Refreshes, Announces;
    if n > 0 {
      hide After;
      AllCount(games, s, events, n - 1, e);
      AfterPrefix(games, s, events, n - 1);
      StartsWaiting(games, After(games, s, events[..n - 1]), events[n - 1], e);
    }
  }

  ghost predicate Ordered(events: seq<Event>, n: nat)
    requires n <= |events|
  {
    forall k :: 0 <= k < n - 1 ==> events[k].now <= events[k + 1].now
  }

  /** Keepalives that count, and at last the last event, come at most a minute after the one before. */
  ghost predicate Regular(games: map<Text, Game>, s: State, events: seq<Event>, n: nat, e: Endpoint)
    requires n <= |events| && e in s.validated
  {
    && (forall k :: 0 <= k < n && Counts(games, s, events, k, e) ==>
          events[k].now - Refreshed(games, s, events, k, e) <= TIMEOUT * SECOND)
    && (n > 0 ==> events[n - 1].now - Refreshed(games, s, events, n, e) <= TIMEOUT * SECOND)
  }

  lemma {:induction false} KeepAlivesSuffice(games: map<Text, Game>, s: State, events: seq<Event>, n: nat, e: Endpoint)
    requires e in s.validated && n <= |events| && Ordered(events, n) && Regular(games, s, events, n, e)
    ensures TimelyUpTo(games, s, events, n, e)
  {
    hide Refreshes, After;
    if n > 0 {
      AgeOver(events[n - 1].now, Refreshed(games, s, events, n - 1, e));
      hide Age;
      assert n > 1 ==> events[n - 2].now <= events[n - 1].now;
      TimerRefreshesNobody(events[n - 1], e);
      KeepAlivesSuffice(games, s, events, n - 1, e);
    }
  }

  lemma TimerRefreshesNobody(ev: Event, e: Endpoint)
    ensures ev.Timer? ==> !Refreshes(ev, e)
  {
  }

  /** Keepalives that are at most a minute apart, up to the end, keep a validated endpoint: it is never removed. */
  lemma KeptAlive(games: map<Text, Game>, s: State, events: seq<Event>, n: nat, e: Endpoint)
    requires e in s.validated && n <= |events| && Ordered(events, n) && Regular(games, s, events, n, e)
    ensures StaysUpTo(games, s, events, n, e)
  {
    hide StaysUpTo, TimelyUpTo, Regular;
    KeepAlivesSuffice(games, s, events, n, e);
    StaysExactly(games, s, events, n, e);
  }

  /** However many heartbeats it sends: without a keepalive, the first late pass of the timer ends the validation. */
  lemma HeartbeatsDoNotRefresh(games: map<Text, Game>, s: State, events: seq<Event>, n: nat, e: Endpoint)
    requires e in s.validated && n < |events|
    requires forall k :: 0 <= k < n ==> !Counts(games, s, events, k, e)
    requires events[n].Timer? && Age(events[n].now, s.validated[e].lastUpdate) > TIMEOUT
    ensures exists k :: 0 <= k <= n + 1 && e !in After(games, s, events[..k]).validated
  {
    hide After, Age, Counts;
    NeverRefreshed(games, s, events, n, e);
    StaysExactly(games, s, events, n + 1, e);
  }

  lemma {:induction false} NeverRefreshed(games: map<Text, Game>, s: State, events: seq<Event>, n: nat, e: Endpoint)
    requires e in s.validated && n <= |events| && forall k :: 0 <= k < n ==> !Counts(games, s, events, k, e)
    ensures Refreshed(games, s, events, n, e) == s.validated[e].lastUpdate
  {
    hide Counts;
    if n > 0 {
      NeverRefreshed(games, s, events, n - 1, e);
    }
  }

  /** After a change of game, the row in the new game's table outlives the validation. */
  lemma RenamedRowOutlives(games: map<Text, Game>, s: State, ev: Event, now: int)
    requires Consistent(s) && Renames(games, s, ev) && Expired(s.validated[ev.client], now)
    ensures var after := OnTimer(Step(games, s, ev), now);
      ev.client !in after.validated && Place(Announced(ev)[GAMENAME], ev.client) in after.listed
  {
    hide SignalOf, Expected, Expired;
  }

  // ---- the handshake ----

  const MAGIC: seq<byte> := [0xFE, 0xFD]
  const VALIDATED: byte := 0x0A

  /** The challenge that is sent: the four-byte instance key and the text to encode. */
  function ChallengePacket(instance: seq<byte>, data: Text): seq<byte> {
    MAGIC + [CHALLENGE] + instance + data + [NUL]
  }

  /** What a game server answers that knows the key of its game. */
  function GameServerAnswer(challenge: seq<byte>, key: Text): seq<byte>
    requires |challenge| >= 8 && key != []
  {
    [CHALLENGE] + challenge[3..7] + Challenge.Encode(key, challenge[7..|challenge| - 1]) + [NUL]
  }

  lemma NoNulInProof(key: Text, data: Text)
    requires key != []
    ensures NUL !in Challenge.Encode(key, data)
  {
    hide Base64.Encode, Challenge.Keystreamed;
    Base64.EncodedText(Challenge.Keystreamed(key, data));
  }

  lemma AnswerArrives(instance: seq<byte>, data: Text, key: Text, leftover: Text)
    requires |instance| == 4 && key != []
    ensures SignalOf(GameServerAnswer(ChallengePacket(instance, data), key), leftover)
         == Answer(Challenge.Encode(key, data))
  {
    hide Challenge.Encode, Qr.ParseHeartbeat;
    var challenge := ChallengePacket(instance, data);
    assert challenge[3..7] == instance;
    assert challenge[7..|challenge| - 1] == data;
    var proof := Challenge.Encode(key, data);
    var bytes := GameServerAnswer(challenge, key);
    assert bytes[5..] == proof + [NUL];
    NoNulInProof(key, data);
    FindByteAfter(proof, NUL, []);
    assert proof + [NUL] + [] == proof + [NUL];
    assert (proof + [NUL])[..|proof|] == proof;
  }

  /** The text that a heartbeat's sender is asked to encode. */
  function AskedText(games: map<Text, Game>, ev: Event): Text
    requires ev.Datagram? && Announces(games, ev, ev.client)
  {
    var game := games[Announced(ev)[GAMENAME]];
    Challenge.ResponseData(ev.prefix, game.backend, ev.client.ip, ev.client.port)
  }

  /**
   The handshake completes: a game server that still waits and encodes the challenge it was
   sent with the key of its game is validated and listed in that game, whatever else happened.
   */
  lemma RightAnswerIsListed(games: map<Text, Game>, run: seq<Event>, i: nat, j: nat, e: Endpoint)
    requires i < j < |run| && Waiting(games, run, e, i, j)
    requires run[j].Datagram? && run[j].client == e && Stores(e, run[j].accepted)
    requires |Sent(run[i]).heartbeat.instance| == 4
    requires var challenge := ChallengePacket(Sent(run[i]).heartbeat.instance, AskedText(games, run[i]));
      run[j].bytes == GameServerAnswer(challenge, games[Announced(run[i])[GAMENAME]].secretKey)
    ensures e in At(games, run, j + 1).validated
    ensures Place(Announced(run[i])[GAMENAME], e) in At(games, run, j + 1).listed
  {
    hide At, SignalOf, After, Step, Challenge.Encode, Challenge.ResponseData;
    var instance := Sent(run[i]).heartbeat.instance;
    AnswerArrives(instance, AskedText(games, run[i]), games[Announced(run[i])[GAMENAME]].secretKey, run[j].leftover);
    WaitsSince(games, run, i, j, e);
    NextState(games, run, j);
    AnswerLists(games, At(games, run, j), run[j], e);
  }

  lemma WaitsEarlier(games: map<Text, Game>, run: seq<Event>, i: nat, n: nat, e: Endpoint)
    requires n <= |run| && Waiting(games, run, e, i, n)
    ensures e in At(games, run, n).awaiting
    ensures if i == n - 1 then e !in At(games, run, i).awaiting
            else Waiting(games, run, e, i, n - 1) && e in At(games, run, n - 1).awaiting
  {
    hide At, Announces;
  }

  lemma {:induction false} WaitsSince(games: map<Text, Game>, run: seq<Event>, i: nat, n: nat, e: Endpoint)
    requires n <= |run| && Waiting(games, run, e, i, n)
    ensures At(games, run, n).awaiting[e].proof == ProofFor(games, run[i])
    ensures At(games, run, n).awaiting[e].gamename == Announced(run[i])[GAMENAME]
    decreases n
  {
    hide At, ProofFor, SignalOf, Announces;
    WaitsEarlier(games, run, i, n, e);
    if i == n - 1 {
      WaitingStarts(games, run, e, i);
    } else {
      WaitsSince(games, run, i, n - 1, e);
      EntryGoesOn(games, run, e, n - 1);
    }
  }

  lemma AnswerLists(games: map<Text, Game>, s: State, ev: Event, e: Endpoint)
    requires Answers(ev, e) && e in s.awaiting && Sent(ev).text == s.awaiting[e].proof && Stores(e, ev.accepted)
    ensures e in Step(games, s, ev).validated
    ensures Place(s.awaiting[e].gamename, e) in Step(games, s, ev).listed
  {
    hide SignalOf, Expected;
  }

  // ---- a pass of the timer, one entry at a time ----

  /** The servers that a pass has kept while it still has `next` to visit. */
  ghost function KeptSoFar(servers: Servers, next: set<Endpoint>, now: int): Servers {
    map e | e in servers && (e in next || !Expired(servers[e], now)) :: servers[e]
  }

  lemma SweepNext(listed: map<Place, Values>, servers: Servers, next: set<Endpoint>, now: int, e: Endpoint)
    requires e in next && next <= servers.Keys
    ensures var before := KeptSoFar(servers, next, now);
      KeptSoFar(servers, next - {e}, now) == if Expired(servers[e], now) then before - {e} else before
    ensures var before, after := Remaining(listed, servers - next, now), Remaining(listed, servers - (next - {e}), now);
      after == if Expired(servers[e], now)
               then map p | p in before && !(p.game == servers[e].gamename && p.server in [e]) :: before[p]
               else before
  {
    hide Expired, Remaining;
    RemainingNext(listed, servers - next, now, e, servers[e]);
    assert servers - (next - {e}) == (servers - next)[e := servers[e]];
  }

  lemma RemainingNone(listed: map<Place, Values>, now: int)
    ensures Remaining(listed, map[], now) == listed
  {
  }

  lemma RemainingNext(listed: map<Place, Values>, servers: Servers, now: int, e: Endpoint, entry: Entry)
    requires e !in servers
    ensures var before, after := Remaining(listed, servers, now), Remaining(listed, servers[e := entry], now);
      after == if Expired(entry, now)
               then map p | p in before && !(p.game == entry.gamename && p.server in [e]) :: before[p]
               else before
  {
    hide Expired;
  }

  // ---- what is sent back ----

  function AvailabilityCode(availability: Availability): byte {
    match availability
    case Available => 0
    case DisabledTemporary => 1
    case DisabledPermanently => 2
  }

  /** The status of a game in four bytes; the literal that is sent ends in one more NUL. */
  function AvailabilityPacket(availability: Availability): seq<byte> {
    MAGIC + [PREQUERY, 0, 0, 0, AvailabilityCode(availability), NUL]
  }

  /** A challenge for the heartbeat that starts the waiting, a confirmation for the right answer, a game's status. */
  function Reply(games: map<Text, Game>, s: State, ev: Event): Option<seq<byte>> {
    if ev.Timer? then None
    else
      match Sent(ev)
      case Heartbeat(heartbeat) =>
        if !Known(games, heartbeat.serverData) || ev.client in s.validated || ev.client in s.awaiting then None
        else
          var game := games[heartbeat.serverData[GAMENAME]];
          var data := Challenge.ResponseData(ev.prefix, game.backend, ev.client.ip, ev.client.port);
          Some(ChallengePacket(heartbeat.instance, data))
      case Answer(text) =>
        if ev.client in s.awaiting && s.awaiting[ev.client].proof == text
        then Some(MAGIC + [VALIDATED] + s.awaiting[ev.client].instance) else None
      case Query(game) => if game in games then Some(AvailabilityPacket(games[game].availability)) else None
      case _ => None
  }

  /** A challenge goes exactly to who starts to wait, a confirmation exactly to who becomes validated by an answer. */
  lemma RepliesExactly(games: map<Text, Game>, s: State, ev: Event)
    requires ev.Datagram?
    ensures var e, after := ev.client, Step(games, s, ev);
      && (Announces(games, ev, e) ==> (Reply(games, s, ev).Some? <==> e !in s.awaiting && e in after.awaiting))
      && (Answers(ev, e) && e !in s.validated ==> (Reply(games, s, ev).Some? <==> e in after.validated))
      && (Reply(games, s, ev).Some? ==> Announces(games, ev, e) || Answers(ev, e) || (Sent(ev).Query? && after == s))
  {
    hide SignalOf, Expected, Challenge.ResponseData;
  }

  /** The proof that is stored is the encoding of the very text that is sent. */
  lemma AskedForProof(games: map<Text, Game>, s: State, ev: Event, e: Endpoint)
    requires e !in s.awaiting && e in Step(games, s, ev).awaiting
    ensures var entry := Step(games, s, ev).awaiting[e];
      && Reply(games, s, ev) == Some(ChallengePacket(entry.instance, AskedText(games, ev)))
      && entry.proof == Challenge.Encode(games[entry.gamename].secretKey, AskedText(games, ev))
  {
    hide SignalOf, Challenge.ResponseData, Challenge.Encode, Expired;
  }

  // ---- the server object ----

  class MasterServer {
    const games: map<Text, Game>
    var awaiting: Servers
    var validated: Servers
    var listed: map<Place, Values>

    constructor (games: map<Text, Game>)
      ensures this.games == games && Current() == EMPTY
    {
      this.games := games;
      awaiting, validated, listed := map[], map[], map[];
    }

    function Current(): State
      reads this
    {
      State(awaiting, validated, listed)
    }

    /** False where the table throws. */
    method AddOrUpdateServer(gamename: Text, client: Endpoint, values: Values, accepted: bool) returns (stored: bool)
      modifies this`listed
      ensures stored == Stores(client, accepted)
      ensures listed == if stored then old(listed)[Place(gamename, client) := values] else old(listed)
    {
      stored := client.port != 0 && accepted;
      if stored {
        listed := listed[Place(gamename, client) := values];
      }
    }

    method RemoveServers(gamename: Text, servers: seq<Endpoint>)
      modifies this`listed
      ensures listed == map p | p in old(listed) && !(p.game == gamename && p.server in servers) :: old(listed)[p]
    {
      for i := 0 to |servers|
        invariant listed
               == map p | p in old(listed) && !(p.game == gamename && p.server in servers[..i]) :: old(listed)[p]
      {
        listed := listed - {Place(gamename, servers[i])};
        assert servers[..i + 1] == servers[..i] + [servers[i]];
      }
      assert servers[..|servers|] == servers;
    }

    /** The reply is the challenge, for endpoints that were unknown. */
    method HandleHeartbeat(client: Endpoint, packet: Qr.Packet, now: int, prefix: Text, accepted: bool)
      returns (reply: Option<seq<byte>>)
      modifies this
      ensures match Qr.ParseHeartbeat(packet)
        case Err(_) => Current() == old(Current()) && reply == None
        case Ok(heartbeat) =>
          && Current() == OnHeartbeat(games, old(Current()), now, client, heartbeat, prefix, accepted)
          && reply == (if !Known(games, heartbeat.serverData) || client in old(validated) || client in old(awaiting)
                       then None
                       else Some(ChallengePacket(heartbeat.instance, Challenge.ResponseData(prefix,
                              games[heartbeat.serverData[GAMENAME]].backend, client.ip, client.port))))
    {
      hide Qr.ParseHeartbeat, Challenge.Encode, Challenge.ResponseData;
      reply := None;
      var heartbeat := Qr.ParseHeartbeatPacket(packet);
      if heartbeat.Err? {
        return;
      }
      var values := heartbeat.value.serverData;
      if GAMENAME !in values {
        return;
      }
      var gamename := values[GAMENAME];
      if gamename !in games {
        return;
      }
      var game := games[gamename];
      if client in validated {
        var _ := AddOrUpdateServer(gamename, client, values, accepted);
      } else if client !in awaiting {
        var data := Challenge.ResponseData(prefix, game.backend, client.ip, client.port);
        var proof := Challenge.Encode(game.secretKey, data);
        awaiting := awaiting[client := Entry(now, proof, heartbeat.value.instance, gamename, values)];
        reply := Some(ChallengePacket(heartbeat.value.instance, data));
      } else {
        awaiting := awaiting[client := awaiting[client].(lastUpdate := now, values := values)];
      }
    }

    method HandleKeepAlive(client: Endpoint, now: int)
      modifies this
      ensures Current() == OnKeepAlive(old(Current()), now, client)
    {
      if client in awaiting {
        awaiting := awaiting[client := awaiting[client].(lastUpdate := now)];
      } else if client in validated {
        validated := validated[client := validated[client].(lastUpdate := now)];
      }
    }

    /** The reply confirms the validation. */
    method HandleChallenge(client: Endpoint, answer: Text, accepted: bool) returns (reply: Option<seq<byte>>)
      modifies this
      ensures Current() == OnAnswer(old(Current()), client, answer, accepted)
      ensures reply == if client in old(awaiting) && old(awaiting)[client].proof == answer
                       then Some(MAGIC + [VALIDATED] + old(awaiting)[client].instance) else None
    {
      reply := None;
      if client in awaiting {
        var entry := awaiting[client];
        if entry.proof == answer {
          if client !in validated {
            validated := validated[client := entry];
          }
          reply := Some(MAGIC + [VALIDATED] + entry.instance);
          var stored := AddOrUpdateServer(entry.gamename, client, entry.values, accepted);
          if !stored {
            return;
          }
        }
        awaiting := awaiting - {client};
      }
    }

    method HandleAvailable(packet: Qr.Packet) returns (reply: Option<seq<byte>>)
      requires packet.data != []
      ensures var name := GameName(packet.data);
        reply == if name in games then Some(AvailabilityPacket(games[name].availability)) else None
    {
      reply := None;
      var name := packet.data[..|packet.data| - 1];
      if name in games {
        var status := [0xFE, 0xFD, 0x09, 0, 0, 0, 0, 0];
        match games[name].availability {
          case Available =>
          case DisabledTemporary => status := [0xFE, 0xFD, 0x09, 0, 0, 0, 1, 0];
          case DisabledPermanently => status := [0xFE, 0xFD, 0x09, 0, 0, 0, 2, 0];
        }
        assert status == AvailabilityPacket(games[name].availability);
        reply := Some(status);
      }
    }

    /** One datagram, dispatched by its type; an empty one ends the receive loop. */
    method Receive(client: Endpoint, bytes: seq<byte>, leftover: Text, now: int, prefix: Text, accepted: bool)
      returns (reply: Option<seq<byte>>, open: bool)
      modifies this
      ensures var ev := Datagram(now, client, bytes, leftover, prefix, accepted);
        Current() == Step(games, old(Current()), ev) && reply == Reply(games, old(Current()), ev)
      ensures open <==> bytes != []
    {
      hide Qr.ParseHeartbeat, OnHeartbeat, OnAnswer, OnKeepAlive, OnTimer, Challenge.ResponseData, ChallengePacket,
        GameName, AvailabilityPacket;
      reply, open := None, bytes != [];
      if !open {
        return;
      }
      var parsed := Qr.ParsePacket(bytes);
      if parsed.Err? {
        return;
      }
      var packet := parsed.value;
      if packet.kind == HEARTBEAT {
        reply := HandleHeartbeat(client, packet, now, prefix, accepted);
      } else if packet.kind == KEEPALIVE {
        HandleKeepAlive(client, now);
      } else if packet.kind == CHALLENGE {
        reply := HandleChallenge(client, AnswerText(packet.data, leftover), accepted);
      } else if packet.kind == PREQUERY && packet.data != [] {
        reply := HandleAvailable(packet);
      }
    }

    /** One pass over both maps; what has timed out is taken off its table and erased. */
    method Cleanup(now: int)
      modifies this
      ensures Current() == OnTimer(old(Current()), now)
    {
      hide Kept, Remaining;
      awaiting := Sweep(awaiting, now);
      validated := Sweep(validated, now);
    }

    method Sweep(servers: Servers, now: int) returns (kept: Servers)
      modifies this`listed
      ensures kept == Kept(servers, now)
      ensures listed == Remaining(old(listed), servers, now)
    {
      hide Expired, Remaining;
      kept := servers;
      var next := servers.Keys;
      assert servers - next == map[];
      RemainingNone(listed, now);
      while next != {}
        invariant next <= servers.Keys
        invariant kept == KeptSoFar(servers, next, now)
        invariant listed == Remaining(old(listed), servers - next, now)
        decreases |next|
      {
        hide KeptSoFar;
        var e :| e in next;
        SweepNext(old(listed), servers, next, now, e);
        next := next - {e};
        if Expired(servers[e], now) {
          RemoveServers(servers[e].gamename, [e]);
          kept := kept - {e};
        }
      }
      assert servers - next == servers;
    }
  }
}

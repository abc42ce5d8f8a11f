/** Runs of the master server, from its start, that reach each of the two disagreements and a timeout. */
module MasterRuns {
  import opened Bytes
  import opened Master
  import Challenge
  import Qr

  const INSTANCE: seq<byte> := [1, 2, 3, 4]

  function HeartbeatBytes(game: Text): seq<byte> {
    [HEARTBEAT] + INSTANCE + Qr.PrintMap([Qr.Pair(GAMENAME, game)])
  }

  /** A heartbeat that names a game is received as just that. */
  lemma HeartbeatArrives(game: Text, leftover: Text)
    requires NUL !in game
    ensures SignalOf(HeartbeatBytes(game), leftover)
         == Heartbeat(Qr.Heartbeat(INSTANCE, map[GAMENAME := game], Qr.NO_TABLE, Qr.NO_TABLE))
  {
    hide Qr.ParseHeartbeat, Qr.PrintPairs, Ascii;
    var pairs := [Qr.Pair(GAMENAME, game)];
    var bytes := HeartbeatBytes(game);
    assert GAMENAME != [] && NUL !in GAMENAME by { GamenameIsPlain(); }
    assert bytes[1..5] == INSTANCE && bytes[5..] == Qr.PrintMap(pairs);
    Qr.ParsePrintedMapOnly(HEARTBEAT, INSTANCE, pairs);
    assert Qr.EmplaceAll(map[], pairs) == map[GAMENAME := game];
  }

  lemma GamenameIsPlain()
    ensures GAMENAME != [] && NUL !in GAMENAME
  {
  }

  function Announcement(now: int, e: Endpoint, game: Text, prefix: Text): Event {
    Datagram(now, e, HeartbeatBytes(game), [], prefix, true)
  }

  /** The answer of a game server that was sent the challenge for `game`. */
  function Response(games: map<Text, Game>, e: Endpoint, game: Text, prefix: Text, accepted: bool): Event
    requires game in games
  {
    var data := Challenge.ResponseData(prefix, games[game].backend, e.ip, e.port);
    Datagram(0, e, GameServerAnswer(ChallengePacket(INSTANCE, data), games[game].secretKey), [], [], accepted)
  }

  lemma AnnouncementAnnounces(games: map<Text, Game>, now: int, e: Endpoint, game: Text, prefix: Text)
    requires game in games && NUL !in game
    ensures var ev := Announcement(now, e, game, prefix);
      && ev.now == now && !Refreshes(ev, e)
      && Announces(games, ev, e) && Announced(ev) == map[GAMENAME := game]
      && ev.Datagram? && ev.client == e && ev.accepted && Sent(ev).heartbeat.instance == INSTANCE
  {
    hide SignalOf, HeartbeatBytes;
    HeartbeatArrives(game, []);
  }

  /** After its announcement the server waits, and its response is the right answer. */
  lemma FirstSteps(games: map<Text, Game>, e: Endpoint, game: Text, prefix: Text, accepted: bool, run: seq<Event>)
    requires game in games && NUL !in game && |run| >= 2
    requires run[0] == Announcement(0, e, game, prefix) && run[1] == Response(games, e, game, prefix, accepted)
    ensures Waiting(games, run, e, 0, 1) && e in At(games, run, 1).awaiting
    ensures At(games, run, 1).awaiting[e].gamename == game
    ensures Answers(run[1], e) && Sent(run[1]).text == At(games, run, 1).awaiting[e].proof
    ensures e !in At(games, run, 1).validated && At(games, run, 1).listed == map[]
    ensures At(games, run, 1).awaiting[e].lastUpdate == 0
    ensures run[0].Datagram? && run[0].client == e && !Answers(run[0], e)
    ensures run[1].Datagram? && run[1].client == e && !Announces(games, run[1], e) && run[1].accepted == accepted
  {
    hide SignalOf, HeartbeatBytes, Challenge.ResponseData, Challenge.Encode, ChallengePacket, GameServerAnswer,
      OnTimer, OnAnswer, OnKeepAlive;
    AnnouncementAnnounces(games, 0, e, game, prefix);
    StartsEmpty(games, run);
    NextState(games, run, 0);
    var data := Challenge.ResponseData(prefix, games[game].backend, e.ip, e.port);
    AnswerArrives(INSTANCE, data, games[game].secretKey, []);
  }

  /** Neither the announcement nor a response that is stored breaks the agreement. */
  lemma FirstStepsUnbroken(games: map<Text, Game>, e: Endpoint, game: Text, prefix: Text, run: seq<Event>)
    requires game in games && NUL !in game && |run| >= 2 && e.port != 0
    requires run[0] == Announcement(0, e, game, prefix) && run[1] == Response(games, e, game, prefix, true)
    ensures UnbrokenUpTo(games, run, 2)
    ensures e in At(games, run, 2).validated && Place(game, e) in At(games, run, 2).listed
    ensures At(games, run, 2).validated[e].gamename == game
  {
    hide At, Step, Announcement, Response, SignalOf, Announces, Answers;
    FirstSteps(games, e, game, prefix, true, run);
    StartsEmpty(games, run);
    NextState(games, run, 1);
    AnswerLists(games, At(games, run, 1), run[1], e);
    BecomesValidated(games, At(games, run, 1), run[1], e);
    FirstUnbroken(games, At(games, run, 0), run[0]);
    FirstUnbroken(games, At(games, run, 1), run[1]);
  }

  /** A step that is no heartbeat of a validated endpoint and no refused answer breaks nothing. */
  lemma FirstUnbroken(games: map<Text, Game>, s: State, ev: Event)
    requires ev.Datagram? && ev.client !in s.validated
    requires Answers(ev, ev.client) ==> Stores(ev.client, ev.accepted)
    ensures !Breaks(games, s, ev)
  {
    hide Announces, Answers;
  }

  /**
   Renaming happens: a server that is validated for one game and then announces another one is
   listed in both, although it is validated for the first alone.
   */
  lemma RenamesReachable(games: map<Text, Game>, e: Endpoint, game: Text, other: Text, prefix: Text)
    requires game in games && other in games && game != other && NUL !in game && NUL !in other && e.port != 0
    ensures var run := [Announcement(0, e, game, prefix), Response(games, e, game, prefix, true),
                        Announcement(0, e, other, prefix)];
      && Renames(games, At(games, run, 2), run[2])
      && Consistent(At(games, run, 2)) && !Consistent(At(games, run, 3))
      && Place(game, e) in At(games, run, 3).listed && Place(other, e) in At(games, run, 3).listed
  {
    hide At, Step, Announces, Announcement, Response, Consistent, UnbrokenUpTo, SignalOf;
    var run := [Announcement(0, e, game, prefix), Response(games, e, game, prefix, true),
                Announcement(0, e, other, prefix)];
    FirstStepsUnbroken(games, e, game, prefix, run);
    AnnouncementAnnounces(games, 0, e, other, prefix);
    ConsistentRun(games, run, 2);
    NextState(games, run, 2);
    ConsistentStep(games, At(games, run, 2), run[2]);
    RenamedIsListedTwice(games, At(games, run, 2), run[2], game);
  }

  lemma RenamedIsListedTwice(games: map<Text, Game>, s: State, ev: Event, game: Text)
    requires Renames(games, s, ev) && Place(game, ev.client) in s.listed
    ensures Place(game, ev.client) in Step(games, s, ev).listed
    ensures Place(Announced(ev)[GAMENAME], ev.client) in Step(games, s, ev).listed
  {
    hide SignalOf, Expected;
  }

  /** Losing a row happens: a right answer whose row is refused leaves the server in both maps and unlisted. */
  lemma LosesReachable(games: map<Text, Game>, e: Endpoint, game: Text, prefix: Text)
    requires game in games && NUL !in game
    ensures var run := [Announcement(0, e, game, prefix), Response(games, e, game, prefix, false)];
      && Loses(At(games, run, 1), run[1]) && !Consistent(At(games, run, 2))
      && e in At(games, run, 2).awaiting && e in At(games, run, 2).validated
      && At(games, run, 2).listed == map[]
  {
    hide At, Step, Announcement, Response, SignalOf, Announces, Waiting, Consistent;
    var run := [Announcement(0, e, game, prefix), Response(games, e, game, prefix, false)];
    FirstSteps(games, e, game, prefix, false, run);
    NextState(games, run, 1);
    RefusedStep(games, At(games, run, 1), run[1]);
  }

  lemma RefusedStep(games: map<Text, Game>, s: State, ev: Event)
    requires Loses(s, ev) && ev.client !in s.validated
    ensures ev.client in Step(games, s, ev).awaiting && ev.client in Step(games, s, ev).validated
    ensures Step(games, s, ev).listed == s.listed && !Consistent(Step(games, s, ev))
  {
    hide SignalOf, Expected;
  }

  /** A server that sends a heartbeat every half minute, and a pass of the timer after 61 seconds. */
  function Chatty(games: map<Text, Game>, e: Endpoint, game: Text, prefix: Text): seq<Event>
    requires game in games
  {
    [Announcement(0, e, game, prefix), Response(games, e, game, prefix, true),
     Announcement(30 * SECOND, e, game, prefix), Announcement(60 * SECOND, e, game, prefix), Timer(61 * SECOND)]
  }

  /** A validated server does time out although its heartbeats keep coming. */
  lemma ChattyTimesOut(games: map<Text, Game>, e: Endpoint, game: Text, prefix: Text)
    requires game in games && NUL !in game && e.port != 0
    ensures var run := Chatty(games, e, game, prefix);
      && (forall k :: 2 <= k <= 4 ==> e in At(games, run, k).validated)
      && e !in At(games, run, 5).validated
  {
    hide At, Step, Announces, Announcement, Response, Answers, Refreshes, Expired, UnbrokenUpTo;
    var run := Chatty(games, e, game, prefix);
    FirstSteps(games, e, game, prefix, true, run);
    FirstStepsUnbroken(games, e, game, prefix, run);
    NextState(games, run, 1);
    BecomesValidated(games, At(games, run, 1), run[1], e);
    AnnouncementAnnounces(games, 30 * SECOND, e, game, prefix);
    AnnouncementAnnounces(games, 60 * SECOND, e, game, prefix);
    NextState(games, run, 2);
    StaysValidated(games, At(games, run, 2), run[2], e);
    NextState(games, run, 3);
    StaysValidated(games, At(games, run, 3), run[3], e);
    NextState(games, run, 4);
    StaysValidated(games, At(games, run, 4), run[4], e);
    ExpiredAfterAMinute(At(games, run, 4).validated[e]);
  }

  function Refresh(now: int, e: Endpoint): Event {
    Datagram(now, e, [KEEPALIVE] + INSTANCE, [], [], true)
  }

  lemma RefreshRefreshes(now: int, e: Endpoint)
    ensures Refreshes(Refresh(now, e), e) && Refresh(now, e).Datagram? && Refresh(now, e).now == now
  {
  }

  /** A server whose row is refused, and that then sends a keepalive. */
  function Refused(games: map<Text, Game>, e: Endpoint, game: Text, prefix: Text): seq<Event>
    requires game in games
  {
    [Announcement(0, e, game, prefix), Response(games, e, game, prefix, false),
     Refresh(30 * SECOND, e), Timer(61 * SECOND)]
  }

  /** A validated server that also waits does time out although it sends a keepalive; it goes on waiting. */
  lemma RefusedTimesOut(games: map<Text, Game>, e: Endpoint, game: Text, prefix: Text)
    requires game in games && NUL !in game
    ensures var run := Refused(games, e, game, prefix);
      && e in At(games, run, 2).validated && e in At(games, run, 3).validated && Refreshes(run[2], e)
      && e !in At(games, run, 4).validated && e in At(games, run, 4).awaiting
  {
    hide At, Step, Announces, Announcement, Response, Refresh, Refreshes, Sent, Expired;
    var run := Refused(games, e, game, prefix);
    FirstSteps(games, e, game, prefix, false, run);
    RefreshRefreshes(30 * SECOND, e);
    NextState(games, run, 1);
    RefusedStep(games, At(games, run, 1), run[1]);
    BecomesValidated(games, At(games, run, 1), run[1], e);
    NextState(games, run, 2);
    RefreshWhileWaiting(games, At(games, run, 2), run[2], e);
    NextState(games, run, 3);
    StaysValidated(games, At(games, run, 3), run[3], e);
    StopsWaiting(games, At(games, run, 3), run[3], e);
    ExpiredAfterAMinute(At(games, run, 3).validated[e]);
    FreshAfterHalfAMinute(At(games, run, 3).awaiting[e]);
  }

  /** A keepalive of an endpoint in both maps refreshes the waiting entry, and leaves the validated one as it is. */
  lemma RefreshWhileWaiting(games: map<Text, Game>, s: State, ev: Event, e: Endpoint)
    requires ev.Datagram? && Refreshes(ev, e) && e in s.awaiting && e in s.validated
    ensures e in Step(games, s, ev).validated && Step(games, s, ev).validated[e] == s.validated[e]
    ensures e in Step(games, s, ev).awaiting && Step(games, s, ev).awaiting[e].lastUpdate == ev.now
  {
    hide Step, SignalOf;
    StaysValidated(games, s, ev, e);
    StopsWaiting(games, s, ev, e);
    KeepsWaiting(games, s, ev, e);
  }

  lemma FreshAfterHalfAMinute(entry: Entry)
    requires entry.lastUpdate == 30 * SECOND
    ensures !Expired(entry, 61 * SECOND)
  {
  }

  lemma ExpiredAfterAMinute(entry: Entry)
    requires entry.lastUpdate == 0
    ensures Expired(entry, 61 * SECOND)
  {
  }
}

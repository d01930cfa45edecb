/** The bracket engine of a tournament room (pong/models.py, TournamentRoom and
    TournamentMatch), stated as functions from a room to the room after one
    operation. A failing save() makes the whole operation fail and leaves the
    room as it was. */
module Bracket {
  import opened Common
  import opened Records

  const MAX_PLAYERS: nat := 8
  const MIN_PLAYERS: nat := 4

  datatype RoomStatus = Waiting | Ongoing | Completed

  datatype MatchStatus = Waiting | Ongoing | Completed

  /** A user's entry in one room. Ids grow with creation time, so a roster listed
      by increasing id is listed in creation order. */
  datatype TournamentPlayer = TournamentPlayer(id: nat, player: PlayerId)

  datatype TournamentMatch = TournamentMatch(
    status: MatchStatus,
    winner: TournamentPlayer,
    loser: TournamentPlayer,
    winnerScore: int,
    loserScore: int)

  datatype Room = Room(
    owner: UserId,
    status: RoomStatus,
    players: seq<TournamentPlayer>,      // the full roster, in creation order
    playersLeft: seq<TournamentPlayer>,  // the alive list, in creation order
    matches: seq<TournamentMatch>,       // in creation order
    winner: Option<PlayerId>,            // the champion, once named
    nextId: nat)                         // id of the next TournamentPlayer created

  /** Every failure the room raises. */
  datatype Error =
    | MaxPlayersExceeded   // the roster is full, on add_player or on save
    | PlayerNotFound       // no Player for the user, or no entry for it in the room
    | MultipleEntries      // the user's Player has two entries in the room
    | TooFewPlayers
    | OddPlayerCount
    | NotWaiting
    | NotOngoing
    | NoPlayersLeft
    | OngoingMatchExists
    | PairOutOfRange       // pairing an odd alive list reads past its end
    | NoWaitingMatch       // no WAITING match to start after round generation
    | NotOwner             // the owner test that start performs as written

  /** The outcome of next_match: the room afterwards, the match it started (none
      when a champion was named) and whether it generated a new round. */
  datatype Scheduled = Scheduled(room: Room, started: Option<TournamentMatch>, isNextRound: bool)

  /** The calls a client can make on a room. */
  datatype Call =
    | AddPlayerCall(user: UserId)
    | RemovePlayerCall(user: UserId)
    | StartCall
    | NextMatchCall
    | EndCall

  // ---------------------------------------------------------------------------
  // The room invariant

  /** Ids strictly increase along the list: creation order, no entry twice. */
  predicate Increasing(roster: seq<TournamentPlayer>) {
    forall i, j :: 0 <= i < j < |roster| ==> roster[i].id < roster[j].id
  }

  /** What every room reachable from a new one satisfies. */
  ghost predicate Valid(r: Room) {
    && |r.players| < MAX_PLAYERS
    && Increasing(r.players)
    && Increasing(r.playersLeft)
    && (forall tp :: tp in r.playersLeft ==> tp in r.players)
    && (forall tp :: tp in r.players ==> tp.id < r.nextId)
    && (r.status == RoomStatus.Waiting ==> r.playersLeft == [] && r.matches == [] && r.winner == None)
  }

  function NewRoom(owner: UserId): (r: Room)
    ensures Valid(r)
    ensures r.owner == owner && r.status == RoomStatus.Waiting && r.players == []
  {
    Room(owner, RoomStatus.Waiting, [], [], [], None, 0)
  }

  function NewTournamentMatch(winner: TournamentPlayer, loser: TournamentPlayer): TournamentMatch {
    TournamentMatch(MatchStatus.Waiting, winner, loser, 0, 0)
  }

  // ---------------------------------------------------------------------------
  // Queries over the roster and the matches

  /** Number of matches with status `st`. */
  function Count(ms: seq<TournamentMatch>, st: MatchStatus): (n: nat)
    ensures n <= |ms|
    ensures n == 0 <==> forall i :: 0 <= i < |ms| ==> ms[i].status != st
  {
    if ms == [] then 0
    else Count(ms[..|ms| - 1], st) + (if ms[|ms| - 1].status == st then 1 else 0)
  }

  /** Index of the most recently created WAITING match, if there is one. */
  function LatestWaiting(ms: seq<TournamentMatch>): (k: Option<nat>)
    ensures k.Some? ==> k.value < |ms| && ms[k.value].status == MatchStatus.Waiting
    ensures k.Some? ==> forall j :: k.value < j < |ms| ==> ms[j].status != MatchStatus.Waiting
    ensures k.None? <==> Count(ms, MatchStatus.Waiting) == 0
  {
    if ms == [] then None
    else if ms[|ms| - 1].status == MatchStatus.Waiting then Some(|ms| - 1)
    else LatestWaiting(ms[..|ms| - 1])
  }

  /** The entries of `roster` that stand for `player`, in roster order. */
  function EntriesOf(roster: seq<TournamentPlayer>, player: PlayerId): (es: seq<TournamentPlayer>)
    ensures forall tp :: tp in es <==> tp in roster && tp.player == player
    ensures Increasing(roster) ==> Increasing(es)
  {
    if roster == [] then []
    else
      var head, tail := roster[0], EntriesOf(roster[1..], player);
      assert Increasing(roster) ==> Increasing(tail) && Increasing([head] + tail) by {
        if Increasing(roster) {
          assert Increasing(roster[1..]);
          assert forall x :: x in tail ==> head.id < x.id;
          IncreasingCons(head, tail);
        }
      }
      if head.player == player then [head] + tail else tail
  }

  /** An entry created before every member of an increasing list can be put in
      front of it. */
  lemma IncreasingCons(head: TournamentPlayer, tail: seq<TournamentPlayer>)
    requires Increasing(tail) && forall x :: x in tail ==> head.id < x.id
    ensures Increasing([head] + tail)
  {
    var l := [head] + tail;
    forall i, j | 0 <= i < j < |l|
      ensures l[i].id < l[j].id
    {
      assert l[j] == tail[j - 1];
      if i > 0 {
        assert l[i] == tail[i - 1];
      } else {
        assert tail[j - 1] in tail;
      }
    }
  }

  /** `roster` with `tp` taken out, order kept. */
  function Without(roster: seq<TournamentPlayer>, tp: TournamentPlayer): (rest: seq<TournamentPlayer>)
    ensures forall x :: x in rest <==> x in roster && x != tp
    ensures |rest| <= |roster|
    ensures Increasing(roster) ==> Increasing(rest)
  {
    if roster == [] then []
    else
      var tail := Without(roster[1..], tp);
      if roster[0] == tp then tail
      else
        assert Increasing(roster) ==> forall x :: x in tail ==> roster[0].id < x.id;
        [roster[0]] + tail
  }

  /** The matches of a new round: the alive list paired in order, the first
      player of each pair as provisional winner, the second as provisional loser. */
  function Pairings(alive: seq<TournamentPlayer>): (ms: seq<TournamentMatch>)
    ensures |ms| == |alive| / 2
    ensures forall k :: 0 <= k < |ms| ==> ms[k] == NewTournamentMatch(alive[2 * k], alive[2 * k + 1])
  {
    if |alive| < 2 then []
    else [NewTournamentMatch(alive[0], alive[1])] + Pairings(alive[2..])
  }

  // ---------------------------------------------------------------------------
  // The operations

  /** save(): refuses a room whose roster holds MAX_PLAYERS or more. */
  function Save(r: Room): (res: Result<Room, Error>)
    ensures res.Ok? <==> |r.players| < MAX_PLAYERS
    ensures res.Ok? ==> res.value == r
    ensures res.Err? ==> res.error == MaxPlayersExceeded
  {
    if |r.players| >= MAX_PLAYERS then Err(MaxPlayersExceeded) else Ok(r)
  }

  function AddPlayer(r: Room, playerOf: map<UserId, PlayerId>, user: UserId): (res: Result<Room, Error>)
    ensures res.Ok? <==> |r.players| + 1 < MAX_PLAYERS && user in playerOf
    ensures |r.players| < MAX_PLAYERS && user !in playerOf ==> res == Err(PlayerNotFound)
    ensures res.Err? && user in playerOf ==> res.error == MaxPlayersExceeded
    ensures res.Ok? ==> res.value.players == r.players + [TournamentPlayer(r.nextId, playerOf[user])]
    ensures res.Ok? ==> res.value == r.(players := res.value.players, nextId := r.nextId + 1)
  {
    if |r.players| >= MAX_PLAYERS then Err(MaxPlayersExceeded)
    else if user !in playerOf then Err(PlayerNotFound)
    else Save(r.(players := r.players + [TournamentPlayer(r.nextId, playerOf[user])], nextId := r.nextId + 1))
  }

  function RemovePlayer(r: Room, playerOf: map<UserId, PlayerId>, user: UserId): (res: Result<Room, Error>)
    ensures user !in playerOf ==> res == Err(PlayerNotFound)
    ensures user in playerOf && |EntriesOf(r.players, playerOf[user])| == 0 ==> res == Err(PlayerNotFound)
    ensures user in playerOf && |EntriesOf(r.players, playerOf[user])| > 1 ==> res == Err(MultipleEntries)
    ensures res.Ok? ==> user in playerOf && |EntriesOf(r.players, playerOf[user])| == 1
    ensures user in playerOf && |EntriesOf(r.players, playerOf[user])| == 1 && |r.players| < MAX_PLAYERS ==> res.Ok?
    ensures res.Ok? ==> forall x :: x in res.value.players <==> x in r.players && x.player != playerOf[user]
    ensures res.Ok? ==>
      forall x :: x in res.value.playersLeft <==> x in r.playersLeft && x !in EntriesOf(r.players, playerOf[user])
    ensures res.Ok? ==> res.value == r.(players := res.value.players, playersLeft := res.value.playersLeft)
  {
    if user !in playerOf then Err(PlayerNotFound)
    else
      var entries := EntriesOf(r.players, playerOf[user]);
      if |entries| == 0 then Err(PlayerNotFound)
      else if |entries| > 1 then Err(MultipleEntries)
      else
        var tp := entries[0];
        SoleEntry(r.players, playerOf[user]);
        Save(r.(players := Without(r.players, tp), playersLeft := Without(r.playersLeft, tp)))
  }

  /** When a Player has one entry in a roster, that entry is the only roster
      member standing for it. */
  lemma SoleEntry(roster: seq<TournamentPlayer>, player: PlayerId)
    requires |EntriesOf(roster, player)| == 1
    ensures forall x :: x in EntriesOf(roster, player) <==> x == EntriesOf(roster, player)[0]
    ensures forall x :: x in roster && x.player == player <==> x == EntriesOf(roster, player)[0]
  {
    var es := EntriesOf(roster, player);
    assert es == [es[0]];
  }

  function IsMember(r: Room, playerOf: map<UserId, PlayerId>, user: UserId): (b: bool)
    ensures b <==> user in playerOf && exists tp :: tp in r.players && tp.player == playerOf[user]
  {
    if user !in playerOf then false
    else
      var entries := EntriesOf(r.players, playerOf[user]);
      assert entries != [] ==> entries[0] in entries;
      |entries| > 0
  }

  function IsOwner(r: Room, user: UserId): bool {
    r.owner == user
  }

  function Start(r: Room): (res: Result<Room, Error>)
    ensures res.Ok? <==>
      MIN_PLAYERS <= |r.players| < MAX_PLAYERS && |r.players| % 2 == 0 && r.status == RoomStatus.Waiting
    ensures |r.players| < MIN_PLAYERS ==> res == Err(TooFewPlayers)
    ensures MIN_PLAYERS <= |r.players| && |r.players| % 2 != 0 ==> res == Err(OddPlayerCount)
    ensures MIN_PLAYERS <= |r.players| && |r.players| % 2 == 0 && r.status != RoomStatus.Waiting ==>
      res == Err(NotWaiting)
    ensures res.Ok? ==> res.value == r.(playersLeft := r.players, status := RoomStatus.Ongoing)
  {
    if |r.players| < MIN_PLAYERS then Err(TooFewPlayers)
    else if |r.players| % 2 != 0 then Err(OddPlayerCount)
    else if r.status != RoomStatus.Waiting then Err(NotWaiting)
    else Save(r.(playersLeft := r.players, status := RoomStatus.Ongoing))
  }

  /** start as written. Its first test reads a `user` attribute of the owner,
      who is a User; a User has no such attribute, and a related record of any
      other model never equals the owner, so the test fails on every call, before
      the player count or the status is looked at. */
  function StartAsWritten(r: Room): (res: Result<Room, Error>)
    ensures res == Err(NotOwner)
  {
    Err(NotOwner)
  }

  /** The private round generation of the room. */
  function NextRound(r: Room): (res: Result<Room, Error>)
    ensures res.Ok? <==>
      r.status == RoomStatus.Ongoing && Count(r.matches, MatchStatus.Ongoing) == 0 && |r.playersLeft| % 2 == 0
    ensures r.status != RoomStatus.Ongoing ==> res == Err(NotOngoing)
    ensures r.status == RoomStatus.Ongoing && Count(r.matches, MatchStatus.Ongoing) > 0 ==>
      res == Err(OngoingMatchExists)
    ensures res.Ok? ==> res.value == r.(matches := r.matches + Pairings(r.playersLeft))
    ensures res.Ok? ==>
      Count(res.value.matches, MatchStatus.Waiting) == Count(r.matches, MatchStatus.Waiting) + |r.playersLeft| / 2
  {
    if r.status != RoomStatus.Ongoing then Err(NotOngoing)
    else if Count(r.matches, MatchStatus.Ongoing) > 0 then Err(OngoingMatchExists)
    else if |r.playersLeft| % 2 != 0 then Err(PairOutOfRange)
    else
      var round := Pairings(r.playersLeft);
      CountAppend(r.matches, round, MatchStatus.Waiting);
      CountAll(round, MatchStatus.Waiting);
      Ok(r.(matches := r.matches + round))
  }

  function NextMatch(r: Room): (res: Result<Scheduled, Error>)
    ensures r.status != RoomStatus.Ongoing ==> res == Err(NotOngoing)
    ensures r.status == RoomStatus.Ongoing && |r.playersLeft| == 0 ==> res == Err(NoPlayersLeft)
    ensures r.status == RoomStatus.Ongoing && |r.playersLeft| == 1 ==>
      res == if |r.players| < MAX_PLAYERS
             then Ok(Scheduled(r.(winner := Some(r.playersLeft[0].player)), None, false))
             else Err(MaxPlayersExceeded)
    ensures res != Err(NoWaitingMatch)
    ensures r.status == RoomStatus.Ongoing && |r.playersLeft| >= 2 ==>
      (res.Ok? <==>
        Count(r.matches, MatchStatus.Waiting) > 0
        || (Count(r.matches, MatchStatus.Ongoing) == 0 && |r.playersLeft| % 2 == 0))
    ensures r.status == RoomStatus.Ongoing && |r.playersLeft| >= 2 && Count(r.matches, MatchStatus.Waiting) == 0 ==>
      && (Count(r.matches, MatchStatus.Ongoing) > 0 ==> res == Err(OngoingMatchExists))
      && (Count(r.matches, MatchStatus.Ongoing) == 0 && |r.playersLeft| % 2 != 0 ==> res == Err(PairOutOfRange))
    ensures res.Ok? ==> (res.value.started.None? <==> |r.playersLeft| == 1)
    ensures res.Ok? ==> res.value.room.(matches := r.matches, winner := r.winner) == r
    ensures res.Ok? && |r.playersLeft| >= 2 ==> res.value.room.winner == r.winner
  {
    if r.status != RoomStatus.Ongoing then Err(NotOngoing)
    else if |r.playersLeft| == 0 then Err(NoPlayersLeft)
    else if |r.playersLeft| == 1 then
      match Save(r.(winner := Some(r.playersLeft[0].player)))
      case Err(e) => Err(e)
      case Ok(crowned) => Ok(Scheduled(crowned, None, false))
    else
      var isNextRound := Count(r.matches, MatchStatus.Waiting) == 0;
      var generated := if isNextRound then NextRound(r) else Ok(r);
      match generated
      case Err(e) => Err(e)
      case Ok(g) =>
        match LatestWaiting(g.matches)
        case None => Err(NoWaitingMatch)
        case Some(k) =>
          var started := g.matches[k].(status := MatchStatus.Ongoing);
          Ok(Scheduled(g.(matches := g.matches[k := started]), Some(started), isNextRound))
  }

  function End(r: Room): (res: Result<Room, Error>)
    ensures res.Ok? <==> |r.players| < MAX_PLAYERS
    ensures res.Ok? ==> res.value.status == RoomStatus.Completed
    ensures res.Ok? ==> res.value.(status := r.status) == r
  {
    Save(r.(status := RoomStatus.Completed))
  }

  /** The room after `call`; a call that fails leaves the room as it was. */
  function Step(r: Room, playerOf: map<UserId, PlayerId>, call: Call): Room {
    match call
    case AddPlayerCall(user) => AddPlayer(r, playerOf, user).GetOr(r)
    case RemovePlayerCall(user) => RemovePlayer(r, playerOf, user).GetOr(r)
    case StartCall => Start(r).GetOr(r)
    case NextMatchCall => (match NextMatch(r) case Ok(s) => s.room case Err(_) => r)
    case EndCall => End(r).GetOr(r)
  }

  /** The room after `calls`, in order. */
  function Run(r: Room, playerOf: map<UserId, PlayerId>, calls: seq<Call>): Room
    decreases |calls|
  {
    if calls == [] then r else Run(Step(r, playerOf, calls[0]), playerOf, calls[1..])
  }

  /** The room after `call` when start runs as written. */
  function StepAsWritten(r: Room, playerOf: map<UserId, PlayerId>, call: Call): Room {
    if call == StartCall then StartAsWritten(r).GetOr(r) else Step(r, playerOf, call)
  }

  function RunAsWritten(r: Room, playerOf: map<UserId, PlayerId>, calls: seq<Call>): Room
    decreases |calls|
  {
    if calls == [] then r else RunAsWritten(StepAsWritten(r, playerOf, calls[0]), playerOf, calls[1..])
  }

  /** Position of a status on the way WAITING, ONGOING, COMPLETED. */
  function Rank(s: RoomStatus): nat {
    match s
    case Waiting => 0
    case Ongoing => 1
    case Completed => 2
  }

  // ---------------------------------------------------------------------------
  // Counting lemmas

  lemma {:induction false} CountAppend(a: seq<TournamentMatch>, b: seq<TournamentMatch>, st: MatchStatus)
    ensures Count(a + b, st) == Count(a, st) + Count(b, st)
    decreases |b|
  {
    if b == [] {
      assert a + b == a;
    } else {
      assert (a + b)[..|a + b| - 1] == a + b[..|b| - 1];
      CountAppend(a, b[..|b| - 1], st);
    }
  }

  lemma {:induction false} CountAll(ms: seq<TournamentMatch>, st: MatchStatus)
    requires forall i :: 0 <= i < |ms| ==> ms[i].status == st
    ensures Count(ms, st) == |ms|
    decreases |ms|
  {
    if ms != [] {
      CountAll(ms[..|ms| - 1], st);
    }
  }

  // ---------------------------------------------------------------------------
  // Properties of the bracket

  /** A new round holds every alive player exactly once: the j-th alive player
      sits in pairing j / 2, as provisional winner when j is even and as
      provisional loser when j is odd, and in no other pairing. */
  lemma RoundSeatsEachAlivePlayerOnce(alive: seq<TournamentPlayer>, j: nat, k: nat)
    requires Increasing(alive) && |alive| % 2 == 0
    requires j < |alive| && k < |alive| / 2
    ensures Pairings(alive)[k].winner == alive[j] <==> j % 2 == 0 && k == j / 2
    ensures Pairings(alive)[k].loser == alive[j] <==> j % 2 == 1 && k == j / 2
  {
    forall i | 0 <= i < |alive| && i != j
      ensures alive[i] != alive[j]
    {
      if i < j { assert alive[i].id < alive[j].id; } else { assert alive[j].id < alive[i].id; }
    }
  }

  /** `after` is `base` with its match `k`, the last WAITING one, set to
      ONGOING and every other match unchanged. */
  ghost predicate StartedAt(base: seq<TournamentMatch>, after: seq<TournamentMatch>, k: int) {
    && 0 <= k < |base| == |after|
    && base[k].status == MatchStatus.Waiting
    && (forall j :: k < j < |base| ==> base[j].status != MatchStatus.Waiting)
    && after[k] == base[k].(status := MatchStatus.Ongoing)
    && (forall j :: 0 <= j < |base| && j != k ==> after[j] == base[j])
  }

  /** One unfolding of next_match when it starts a match: the generated round
      (if any) is appended and the latest WAITING match of the result is started. */
  lemma NextMatchUnfold(r: Room) returns (base: seq<TournamentMatch>, k: nat)
    requires NextMatch(r).Ok? && NextMatch(r).value.started.Some?
    ensures NextMatch(r).value.isNextRound <==> Count(r.matches, MatchStatus.Waiting) == 0
    ensures base == if NextMatch(r).value.isNextRound then r.matches + Pairings(r.playersLeft) else r.matches
    ensures LatestWaiting(base) == Some(k)
    ensures NextMatch(r).value.room.matches == base[k := base[k].(status := MatchStatus.Ongoing)]
    ensures NextMatch(r).value.started == Some(base[k].(status := MatchStatus.Ongoing))
  {
    var isNextRound := Count(r.matches, MatchStatus.Waiting) == 0;
    if isNextRound {
      assert NextRound(r).Ok?;
      base := r.matches + Pairings(r.playersLeft);
    } else {
      base := r.matches;
    }
    k := LatestWaiting(base).value;
  }

  /** A successful next_match that starts a match changes exactly one match: the
      most recently created WAITING one, among the existing matches or, when
      there was none, among those of the round it generated; that match goes from
      WAITING to ONGOING and is the one returned. The flag says whether a round
      was generated, which happens exactly when no match was WAITING. */
  lemma NextMatchStartsLatestWaiting(r: Room)
    requires NextMatch(r).Ok? && NextMatch(r).value.started.Some?
    ensures var s := NextMatch(r).value;
      var base := if s.isNextRound then r.matches + Pairings(r.playersLeft) else r.matches;
      && (s.isNextRound <==> Count(r.matches, MatchStatus.Waiting) == 0)
      && exists k :: StartedAt(base, s.room.matches, k) && s.started == Some(s.room.matches[k])
  {
    var s := NextMatch(r).value;
    var base, k := NextMatchUnfold(r);
    StartingLatestWaiting(base, k);
    assert StartedAt(base, s.room.matches, k) && s.started == Some(s.room.matches[k]);
  }

  /** Setting the latest WAITING match to ONGOING changes that match only. */
  lemma StartingLatestWaiting(base: seq<TournamentMatch>, k: nat)
    requires LatestWaiting(base) == Some(k)
    ensures StartedAt(base, base[k := base[k].(status := MatchStatus.Ongoing)], k)
  {
  }

  /** Once every match of a round has been started, next_match cannot go on:
      round generation refuses while any match is ONGOING, and nothing in the room
      ever completes a match. */
  lemma NextMatchStuckWhileMatchesOngoing(r: Room)
    requires r.status == RoomStatus.Ongoing && |r.playersLeft| >= 2
    requires Count(r.matches, MatchStatus.Waiting) == 0 && Count(r.matches, MatchStatus.Ongoing) > 0
    ensures NextMatch(r) == Err(OngoingMatchExists)
  {
  }

  /** Four alive players and no match yet: the first call generates the round
      (a, b), (c, d) and starts (c, d); the second starts (a, b) without a new
      round, leaving both ONGOING; the third fails. */
  lemma FirstRoundOfFour(r: Room, a: TournamentPlayer, b: TournamentPlayer, c: TournamentPlayer, d: TournamentPlayer)
    requires r.status == RoomStatus.Ongoing && r.playersLeft == [a, b, c, d] && r.matches == []
    ensures NextMatch(r).Ok?
    ensures NextMatch(r).value.started == Some(TournamentMatch(MatchStatus.Ongoing, c, d, 0, 0))
    ensures NextMatch(r).value.isNextRound
    ensures NextMatch(NextMatch(r).value.room).Ok?
    ensures NextMatch(NextMatch(r).value.room).value.started == Some(TournamentMatch(MatchStatus.Ongoing, a, b, 0, 0))
    ensures !NextMatch(NextMatch(r).value.room).value.isNextRound
    ensures NextMatch(NextMatch(NextMatch(r).value.room).value.room) == Err(OngoingMatchExists)
  {
    var ab, cd := NewTournamentMatch(a, b), NewTournamentMatch(c, d);
    var abOn, cdOn := ab.(status := MatchStatus.Ongoing), cd.(status := MatchStatus.Ongoing);
    FirstCallOfRound(r, a, b, c, d);
    var first := r.(matches := [ab, cdOn]);
    SecondCallOfRound(first, ab, cdOn);
    var second := first.(matches := [abOn, cdOn]);
    assert Count(second.matches, MatchStatus.Ongoing) > 0 by {
      assert second.matches[1].status == MatchStatus.Ongoing;
    }
    NextMatchStuckWhileMatchesOngoing(second);
  }

  /** The first call of the example above: the round is generated and its last
      pairing started. */
  lemma FirstCallOfRound(r: Room, a: TournamentPlayer, b: TournamentPlayer, c: TournamentPlayer, d: TournamentPlayer)
    requires r.status == RoomStatus.Ongoing && r.playersLeft == [a, b, c, d] && r.matches == []
    ensures var cdOn := NewTournamentMatch(c, d).(status := MatchStatus.Ongoing);
      NextMatch(r) == Ok(Scheduled(r.(matches := [NewTournamentMatch(a, b), cdOn]), Some(cdOn), true))
  {
    var round := [NewTournamentMatch(a, b), NewTournamentMatch(c, d)];
    RoundOfFour(r, a, b, c, d);
    LatestOfFreshRound(round);
  }

  lemma RoundOfFour(r: Room, a: TournamentPlayer, b: TournamentPlayer, c: TournamentPlayer, d: TournamentPlayer)
    requires r.status == RoomStatus.Ongoing && r.playersLeft == [a, b, c, d] && r.matches == []
    ensures NextRound(r) == Ok(r.(matches := [NewTournamentMatch(a, b), NewTournamentMatch(c, d)]))
  {
    var round := Pairings(r.playersLeft);
    assert |round| == 2 && round[0] == NewTournamentMatch(a, b) && round[1] == NewTournamentMatch(c, d);
    assert r.matches + round == [NewTournamentMatch(a, b), NewTournamentMatch(c, d)];
  }

  lemma LatestOfFreshRound(round: seq<TournamentMatch>)
    requires |round| == 2 && round[0].status == MatchStatus.Waiting && round[1].status == MatchStatus.Waiting
    ensures LatestWaiting(round) == Some(1)
    ensures round[1 := round[1].(status := MatchStatus.Ongoing)] == [round[0], round[1].(status := MatchStatus.Ongoing)]
  {
  }

  /** The second call of the example above: the remaining WAITING pairing is
      started, no round is generated. */
  lemma SecondCallOfRound(r: Room, waiting: TournamentMatch, ongoing: TournamentMatch)
    requires r.status == RoomStatus.Ongoing && |r.playersLeft| >= 2
    requires waiting.status == MatchStatus.Waiting && ongoing.status == MatchStatus.Ongoing
    requires r.matches == [waiting, ongoing]
    ensures var started := waiting.(status := MatchStatus.Ongoing);
      NextMatch(r) == Ok(Scheduled(r.(matches := [started, ongoing]), Some(started), false))
  {
    assert r.matches[..1] == [waiting];
    assert LatestWaiting(r.matches) == Some(0);
    assert r.matches[0 := waiting.(status := MatchStatus.Ongoing)] == [waiting.(status := MatchStatus.Ongoing), ongoing];
  }

  /** Every operation keeps the room invariant. */
  lemma StepPreservesValid(r: Room, playerOf: map<UserId, PlayerId>, call: Call)
    requires Valid(r)
    ensures Valid(Step(r, playerOf, call))
  {
    match call
    case AddPlayerCall(user) =>
      var res := AddPlayer(r, playerOf, user);
      if res.Ok? {
        var added := res.value.players;
        assert forall i :: 0 <= i < |r.players| ==> r.players[i] in r.players;
        assert forall tp :: tp in added ==> tp in r.players || tp.id == r.nextId;
      }
    case RemovePlayerCall(user) =>
    case StartCall =>
    case NextMatchCall =>
    case EndCall =>
  }

  lemma {:induction false} RunPreservesValid(r: Room, playerOf: map<UserId, PlayerId>, calls: seq<Call>)
    requires Valid(r)
    ensures Valid(Run(r, playerOf, calls))
    decreases |calls|
  {
    if calls != [] {
      StepPreservesValid(r, playerOf, calls[0]);
      RunPreservesValid(Step(r, playerOf, calls[0]), playerOf, calls[1..]);
    }
  }

  /** A room never holds MAX_PLAYERS players: add_player's save refuses the
      eighth. So only four or six players can ever start a tournament. */
  lemma ReachableRoomsStartWithFourOrSix(owner: UserId, playerOf: map<UserId, PlayerId>, calls: seq<Call>)
    ensures |Run(NewRoom(owner), playerOf, calls).players| < MAX_PLAYERS
    ensures Start(Run(NewRoom(owner), playerOf, calls)).Ok? ==>
      |Run(NewRoom(owner), playerOf, calls).players| in {4, 6}
  {
    RunPreservesValid(NewRoom(owner), playerOf, calls);
  }

  /** The status never moves backwards; only a successful start leads to
      ONGOING, and it leaves WAITING; only end leads to COMPLETED. */
  lemma StepStatus(r: Room, playerOf: map<UserId, PlayerId>, call: Call)
    ensures Rank(r.status) <= Rank(Step(r, playerOf, call).status)
    ensures Step(r, playerOf, call).status == RoomStatus.Ongoing && r.status != RoomStatus.Ongoing ==>
      call == StartCall && r.status == RoomStatus.Waiting
    ensures Step(r, playerOf, call).status == RoomStatus.Completed && r.status != RoomStatus.Completed ==>
      call == EndCall
  {
  }

  lemma {:induction false} RunNeverReturnsToWaiting(r: Room, playerOf: map<UserId, PlayerId>, calls: seq<Call>)
    ensures Rank(r.status) <= Rank(Run(r, playerOf, calls).status)
    ensures r.status != RoomStatus.Waiting ==> Run(r, playerOf, calls).status != RoomStatus.Waiting
    decreases |calls|
  {
    if calls != [] {
      StepStatus(r, playerOf, calls[0]);
      RunNeverReturnsToWaiting(Step(r, playerOf, calls[0]), playerOf, calls[1..]);
    }
  }

  /** No operation changes the owner, so whoever owns a room owns it for good. */
  lemma {:induction false} RunKeepsOwner(r: Room, playerOf: map<UserId, PlayerId>, calls: seq<Call>, user: UserId)
    ensures IsOwner(Run(r, playerOf, calls), user) == IsOwner(r, user)
    decreases |calls|
  {
    if calls != [] {
      RunKeepsOwner(Step(r, playerOf, calls[0]), playerOf, calls[1..], user);
    }
  }

  /** Once no match is WAITING and some match is ONGOING, no call ever starts or
      creates a match again: round generation refuses, and nothing completes the
      ONGOING match. A single alive player can still be named champion. */
  lemma {:induction false} RunStartsNoMoreMatches(r: Room, playerOf: map<UserId, PlayerId>, calls: seq<Call>)
    requires Count(r.matches, MatchStatus.Waiting) == 0 && Count(r.matches, MatchStatus.Ongoing) > 0
    ensures Run(r, playerOf, calls).matches == r.matches
    decreases |calls|
  {
    if calls != [] {
      var next := Step(r, playerOf, calls[0]);
      assert next.matches == r.matches;
      RunStartsNoMoreMatches(next, playerOf, calls[1..]);
    }
  }

  /** Two entries of the user's Player in a room make remove_player fail, since
      the lookup of the entry returns more than one. */
  lemma TwoEntriesMeanMultipleEntries(r: Room, playerOf: map<UserId, PlayerId>, user: UserId, i: nat, j: nat)
    requires Increasing(r.players) && user in playerOf
    requires i < j < |r.players|
    requires r.players[i].player == playerOf[user] && r.players[j].player == playerOf[user]
    ensures RemovePlayer(r, playerOf, user) == Err(MultipleEntries)
  {
    var es := EntriesOf(r.players, playerOf[user]);
    assert r.players[i] in es && r.players[j] in es;
    var a :| 0 <= a < |es| && es[a] == r.players[i];
    var b :| 0 <= b < |es| && es[b] == r.players[j];
    assert r.players[i].id < r.players[j].id;
    assert a != b;
  }

  /** add_player does not look for an existing entry: a user added twice can no
      longer be removed. */
  lemma AddedTwiceCannotBeRemoved(r: Room, playerOf: map<UserId, PlayerId>, user: UserId)
    requires Valid(r)
    requires AddPlayer(r, playerOf, user).Ok? && AddPlayer(AddPlayer(r, playerOf, user).value, playerOf, user).Ok?
    ensures RemovePlayer(AddPlayer(AddPlayer(r, playerOf, user).value, playerOf, user).value, playerOf, user)
      == Err(MultipleEntries)
  {
    var once := AddPlayer(r, playerOf, user).value;
    StepPreservesValid(r, playerOf, AddPlayerCall(user));
    StepPreservesValid(once, playerOf, AddPlayerCall(user));
    var twice := AddPlayer(once, playerOf, user).value;
    var n := |r.players|;
    assert twice.players[n] == TournamentPlayer(r.nextId, playerOf[user]);
    assert twice.players[n + 1] == TournamentPlayer(r.nextId + 1, playerOf[user]);
    TwoEntriesMeanMultipleEntries(twice, playerOf, user, n, n + 1);
  }

  /** With start as written, a room that is not ONGOING never becomes ONGOING
      and never gets a match or a champion, whatever is called. */
  lemma {:induction false} RunAsWrittenNeverStarts(r: Room, playerOf: map<UserId, PlayerId>, calls: seq<Call>)
    requires r.status != RoomStatus.Ongoing
    ensures RunAsWritten(r, playerOf, calls).status != RoomStatus.Ongoing
    ensures RunAsWritten(r, playerOf, calls).matches == r.matches
    ensures RunAsWritten(r, playerOf, calls).winner == r.winner
    decreases |calls|
  {
    if calls != [] {
      var next := StepAsWritten(r, playerOf, calls[0]);
      if calls[0] != StartCall {
        StepStatus(r, playerOf, calls[0]);
      }
      assert next.status != RoomStatus.Ongoing && next.matches == r.matches && next.winner == r.winner;
      RunAsWrittenNeverStarts(next, playerOf, calls[1..]);
    }
  }

  /** Four users join a new room and start is called: the intended start opens
      the tournament, start as written leaves the room WAITING. */
  lemma FourPlayersStart(owner: UserId, playerOf: map<UserId, PlayerId>, u1: UserId, u2: UserId, u3: UserId, u4: UserId)
    requires u1 in playerOf && u2 in playerOf && u3 in playerOf && u4 in playerOf
    ensures var calls := [AddPlayerCall(u1), AddPlayerCall(u2), AddPlayerCall(u3), AddPlayerCall(u4), StartCall];
      && Run(NewRoom(owner), playerOf, calls).status == RoomStatus.Ongoing
      && |Run(NewRoom(owner), playerOf, calls).playersLeft| == 4
      && RunAsWritten(NewRoom(owner), playerOf, calls).status == RoomStatus.Waiting
  {
    var calls := [AddPlayerCall(u1), AddPlayerCall(u2), AddPlayerCall(u3), AddPlayerCall(u4), StartCall];
    var joins := [AddPlayerCall(u1), AddPlayerCall(u2), AddPlayerCall(u3), AddPlayerCall(u4)];
    var joined := JoinFour(owner, playerOf, u1, u2, u3, u4);
    assert joins + [StartCall] == calls;
    RunSplit(NewRoom(owner), playerOf, joins, [StartCall]);
    RunAsWrittenSplit(NewRoom(owner), playerOf, joins, [StartCall]);
    assert [StartCall][1..] == [];
    assert Run(joined, playerOf, [StartCall]) == Start(joined).value;
    assert RunAsWritten(joined, playerOf, [StartCall]) == joined;
  }

  /** The room after four users join a new one, whichever start is used. */
  lemma JoinFour(owner: UserId, playerOf: map<UserId, PlayerId>, u1: UserId, u2: UserId, u3: UserId, u4: UserId)
    returns (joined: Room)
    requires u1 in playerOf && u2 in playerOf && u3 in playerOf && u4 in playerOf
    ensures var calls := [AddPlayerCall(u1), AddPlayerCall(u2), AddPlayerCall(u3), AddPlayerCall(u4)];
      && Run(NewRoom(owner), playerOf, calls) == joined
      && RunAsWritten(NewRoom(owner), playerOf, calls) == joined
      && joined.status == RoomStatus.Waiting && |joined.players| == 4
  {
    var r0 := NewRoom(owner);
    var r1 := AddPlayer(r0, playerOf, u1).value;
    var r2 := AddPlayer(r1, playerOf, u2).value;
    var r3 := AddPlayer(r2, playerOf, u3).value;
    joined := AddPlayer(r3, playerOf, u4).value;
    var c4 := [AddPlayerCall(u4)];
    var c3 := [AddPlayerCall(u3)] + c4;
    var c2 := [AddPlayerCall(u2)] + c3;
    var c1 := [AddPlayerCall(u1)] + c2;
    assert c4[1..] == [] && c3[1..] == c4 && c2[1..] == c3 && c1[1..] == c2;
    assert StepAsWritten(r0, playerOf, c1[0]) == r1 && StepAsWritten(r1, playerOf, c2[0]) == r2;
    assert StepAsWritten(r2, playerOf, c3[0]) == r3 && StepAsWritten(r3, playerOf, c4[0]) == joined;
    assert RunAsWritten(joined, playerOf, []) == joined;
    assert RunAsWritten(r3, playerOf, c4) == RunAsWritten(StepAsWritten(r3, playerOf, c4[0]), playerOf, c4[1..]);
    assert Run(r3, playerOf, c4) == joined && RunAsWritten(r3, playerOf, c4) == joined;
    assert Run(r2, playerOf, c3) == joined && RunAsWritten(r2, playerOf, c3) == joined;
    assert Run(r1, playerOf, c2) == joined && RunAsWritten(r1, playerOf, c2) == joined;
    assert Run(r0, playerOf, c1) == joined && RunAsWritten(r0, playerOf, c1) == joined;
    assert c1 == [AddPlayerCall(u1), AddPlayerCall(u2), AddPlayerCall(u3), AddPlayerCall(u4)];
  }

  lemma {:induction false} RunSplit(r: Room, playerOf: map<UserId, PlayerId>, a: seq<Call>, b: seq<Call>)
    ensures Run(r, playerOf, a + b) == Run(Run(r, playerOf, a), playerOf, b)
    decreases |a|
  {
    if a != [] {
      assert (a + b)[0] == a[0] && (a + b)[1..] == a[1..] + b;
      RunSplit(Step(r, playerOf, a[0]), playerOf, a[1..], b);
    } else {
      assert a + b == b;
    }
  }

  lemma {:induction false} RunAsWrittenSplit(r: Room, playerOf: map<UserId, PlayerId>, a: seq<Call>, b: seq<Call>)
    ensures RunAsWritten(r, playerOf, a + b) == RunAsWritten(RunAsWritten(r, playerOf, a), playerOf, b)
    decreases |a|
  {
    if a != [] {
      assert (a + b)[0] == a[0] && (a + b)[1..] == a[1..] + b;
      RunAsWrittenSplit(StepAsWritten(r, playerOf, a[0]), playerOf, a[1..], b);
    } else {
      assert a + b == b;
    }
  }
}

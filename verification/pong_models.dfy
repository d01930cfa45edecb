/** The stateful objects of pong/models.py: a tournament room and a match
    invitation, whose methods update their fields in place. Each method is proved
    to leave the object exactly as the matching function of Bracket or
    Invitations describes, and to report the same failure. A method whose final
    save() fails restores the fields it changed, so a failed call changes
    nothing. */
module PongModels {
  import opened Common
  import opened Records
  import Bracket
  import Invitations

  class TournamentRoom {
    var owner: UserId
    var status: Bracket.RoomStatus
    var players: seq<Bracket.TournamentPlayer>
    var playersLeft: seq<Bracket.TournamentPlayer>
    var matches: seq<Bracket.TournamentMatch>
    var winner: Option<PlayerId>
    var nextId: nat

    /** The room's fields as a value. */
    ghost function Snapshot(): Bracket.Room
      reads this
    {
      Bracket.Room(owner, status, players, playersLeft, matches, winner, nextId)
    }

    constructor (owner: UserId)
      ensures Snapshot() == Bracket.NewRoom(owner)
    {
      this.owner := owner;
      status := Bracket.RoomStatus.Waiting;
      players := [];
      playersLeft := [];
      matches := [];
      winner := None;
      nextId := 0;
    }

    method Save() returns (res: Outcome<Bracket.Error>)
      ensures res == Bracket.Save(Snapshot()).ToOutcome()
    {
      if |players| >= Bracket.MAX_PLAYERS {
        return Fail(Bracket.MaxPlayersExceeded);
      }
      return Pass;
    }

    method AddPlayer(playerOf: map<UserId, PlayerId>, user: UserId) returns (res: Outcome<Bracket.Error>)
      modifies this
      ensures res == Bracket.AddPlayer(old(Snapshot()), playerOf, user).ToOutcome()
      ensures Snapshot() == Bracket.AddPlayer(old(Snapshot()), playerOf, user).GetOr(old(Snapshot()))
    {
      if |players| >= Bracket.MAX_PLAYERS {
        return Fail(Bracket.MaxPlayersExceeded);
      }
      if user !in playerOf {
        return Fail(Bracket.PlayerNotFound);
      }
      var playersBefore, nextIdBefore := players, nextId;
      players := players + [Bracket.TournamentPlayer(nextId, playerOf[user])];
      nextId := nextId + 1;
      res := Save();
      if res.Fail? {
        players, nextId := playersBefore, nextIdBefore;
      }
    }

    method RemovePlayer(playerOf: map<UserId, PlayerId>, user: UserId) returns (res: Outcome<Bracket.Error>)
      modifies this
      ensures res == Bracket.RemovePlayer(old(Snapshot()), playerOf, user).ToOutcome()
      ensures Snapshot() == Bracket.RemovePlayer(old(Snapshot()), playerOf, user).GetOr(old(Snapshot()))
    {
      if user !in playerOf {
        return Fail(Bracket.PlayerNotFound);
      }
      var entries := Bracket.EntriesOf(players, playerOf[user]);
      if |entries| == 0 {
        return Fail(Bracket.PlayerNotFound);
      }
      if |entries| > 1 {
        return Fail(Bracket.MultipleEntries);
      }
      var entry := entries[0];
      var playersBefore, leftBefore := players, playersLeft;
      players := Bracket.Without(players, entry);
      // deleting the entry also takes it out of the alive list
      playersLeft := Bracket.Without(playersLeft, entry);
      res := Save();
      if res.Fail? {
        players, playersLeft := playersBefore, leftBefore;
      }
    }

    method Start() returns (res: Outcome<Bracket.Error>)
      modifies this
      ensures res == Bracket.Start(old(Snapshot())).ToOutcome()
      ensures Snapshot() == Bracket.Start(old(Snapshot())).GetOr(old(Snapshot()))
    {
      if |players| < Bracket.MIN_PLAYERS {
        return Fail(Bracket.TooFewPlayers);
      }
      if |players| % 2 != 0 {
        return Fail(Bracket.OddPlayerCount);
      }
      if status != Bracket.RoomStatus.Waiting {
        return Fail(Bracket.NotWaiting);
      }
      var leftBefore, statusBefore := playersLeft, status;
      playersLeft := players;
      status := Bracket.RoomStatus.Ongoing;
      res := Save();
      if res.Fail? {
        playersLeft, status := leftBefore, statusBefore;
      }
    }

    /** Round generation: walks the alive list two at a time and creates one
        WAITING match per pair. */
    method NextRound() returns (res: Outcome<Bracket.Error>)
      modifies this
      ensures res == Bracket.NextRound(old(Snapshot())).ToOutcome()
      ensures Snapshot() == Bracket.NextRound(old(Snapshot())).GetOr(old(Snapshot()))
    {
      if status != Bracket.RoomStatus.Ongoing {
        return Fail(Bracket.NotOngoing);
      }
      if Bracket.Count(matches, Bracket.MatchStatus.Ongoing) > 0 {
        return Fail(Bracket.OngoingMatchExists);
      }
      var alive := playersLeft;
      var created: seq<Bracket.TournamentMatch> := [];
      var i := 0;
      while i < |alive|
        invariant 0 <= i <= |alive| && i % 2 == 0
        invariant |created| == i / 2
        invariant forall k :: 0 <= k < i / 2 ==>
          created[k] == Bracket.NewTournamentMatch(alive[2 * k], alive[2 * k + 1])
      {
        if i + 1 >= |alive| {
          // the second player of the last pair lies past the end of the list
          return Fail(Bracket.PairOutOfRange);
        }
        created := created + [Bracket.NewTournamentMatch(alive[i], alive[i + 1])];
        i := i + 2;
      }
      assert created == Bracket.Pairings(alive);
      matches := matches + created;
      return Pass;
    }

    /** The scheduler: names the champion when one player is left, otherwise
        starts the latest WAITING match, generating a round first when there is
        none. Returns the match started and whether a round was generated. */
    method NextMatch() returns (res: Result<(Option<Bracket.TournamentMatch>, bool), Bracket.Error>)
      modifies this
      ensures var spec := Bracket.NextMatch(old(Snapshot()));
        && (spec.Err? ==> res == Err(spec.error) && Snapshot() == old(Snapshot()))
        && (spec.Ok? ==> res == Ok((spec.value.started, spec.value.isNextRound)) && Snapshot() == spec.value.room)
    {
      if status != Bracket.RoomStatus.Ongoing {
        return Err(Bracket.NotOngoing);
      }
      if |playersLeft| == 0 {
        return Err(Bracket.NoPlayersLeft);
      }
      if |playersLeft| == 1 {
        var winnerBefore := winner;
        winner := Some(playersLeft[0].player);
        var saved := Save();
        if saved.Fail? {
          winner := winnerBefore;
          return Err(saved.error);
        }
        return Ok((None, false));
      }
      var isNextRound := false;
      if Bracket.Count(matches, Bracket.MatchStatus.Waiting) == 0 {
        var generated := NextRound();
        if generated.Fail? {
          return Err(generated.error);
        }
        isNextRound := true;
      }
      var latest := Bracket.LatestWaiting(matches);
      if latest.None? {
        return Err(Bracket.NoWaitingMatch);
      }
      var started := matches[latest.value].(status := Bracket.MatchStatus.Ongoing);
      matches := matches[latest.value := started];
      return Ok((Some(started), isNextRound));
    }

    method End() returns (res: Outcome<Bracket.Error>)
      modifies this
      ensures res == Bracket.End(old(Snapshot())).ToOutcome()
      ensures Snapshot() == Bracket.End(old(Snapshot())).GetOr(old(Snapshot()))
    {
      var statusBefore := status;
      status := Bracket.RoomStatus.Completed;
      res := Save();
      if res.Fail? {
        status := statusBefore;
      }
    }
  }

  class MatchInvitation {
    var sender: UserId
    var receiver: UserId
    var status: Invitations.Status
    var linked: Option<Match>
    var expiredAt: Option<int>

    /** The invitation's fields as a value. */
    ghost function Snapshot(): Invitations.Invitation
      reads this
    {
      Invitations.Invitation(sender, receiver, status, linked, expiredAt)
    }

    /** A new invitation: WAITING, no match, saved at `now`. */
    constructor (sender: UserId, receiver: UserId, now: int)
      ensures Snapshot() == Invitations.Create(sender, receiver, now)
    {
      this.sender := sender;
      this.receiver := receiver;
      status := Invitations.Waiting;
      linked := None;
      expiredAt := None;
      new;
      Save(now);
    }

    method Save(now: int)
      modifies this
      ensures Snapshot() == Invitations.Save(old(Snapshot()), now)
    {
      if status == Invitations.Waiting && expiredAt.None? {
        expiredAt := Some(now + Invitations.INVITATION_EXPIRE_TIME);
      }
    }

    method Accept(now: int) returns (res: Outcome<Invitations.Error>)
      modifies this
      ensures res == Invitations.Accept(old(Snapshot()), now).ToOutcome()
      ensures Snapshot() == Invitations.Accept(old(Snapshot()), now).GetOr(old(Snapshot()))
    {
      if status != Invitations.Waiting {
        return Fail(Invitations.NotWaiting);
      }
      status := Invitations.Accepted;
      expiredAt := None;
      Save(now);
      return Pass;
    }

    method Reject(now: int) returns (res: Outcome<Invitations.Error>)
      modifies this
      ensures res == Invitations.Reject(old(Snapshot()), now).ToOutcome()
      ensures Snapshot() == Invitations.Reject(old(Snapshot()), now).GetOr(old(Snapshot()))
    {
      if status != Invitations.Waiting {
        return Fail(Invitations.NotWaiting);
      }
      status := Invitations.Rejected;
      expiredAt := None;
      Save(now);
      return Pass;
    }

    method CreateMatch(playerOf: map<UserId, PlayerId>, now: int) returns (res: Result<Match, Invitations.Error>)
      modifies this
      ensures var spec := Invitations.CreateMatch(old(Snapshot()), playerOf, now);
        && (spec.Err? ==> res == Err(spec.error) && Snapshot() == old(Snapshot()))
        && (spec.Ok? ==> res == Ok(spec.value.1) && Snapshot() == spec.value.0)
    {
      if status != Invitations.Accepted {
        return Err(Invitations.NotAccepted);
      }
      if linked.Some? {
        return Err(Invitations.MatchAlreadyExists);
      }
      if sender !in playerOf || receiver !in playerOf {
        return Err(Invitations.NoPlayerRecord);
      }
      var m := NewMatch(playerOf[sender], playerOf[receiver], PVP);
      linked := Some(m);
      Save(now);
      return Ok(m);
    }
  }
}

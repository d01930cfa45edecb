/** The result concepts shared by tournaments and invitations (pong/models.py):
    a Player per user, and an ad-hoc Match between two players. */
module Records {
  import opened Common

  type UserId = nat
  type PlayerId = nat

  /** Rating a new Player starts with. */
  const DEFAULT_ELO: int := 1200

  datatype Player = Player(id: PlayerId, user: Option<UserId>, wins: int, losses: int, elo: int)

  datatype MatchType = PVP | PVE

  /** An ad-hoc contest; `kind` and the player references are nullable in the source. */
  datatype Match = Match(
    winner: Option<PlayerId>,
    loser: Option<PlayerId>,
    winnerScore: int,
    loserScore: int,
    kind: Option<MatchType>,
    endedAt: Option<int>)

  /** A Player record for `user` as the field defaults create it. */
  function NewPlayer(id: PlayerId, user: UserId): (p: Player)
    ensures p.id == id && p.user == Some(user)
    ensures p.wins == 0 && p.losses == 0 && p.elo == DEFAULT_ELO
  {
    Player(id, Some(user), 0, 0, DEFAULT_ELO)
  }

  /** A Match created with the given players and kind; scores start at zero and
      the match is not finished. */
  function NewMatch(winner: PlayerId, loser: PlayerId, kind: MatchType): (m: Match)
    ensures m.winner == Some(winner) && m.loser == Some(loser) && m.kind == Some(kind)
    ensures m.winnerScore == 0 && m.loserScore == 0 && m.endedAt == None
  {
    Match(Some(winner), Some(loser), 0, 0, Some(kind), None)
  }
}

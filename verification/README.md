# Tournament bracket, match invitations and friend flags — a Dafny model

This project models the core of a two-player game's backend (a Django
application):

- **The tournament room** (`TournamentRoom` in `pong/models.py`). It keeps a
  roster of up to `MAX_PLAYERS` entries and an alive list. It pairs the alive
  players round by round into WAITING matches. Each call to `next_match` starts
  the latest WAITING match. With one player alive, it names that player champion.
- **The match invitation** (`MatchInvitation`). It is a WAITING proposal with an
  expiry 300 seconds after it is saved. It can be accepted or rejected once. An
  accepted invitation can produce one PVP match.
- **Friend requests and relation flags** (`friend/models.py`).

## Layout

Each stateful entity appears twice in the model:

- as a value, with one function per operation: modules `Bracket`, `Invitations`
  and `Friendship`. The lemmas about the system are stated over these.
- as a class whose methods update fields in place, as the source does: modules
  `PongModels` and `FriendModels`. Each method is proved to leave the object
  exactly as the matching function describes, and to report the same failure.

`Common` holds `Option`, `Result` and `Outcome`. `Records` holds the `Player` and
`Match` records with their field defaults.

The model takes these things as parameters:

- **Time.** It is an integer number of seconds passed as `now`.
- **The user → Player lookup.** It is the map `playerOf`. A user missing from the
  map has no Player record.
- **Creation order.** Each `TournamentPlayer` gets an increasing `id` when it is
  created. Matches are kept in a sequence in creation order. "Most recently
  created" therefore means "highest index".

The failures the source raises (`ValueError`, a missing related object, an
index out of range, `None` compared with a time) become `Err`/`Fail` values of
the module's `Error` type. There are two exceptions:

- The owner test in `start` fails on every call. It is modelled separately (see
  "Findings" below).
- `UserRelation.delete` and `UserRelation.block` raise on their timestamp line.
  The model sets their flags and succeeds (see "Left out" below).

**`save()` is atomic in the model.** When an operation's final `save()` fails,
the whole operation fails and the object is left as it was. The source's
`save()` raises whenever the roster holds 8 or more entries
(`pong/models.py:87`). That has a consequence for `add_player`: adding the
eighth player always fails on the save that follows. So in the model a room
never holds more than 7 players, and because `start` needs an even count of at least 4, only
rooms of 4 or 6 can start (`Bracket.ReachableRoomsStartWithFourOrSix`).

### Behaviour that follows the code

- `start` performs no caller check. Its owner test looks up a `user` attribute
  on the owner itself, and no caller is passed in. As written, that test never
  passes (see "Findings" below). Elsewhere the model uses `start` without it.
- In the single-survivor branch, `next_match` only records `winner`. The status
  stays ONGOING, and no end time is set. Only `end` sets COMPLETED.
- Nothing in the source completes a `TournamentMatch` or removes a loser from
  the alive list. Two `next_match` calls in one round leave two matches ONGOING.
  Once every match of the round has started, no further match is ever created
  or started, whatever is called (`Bracket.FirstRoundOfFour`,
  `Bracket.RunStartsNoMoreMatches`). While two or more players are alive,
  `next_match` fails with OngoingMatchExists. If `remove_player` leaves a single
  alive entry, `next_match` names that entry champion.
- `remove_player` works in every status. Deleting the entry also removes it
  from the alive list. So the alive list can shrink to one player, which makes
  that player champion, or it can become odd, in which case round generation
  fails on an index past the end.
- `add_player` does not check for an existing entry, so the same user can be
  added twice. After that, `remove_player` for that user fails, because the
  lookup finds two entries (`MultipleEntries`, `Bracket.AddedTwiceCannotBeRemoved`).
- `accept` and `reject` on an invitation never look at the expiry. An expired
  invitation can still be accepted. After either one, `is_expired` fails rather
  than returning false, because the expiry has been cleared.
- `MatchInvitation.reject` takes no reason. `FriendRequest.accept` and
  `FriendRequest.reject` work from any status.

## Model

| member | source | states |
|---|---|---|
| `Records.NewPlayer` | django/src/pong/models.py:14-24 | a new Player belongs to its user and starts with 0 wins, 0 losses and rating 1200 |
| `Records.NewMatch` | django/src/pong/models.py:30-46 | a new Match has the given winner, loser and kind, zero scores and no end time |
| `Bracket.NewRoom` | django/src/pong/models.py:53-83 | a new room is WAITING with an empty roster and already satisfies the room invariant |
| `Bracket.Save` | django/src/pong/models.py:86-89 | save succeeds, changing nothing, exactly when the roster holds fewer than MAX_PLAYERS; otherwise it fails with MaxPlayersExceeded |
| `Bracket.AddPlayer` | django/src/pong/models.py:91-102 | fails when the roster is full or the user has no Player; also fails when the new roster would be full, because of the save; otherwise appends exactly one new entry, with the next id, for that user's Player, and changes nothing else |
| `Bracket.EntriesOf` | django/src/pong/models.py:107-109 | the room's entries for a Player are exactly the roster members that stand for it, kept in creation order, so no entry is listed twice |
| `Bracket.TwoEntriesMeanMultipleEntries` | django/src/pong/models.py:104-110 | when two roster entries stand for the user's Player, remove_player fails with MultipleEntries |
| `Bracket.AddedTwiceCannotBeRemoved` | django/src/pong/models.py:91-110 | in a valid room, after the same user is added twice, remove_player for that user fails with MultipleEntries |
| `Bracket.Without` | django/src/pong/models.py:112-113 | removing an entry keeps exactly the other members, in creation order |
| `Bracket.RemovePlayer` | django/src/pong/models.py:104-114 | fails when the user has no Player or no entry, and with MultipleEntries when it has two; it succeeds whenever the user has exactly one entry in a room below capacity; on success the user's only entry leaves the roster and the alive list, and nothing else changes |
| `Bracket.IsMember` | django/src/pong/models.py:116-123 | true exactly when the user has a Player and some roster entry stands for it |
| `Bracket.RunKeepsOwner` | django/src/pong/models.py:125-126 | `Bracket.IsOwner` (is_owner) compares with the room's owner, and no sequence of operations changes the owner |
| `Bracket.Start` | django/src/pong/models.py:131-139 | the intended start, without the owner test of line 129: fails with TooFewPlayers below 4, then OddPlayerCount on an odd count, then NotWaiting; on success the alive list equals the roster in creation order, the status is ONGOING, and nothing else changes |
| `Bracket.Count` | django/src/pong/models.py:151 | the filtered count is at most the number of matches and is zero exactly when no match has that status |
| `Bracket.LatestWaiting` | django/src/pong/models.py:154-155 | returns a WAITING match with no WAITING match created after it, and returns none exactly when the WAITING count is zero |
| `Bracket.Pairings` | django/src/pong/models.py:165-171 | a round has half as many matches as alive players, and the k-th pairs alive[2k] as provisional winner with alive[2k+1] as provisional loser, WAITING, scores 0 |
| `Bracket.NextRound` | django/src/pong/models.py:160-171 | fails unless the room is ONGOING, then fails if any match is ONGOING, then fails on an odd alive count; on success it appends the pairings of the alive list, leaves the existing matches untouched, and adds exactly half the alive count of WAITING matches |
| `Bracket.NextMatch` | django/src/pong/models.py:141-158 | fails with NotOngoing, then with NoPlayersLeft; with one player left it only sets the winner to that player's Player and returns no match; it never reaches the missing-WAITING-match crash; with two or more players left it succeeds exactly when some match is WAITING, or when no match is ONGOING and the alive count is even; it fails with OngoingMatchExists when no match is WAITING and some is ONGOING, and with PairOutOfRange when none is WAITING or ONGOING and the alive count is odd; when it starts a match it leaves the winner as it was; it never changes the roster, the alive list or the status |
| `Bracket.NextMatchStartsLatestWaiting` | django/src/pong/models.py:150-158 | the round flag is set exactly when no match was WAITING; exactly one match changes, the latest WAITING one, from WAITING to ONGOING, and it is the match returned |
| `Bracket.RoundSeatsEachAlivePlayerOnce` | django/src/pong/models.py:165-171 | in a generated round, each alive player appears in exactly one match: in pairing j/2, as winner when its position j is even and as loser when j is odd |
| `Bracket.NextMatchStuckWhileMatchesOngoing` | django/src/pong/models.py:150-164 | with no WAITING match and some ONGOING match, next_match fails with OngoingMatchExists |
| `Bracket.FirstRoundOfFour` | django/src/pong/models.py:141-171 | with alive [a,b,c,d] and no matches: the first call generates (a,b),(c,d) and starts (c,d) with the round flag; the second starts (a,b) without it; the third fails |
| `Bracket.SecondCallOfRound` | django/src/pong/models.py:150-158 | with one WAITING match before an ONGOING one, next_match starts the WAITING one, changes nothing else and generates no round |
| `Bracket.RunStartsNoMoreMatches` | django/src/pong/models.py:141-175 | once no match is WAITING and some match is ONGOING, no sequence of calls changes the matches, so no further match is created or started |
| `Bracket.StartAsWritten` | django/src/pong/models.py:128-130 | start as written: fails with NotOwner on every call, before the player count and the status are tested |
| `Bracket.RunAsWrittenNeverStarts` | django/src/pong/models.py:128-130 | with start as written, a room that is not ONGOING never becomes ONGOING and never gets a match or a champion, whatever is called |
| `Bracket.FourPlayersStart` | django/src/pong/models.py:91-139 | four users join a new room and start is called: the intended start makes it ONGOING with all four alive; start as written leaves it WAITING |
| `Bracket.StepPreservesValid` | django/src/pong/models.py:86-175 | every operation keeps the roster below capacity and in creation order, the alive list inside the roster and in order, and a WAITING room free of alive players, matches and winner |
| `Bracket.RunPreservesValid` | django/src/pong/models.py:86-175 | any sequence of operations keeps the room invariant |
| `Bracket.ReachableRoomsStartWithFourOrSix` | django/src/pong/models.py:86-134 | a room built from a new one never holds MAX_PLAYERS entries, and start succeeds on it only with 4 or 6 players |
| `Bracket.StepStatus` | django/src/pong/models.py:128-175 | no operation moves the status backwards; ONGOING is reached only by a start from WAITING; COMPLETED is reached only by end |
| `Bracket.RunNeverReturnsToWaiting` | django/src/pong/models.py:128-175 | across any sequence of operations the status never moves backwards, so a room that left WAITING never returns to it |
| `Bracket.End` | django/src/pong/models.py:173-175 | end sets COMPLETED from any status and changes nothing else; only the save guard can make it fail |
| `PongModels.TournamentRoom.constructor` | django/src/pong/models.py:53-83 | a new room object holds the fields of `Bracket.NewRoom` |
| `PongModels.TournamentRoom.Save` | django/src/pong/models.py:86-89 | reports the outcome of `Bracket.Save` on the current fields |
| `PongModels.TournamentRoom.AddPlayer` | django/src/pong/models.py:91-102 | updates the fields and reports the outcome exactly as `Bracket.AddPlayer`; a failed save restores the roster |
| `PongModels.TournamentRoom.RemovePlayer` | django/src/pong/models.py:104-114 | updates the fields and reports the outcome exactly as `Bracket.RemovePlayer` |
| `PongModels.TournamentRoom.Start` | django/src/pong/models.py:131-139 | updates the fields and reports the outcome exactly as the intended `Bracket.Start` |
| `PongModels.TournamentRoom.NextRound` | django/src/pong/models.py:160-171 | its loop over the alive list, two at a time, appends exactly `Bracket.Pairings` of it, and it fails as `Bracket.NextRound` does |
| `PongModels.TournamentRoom.NextMatch` | django/src/pong/models.py:141-158 | updates the fields, returns the started match and round flag, or fails, exactly as `Bracket.NextMatch` |
| `PongModels.TournamentRoom.End` | django/src/pong/models.py:173-175 | updates the fields and reports the outcome exactly as `Bracket.End` |
| `Invitations.Save` | django/src/pong/models.py:267-270 | save stamps now + 300 only on a WAITING invitation without an expiry, and otherwise changes nothing |
| `Invitations.Create` | django/src/pong/models.py:251-270 | a created invitation is WAITING, has no match, expires 300 seconds after creation, and satisfies the invariant |
| `Invitations.IsExpired` | django/src/pong/models.py:272-273 | true exactly when the expiry lies strictly before now; fails when there is no expiry |
| `Invitations.Accept` | django/src/pong/models.py:275-280 | succeeds exactly from WAITING, setting ACCEPTED and clearing the expiry; otherwise fails with NotWaiting |
| `Invitations.Reject` | django/src/pong/models.py:282-287 | succeeds exactly from WAITING, setting REJECTED and clearing the expiry; otherwise fails with NotWaiting |
| `Invitations.CreateMatch` | django/src/pong/models.py:289-301 | fails unless ACCEPTED, then if a match is attached, then if a player is missing; on success it attaches a PVP match with the sender's Player as winner and the receiver's as loser |
| `Invitations.RunKeepsExpiryWhileWaiting` | django/src/pong/models.py:267-301 | under any sequence of calls, the expiry is set exactly while WAITING, only an ACCEPTED invitation has a match, and an ACCEPTED or REJECTED status never changes |
| `Invitations.ExpiresAfterTtl` | django/src/pong/models.py:252-273 | an invitation created at t0 counts as expired exactly when now > t0 + 300 |
| `Invitations.ResolutionIgnoresExpiry` | django/src/pong/models.py:275-287 | accept and reject give the same result whatever the expiry and the time |
| `Invitations.ExpiredInvitationCanBeAccepted` | django/src/pong/models.py:267-280 | an invitation already expired at t0 + 301 is still accepted |
| `Invitations.ResolvedInvitationHasNoExpiry` | django/src/pong/models.py:272-287 | after accept or reject, is_expired fails for lack of an expiry |
| `Invitations.CreateMatchOnlyOnce` | django/src/pong/models.py:289-301 | after a successful create_match, a second one fails with MatchAlreadyExists |
| `PongModels.MatchInvitation.constructor` | django/src/pong/models.py:258-270 | a new invitation object holds the fields of `Invitations.Create` |
| `PongModels.MatchInvitation.Save` | django/src/pong/models.py:267-270 | updates the fields exactly as `Invitations.Save` |
| `PongModels.MatchInvitation.Accept` | django/src/pong/models.py:275-280 | updates the fields and reports the outcome exactly as `Invitations.Accept` |
| `PongModels.MatchInvitation.Reject` | django/src/pong/models.py:282-287 | updates the fields and reports the outcome exactly as `Invitations.Reject` |
| `PongModels.MatchInvitation.CreateMatch` | django/src/pong/models.py:289-301 | updates the fields and returns the match, or fails, exactly as `Invitations.CreateMatch` |
| `Friendship.NewRequest` | django/src/friend/models.py:41-48 | a new request is PENDING with an empty reject reason |
| `Friendship.NewRelation` | django/src/friend/models.py:6-15 | a new relation is neither deleted nor blocked |
| `Friendship.Accept` | django/src/friend/models.py:53-57 | fails exactly when the current user is the sender; otherwise the status becomes ACCEPTED whatever it was, and nothing else changes |
| `Friendship.Reject` | django/src/friend/models.py:59-64 | fails exactly when the current user is the sender; otherwise the status becomes REJECTED, the reason is stored, and nothing else changes |
| `Friendship.Delete` | django/src/friend/models.py:20-23 | a soft delete: sets the deleted flag and keeps the relation otherwise unchanged |
| `Friendship.Block` | django/src/friend/models.py:25-28 | sets the blocked flag and changes nothing else |
| `Friendship.Unblock` | django/src/friend/models.py:30-32 | clears the blocked flag and changes nothing else |
| `Friendship.BlockThenUnblock` | django/src/friend/models.py:25-32 | block then unblock clears the flag and keeps user and friend; an unblocked relation is restored exactly |
| `Friendship.AnswersOverrideEachOther` | django/src/friend/models.py:53-64 | the sender can neither accept nor reject; the receiver can accept a rejected request and reject an accepted one |
| `FriendModels.FriendRequest.constructor` | django/src/friend/models.py:41-48 | a new request object holds the fields of `Friendship.NewRequest` |
| `FriendModels.FriendRequest.Accept` | django/src/friend/models.py:53-57 | updates the fields and reports the outcome exactly as `Friendship.Accept` |
| `FriendModels.FriendRequest.Reject` | django/src/friend/models.py:59-64 | updates the fields and reports the outcome exactly as `Friendship.Reject` |
| `FriendModels.UserRelation.constructor` | django/src/friend/models.py:6-15 | a new relation object holds the fields of `Friendship.NewRelation` |
| `FriendModels.UserRelation.Delete` | django/src/friend/models.py:20-23 | updates the fields exactly as `Friendship.Delete` |
| `FriendModels.UserRelation.Block` | django/src/friend/models.py:25-28 | updates the fields exactly as `Friendship.Block` |
| `FriendModels.UserRelation.Unblock` | django/src/friend/models.py:30-32 | updates the fields exactly as `Friendship.Unblock` |

## Findings

| source | as written | input that shows it | evidently intended | confidence | as-written member | corrected member |
|---|---|---|---|---|---|---|
| django/src/pong/models.py:129-130 | `start` first tests `is_owner(owner.user)`. The owner is a User, which has no `user` attribute, so the line raises. Any other related record would not equal the owner either. So `start` fails on every call, and no room ever leaves WAITING for ONGOING | a new room, four users with Players join, then `start` is called (`Bracket.FourPlayersStart`) | `start` checks the player count and the status and opens the tournament | high; not executed | `Bracket.RunAsWrittenNeverStarts` | `Bracket.Start` |

## Left out

- Persistence. Rows, primary keys, many-to-many tables, `objects.create/get` and
  cascades are modelled as in-memory records and sequence filters. One effect
  of deletion is kept: removing an entry also removes it from the alive list.
- Partial persistence before a failure. In the source, `add_player` stores the
  new entry before its `save()` raises. Round generation on an odd alive list
  stores the matches created before the index error. The model treats every
  failing operation as changing nothing.
- `PongModels.TournamentRoom.RemovePlayer`: does not model the `SET_NULL` that
  deleting an entry applies to the winner and loser of matches that refer to it.
  Those matches keep the entry.
- `Bracket.Start`: models the intended `start`, without the owner test at
  `pong/models.py:129-130`. As written, that test cannot pass, so `start` never
  succeeds. The as-written behaviour is `Bracket.StartAsWritten`, and
  "Findings" records the difference.
- `PongModels.TournamentRoom.Start`: follows `Bracket.Start`, so it also leaves
  out the owner test that, as written, cannot pass.
- Timestamps other than the expiry: `created_at` (kept only as creation order),
  `ended_at`, and the scores and end times of matches, which nothing in the core
  sets.
- `FriendModels.UserRelation.Delete`: models the flags only. The timestamp code
  in `delete` and `block` calls `now()` on `datetime.timezone`, which has no
  such function. In the source, the flag is therefore set in memory but the
  call raises before saving.
- `FriendModels.UserRelation.Block`: models the flags only, for the same reason
  as `Delete`.
- Result submission, rating changes, `MatchHistory` and `UserActiveTournament`.
  The source has no code for the first two, and the last two only store data.
- `__str__` methods, HTTP views, templates and the JavaScript front end. They
  are presentation only.
- Concurrency. The source takes no locks, and each modelled operation is one
  sequential step.
- Ties in creation time. Matches created in the same round are assumed to be
  ordered by creation.

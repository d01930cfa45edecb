/** The lifecycle of a one-on-one match invitation (pong/models.py,
    MatchInvitation), stated as functions from an invitation to the invitation
    after one operation. Time is a number of seconds supplied by the caller. */
module Invitations {
  import opened Common
  import opened Records

  /** Seconds an invitation stays open. */
  const INVITATION_EXPIRE_TIME: int := 60 * 5

  datatype Status = Waiting | Accepted | Rejected

  datatype Invitation = Invitation(
    sender: UserId,
    receiver: UserId,
    status: Status,
    linked: Option<Match>,     // the match created from the invitation
    expiredAt: Option<int>)

  datatype Error =
    | NotWaiting          // "Invitation is not waiting."
    | NotAccepted         // "Invitation is not accepted."
    | MatchAlreadyExists  // "Match already exists."
    | NoPlayerRecord      // the sender or the receiver has no Player
    | NoExpiry            // comparing a missing expiry with the current time

  /** The calls a client can make on an invitation, each at a given time. */
  datatype Call =
    | SaveCall(now: int)
    | AcceptCall(now: int)
    | RejectCall(now: int)
    | CreateMatchCall(now: int)

  /** An expiry is set exactly while the invitation is WAITING, and only an
      ACCEPTED invitation has a match. */
  ghost predicate Valid(inv: Invitation) {
    && (inv.expiredAt.Some? <==> inv.status == Waiting)
    && (inv.linked.Some? ==> inv.status == Accepted)
  }

  /** save(): stamps the expiry of a WAITING invitation that has none. */
  function Save(inv: Invitation, now: int): (saved: Invitation)
    ensures inv.status == Waiting ==> saved.expiredAt.Some?
    ensures inv.status == Waiting && inv.expiredAt.None? ==>
      saved.expiredAt == Some(now + INVITATION_EXPIRE_TIME)
    ensures inv.status != Waiting || inv.expiredAt.Some? ==> saved == inv
    ensures saved.(expiredAt := inv.expiredAt) == inv
  {
    if inv.status == Waiting && inv.expiredAt.None? then
      inv.(expiredAt := Some(now + INVITATION_EXPIRE_TIME))
    else inv
  }

  /** A new invitation as creating and saving it leaves it. */
  function Create(sender: UserId, receiver: UserId, now: int): (inv: Invitation)
    ensures Valid(inv)
    ensures inv.sender == sender && inv.receiver == receiver
    ensures inv.status == Waiting && inv.linked == None
    ensures inv.expiredAt == Some(now + INVITATION_EXPIRE_TIME)
  {
    Save(Invitation(sender, receiver, Waiting, None, None), now)
  }

  /** is_expired(): whether the expiry lies strictly before `now`; with no
      expiry the comparison itself fails. */
  function IsExpired(inv: Invitation, now: int): (res: Result<bool, Error>)
    ensures res.Err? <==> inv.expiredAt.None?
    ensures res.Err? ==> res.error == NoExpiry
    ensures res.Ok? ==> (res.value <==> inv.expiredAt.value < now)
  {
    match inv.expiredAt
    case None => Err(NoExpiry)
    case Some(t) => Ok(t < now)
  }

  function Accept(inv: Invitation, now: int): (res: Result<Invitation, Error>)
    ensures res.Ok? <==> inv.status == Waiting
    ensures res.Err? ==> res.error == NotWaiting
    ensures res.Ok? ==> res.value == inv.(status := Accepted, expiredAt := None)
    ensures res.Ok? && Valid(inv) ==> Valid(res.value)
  {
    if inv.status != Waiting then Err(NotWaiting)
    else Ok(Save(inv.(status := Accepted, expiredAt := None), now))
  }

  function Reject(inv: Invitation, now: int): (res: Result<Invitation, Error>)
    ensures res.Ok? <==> inv.status == Waiting
    ensures res.Err? ==> res.error == NotWaiting
    ensures res.Ok? ==> res.value == inv.(status := Rejected, expiredAt := None)
    ensures res.Ok? && Valid(inv) ==> Valid(res.value)
  {
    if inv.status != Waiting then Err(NotWaiting)
    else Ok(Save(inv.(status := Rejected, expiredAt := None), now))
  }

  /** create_match(): a PVP match with the sender's Player as provisional winner
      and the receiver's as provisional loser, attached to the invitation. */
  function CreateMatch(inv: Invitation, playerOf: map<UserId, PlayerId>, now: int): (res: Result<(Invitation, Match), Error>)
    ensures inv.status != Accepted ==> res == Err(NotAccepted)
    ensures inv.status == Accepted && inv.linked.Some? ==> res == Err(MatchAlreadyExists)
    ensures res.Ok? <==>
      inv.status == Accepted && inv.linked.None? && inv.sender in playerOf && inv.receiver in playerOf
    ensures res.Ok? ==>
      && res.value.1.winner == Some(playerOf[inv.sender])
      && res.value.1.loser == Some(playerOf[inv.receiver])
      && res.value.1.kind == Some(PVP)
      && res.value.0 == inv.(linked := Some(res.value.1))
    ensures res.Ok? && Valid(inv) ==> Valid(res.value.0)
  {
    if inv.status != Accepted then Err(NotAccepted)
    else if inv.linked.Some? then Err(MatchAlreadyExists)
    else if inv.sender !in playerOf || inv.receiver !in playerOf then Err(NoPlayerRecord)
    else
      var m := NewMatch(playerOf[inv.sender], playerOf[inv.receiver], PVP);
      Ok((Save(inv.(linked := Some(m)), now), m))
  }

  /** The invitation after `call`; a call that fails leaves it as it was. */
  function Step(inv: Invitation, playerOf: map<UserId, PlayerId>, call: Call): Invitation {
    match call
    case SaveCall(now) => Save(inv, now)
    case AcceptCall(now) => Accept(inv, now).GetOr(inv)
    case RejectCall(now) => Reject(inv, now).GetOr(inv)
    case CreateMatchCall(now) => (match CreateMatch(inv, playerOf, now) case Ok(p) => p.0 case Err(_) => inv)
  }

  function Run(inv: Invitation, playerOf: map<UserId, PlayerId>, calls: seq<Call>): Invitation
    decreases |calls|
  {
    if calls == [] then inv else Run(Step(inv, playerOf, calls[0]), playerOf, calls[1..])
  }

  // ---------------------------------------------------------------------------
  // Properties of the lifecycle

  /** Whatever is called on a created invitation, it carries an expiry exactly
      while it is WAITING; once ACCEPTED or REJECTED its status never changes. */
  lemma {:induction false} RunKeepsExpiryWhileWaiting(inv: Invitation, playerOf: map<UserId, PlayerId>, calls: seq<Call>)
    requires Valid(inv)
    ensures Valid(Run(inv, playerOf, calls))
    ensures inv.status != Waiting ==> Run(inv, playerOf, calls).status == inv.status
    decreases |calls|
  {
    if calls != [] {
      var next := Step(inv, playerOf, calls[0]);
      assert Valid(next) && (inv.status != Waiting ==> next.status == inv.status);
      RunKeepsExpiryWhileWaiting(next, playerOf, calls[1..]);
    }
  }

  /** An invitation created at `t0` is expired exactly from `t0 + 301` on. */
  lemma ExpiresAfterTtl(sender: UserId, receiver: UserId, t0: int, now: int)
    ensures IsExpired(Create(sender, receiver, t0), now) == Ok(now > t0 + INVITATION_EXPIRE_TIME)
  {
  }

  /** accept and reject never consult the expiry: an expired invitation is
      resolved exactly as a fresh one. */
  lemma ResolutionIgnoresExpiry(inv: Invitation, expiry: Option<int>, now: int, later: int)
    ensures Accept(inv.(expiredAt := expiry), later) == Accept(inv, now)
    ensures Reject(inv.(expiredAt := expiry), later) == Reject(inv, now)
  {
  }

  /** A created invitation that is already expired can still be accepted. */
  lemma ExpiredInvitationCanBeAccepted(sender: UserId, receiver: UserId, t0: int)
    ensures IsExpired(Create(sender, receiver, t0), t0 + 301) == Ok(true)
    ensures Accept(Create(sender, receiver, t0), t0 + 301).Ok?
  {
  }

  /** After resolution there is no expiry left, so is_expired fails. */
  lemma ResolvedInvitationHasNoExpiry(inv: Invitation, now: int, later: int)
    requires inv.status == Waiting
    ensures IsExpired(Accept(inv, now).value, later) == Err(NoExpiry)
    ensures IsExpired(Reject(inv, now).value, later) == Err(NoExpiry)
  {
  }

  /** A second create_match always fails, whatever the time and the players. */
  lemma CreateMatchOnlyOnce(inv: Invitation, playerOf: map<UserId, PlayerId>, now: int, later: int)
    requires CreateMatch(inv, playerOf, now).Ok?
    ensures CreateMatch(CreateMatch(inv, playerOf, now).value.0, playerOf, later) == Err(MatchAlreadyExists)
  {
  }
}

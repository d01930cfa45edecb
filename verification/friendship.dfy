/** Friend requests and the flags of a friend relation (friend/models.py),
    stated as functions from a record to the record after one operation. */
module Friendship {
  import opened Common
  import opened Records

  datatype RequestStatus = Pending | Accepted | Rejected

  datatype Request = Request(
    sender: UserId,
    receiver: UserId,
    status: RequestStatus,
    senderWords: string,
    rejectReason: string)

  /** A relation between `user` and `friend`; deleting it only sets a flag. */
  datatype Relation = Relation(user: UserId, friend: UserId, deleted: bool, blocked: bool)

  datatype Error = OwnRequest  // the sender tried to answer its own request

  /** A new request as the field defaults create it. */
  function NewRequest(sender: UserId, receiver: UserId, senderWords: string): (q: Request)
    ensures q.status == Pending && q.rejectReason == ""
    ensures q.sender == sender && q.receiver == receiver && q.senderWords == senderWords
  {
    Request(sender, receiver, Pending, senderWords, "")
  }

  /** A new relation: neither deleted nor blocked. */
  function NewRelation(user: UserId, friend: UserId): (rel: Relation)
    ensures !rel.deleted && !rel.blocked
    ensures rel.user == user && rel.friend == friend
  {
    Relation(user, friend, false, false)
  }

  /** Anyone but the sender may accept, whatever the current status. */
  function Accept(q: Request, currentUser: UserId): (res: Result<Request, Error>)
    ensures res.Err? <==> currentUser == q.sender
    ensures res.Ok? ==> res.value == q.(status := Accepted)
  {
    if currentUser == q.sender then Err(OwnRequest) else Ok(q.(status := Accepted))
  }

  /** Anyone but the sender may reject, whatever the current status; the
      reason replaces any earlier one. */
  function Reject(q: Request, currentUser: UserId, reason: string): (res: Result<Request, Error>)
    ensures res.Err? <==> currentUser == q.sender
    ensures res.Ok? ==> res.value == q.(status := Rejected, rejectReason := reason)
  {
    if currentUser == q.sender then Err(OwnRequest) else Ok(q.(status := Rejected, rejectReason := reason))
  }

  /** Soft delete: the relation stays, flagged as deleted. */
  function Delete(rel: Relation): (after: Relation)
    ensures after.deleted
    ensures after.(deleted := rel.deleted) == rel
  {
    rel.(deleted := true)
  }

  function Block(rel: Relation): (after: Relation)
    ensures after.blocked
    ensures after.(blocked := rel.blocked) == rel
  {
    rel.(blocked := true)
  }

  function Unblock(rel: Relation): (after: Relation)
    ensures !after.blocked
    ensures after.(blocked := rel.blocked) == rel
  {
    rel.(blocked := false)
  }

  // ---------------------------------------------------------------------------
  // Properties

  /** Blocking then unblocking leaves an unblocked relation as it was, and in
      any case only the blocked flag is touched. */
  lemma BlockThenUnblock(rel: Relation)
    ensures Unblock(Block(rel)) == rel.(blocked := false)
    ensures !rel.blocked ==> Unblock(Block(rel)) == rel
  {
  }

  /** The sender can never answer its own request, and an answer by anyone
      else is final only until the next one: a rejected request can still be
      accepted, and an accepted one rejected. */
  lemma AnswersOverrideEachOther(q: Request, receiver: UserId, reason: string)
    requires receiver != q.sender
    ensures Accept(q, q.sender).Err? && Reject(q, q.sender, reason).Err?
    ensures Accept(Reject(q, receiver, reason).value, receiver).value.status == Accepted
    ensures Reject(Accept(q, receiver).value, receiver, reason).value.status == Rejected
  {
  }
}

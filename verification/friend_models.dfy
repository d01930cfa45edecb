/** The stateful objects of friend/models.py: a friend request and a friend
    relation, whose methods assign their fields in place. Each method is proved
    to leave the object as the matching function of Friendship describes. */
module FriendModels {
  import opened Common
  import opened Records
  import Friendship

  class FriendRequest {
    var sender: UserId
    var receiver: UserId
    var status: Friendship.RequestStatus
    var senderWords: string
    var rejectReason: string

    /** The request's fields as a value. */
    ghost function Snapshot(): Friendship.Request
      reads this
    {
      Friendship.Request(sender, receiver, status, senderWords, rejectReason)
    }

    /** A new request: PENDING, with no reject reason. */
    constructor (sender: UserId, receiver: UserId, senderWords: string)
      ensures Snapshot() == Friendship.NewRequest(sender, receiver, senderWords)
    {
      this.sender := sender;
      this.receiver := receiver;
      status := Friendship.Pending;
      this.senderWords := senderWords;
      rejectReason := "";
    }

    method Accept(currentUser: UserId) returns (res: Outcome<Friendship.Error>)
      modifies this
      ensures res == Friendship.Accept(old(Snapshot()), currentUser).ToOutcome()
      ensures Snapshot() == Friendship.Accept(old(Snapshot()), currentUser).GetOr(old(Snapshot()))
    {
      if currentUser == sender {
        return Fail(Friendship.OwnRequest);
      }
      status := Friendship.Accepted;
      return Pass;
    }

    method Reject(currentUser: UserId, reason: string) returns (res: Outcome<Friendship.Error>)
      modifies this
      ensures res == Friendship.Reject(old(Snapshot()), currentUser, reason).ToOutcome()
      ensures Snapshot() == Friendship.Reject(old(Snapshot()), currentUser, reason).GetOr(old(Snapshot()))
    {
      if currentUser == sender {
        return Fail(Friendship.OwnRequest);
      }
      status := Friendship.Rejected;
      rejectReason := reason;
      return Pass;
    }
  }

  class UserRelation {
    var user: UserId
    var friend: UserId
    var deleted: bool
    var blocked: bool

    /** The relation's fields as a value. */
    ghost function Snapshot(): Friendship.Relation
      reads this
    {
      Friendship.Relation(user, friend, deleted, blocked)
    }

    constructor (user: UserId, friend: UserId)
      ensures Snapshot() == Friendship.NewRelation(user, friend)
    {
      this.user := user;
      this.friend := friend;
      deleted := false;
      blocked := false;
    }

    method Delete()
      modifies this
      ensures Snapshot() == Friendship.Delete(old(Snapshot()))
    {
      deleted := true;
    }

    method Block()
      modifies this
      ensures Snapshot() == Friendship.Block(old(Snapshot()))
    {
      blocked := true;
    }

    method Unblock()
      modifies this
      ensures Snapshot() == Friendship.Unblock(old(Snapshot()))
    {
      blocked := false;
    }
  }
}

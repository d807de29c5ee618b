/** What each friend use case achieves and when, said of the rows alone. */
module FriendEffects {
  import opened Common
  import opened Tables
  import opened FriendPairs
  import opened Business

  /** Everything but the named parts of the tables is as before. */
  predicate SameButRequests(db: Db, after: Db) {
    after == db.(requests := after.requests, nextRequest := after.nextRequest)
  }

  predicate OtherRowsSame(db: Db, after: Db, id: int) {
    && (forall k :: k in db.requests && k != id ==> k in after.requests && after.requests[k] == db.requests[k])
    && (forall k :: k in after.requests && k != id ==> k in db.requests)
  }

  /** SendRequest succeeds exactly when the pair may ask: two different existing users, no block and no
      friendship in either direction, and no pending request between them. A pending row from sender to target
      then exists under a new id; an old decided row of that direction is gone; nothing else changes. */
  lemma SendEffect(db: Db, sender: int, target: int)
    requires FriendInv(db)
    ensures var out := RunFriend(db, FriendCommand.SendRequest(sender, target));
            && (out.code == OK <==>
                  && sender > 0 && target > 0 && sender != target && sender in db.users && target in db.users
                  && (sender, target) !in db.blacklist && (target, sender) !in db.blacklist
                  && (sender, target) !in db.friendships && (target, sender) !in db.friendships
                  && (forall id :: id in db.requests && db.requests[id].status == Pending ==>
                        !(db.requests[id].sender == sender && db.requests[id].target == target)
                        && !(db.requests[id].sender == target && db.requests[id].target == sender)))
            && (out.code == OK ==>
                  && db.nextRequest !in db.requests && db.nextRequest in out.db.requests
                  && out.db.requests[db.nextRequest] == Request(sender, target, Pending)
                  && out.db.nextRequest == db.nextRequest + 1
                  && (forall id :: id in db.requests ==>
                        if db.requests[id].sender == sender && db.requests[id].target == target then id !in out.db.requests
                        else id in out.db.requests && out.db.requests[id] == db.requests[id])
                  && (forall id :: id in out.db.requests ==> id in db.requests || id == db.nextRequest)
                  && SameButRequests(db, out.db) && out.events == [])
  {
  }

  /** Why a request to become friends is refused. */
  lemma SendRefusals(db: Db, sender: int, target: int)
    ensures var code := RunFriend(db, FriendCommand.SendRequest(sender, target)).code;
            && (code == InvalidParam <==> sender <= 0 || target <= 0)
            && (code == SelfRequest <==> sender > 0 && sender == target)
            && (code == UserNotFound ==> sender !in db.users || target !in db.users)
            && (code == FriendBlocked ==> (sender, target) in db.blacklist || (target, sender) in db.blacklist)
            && (code == AlreadyFriends ==> (sender, target) in db.friendships || (target, sender) in db.friendships)
            && (code == DuplicateRequest ==>
                  (exists id :: id in db.requests && db.requests[id].status == Pending
                                && {db.requests[id].sender, db.requests[id].target} == {sender, target}))
            && code in {OK, InvalidParam, SelfRequest, UserNotFound, FriendBlocked, AlreadyFriends, DuplicateRequest}
  {
    var code := RunFriend(db, FriendCommand.SendRequest(sender, target)).code;
    if code == DuplicateRequest && HasPending(db, sender, target) {
      var id :| id in db.requests && Joins(db.requests[id], sender, target) && db.requests[id].status == Pending;
      assert {db.requests[id].sender, db.requests[id].target} == {sender, target};
    }
  }

  /** AcceptRequest succeeds exactly for the target of a request that is accepted already, or pending with no
      block between the two. The row is then accepted, the friendship stands both ways, both friend lists are
      announced, and nothing else changes. */
  lemma AcceptEffect(db: Db, user: int, id: int)
    requires FriendInv(db)
    ensures var out := RunFriend(db, AcceptRequest(user, id));
            && (out.code == OK <==>
                  && id in db.requests && db.requests[id].target == user
                  && (|| db.requests[id].status == Accepted
                      || (db.requests[id].status == Pending
                          && (db.requests[id].sender, user) !in db.blacklist && (user, db.requests[id].sender) !in db.blacklist)))
            && (out.code == OK ==>
                  var asker := db.requests[id].sender;
                  && id in out.db.requests && out.db.requests[id] == Request(asker, user, Accepted)
                  && OtherRowsSame(db, out.db, id) && out.db.nextRequest == db.nextRequest
                  && out.db == db.(requests := out.db.requests, friendships := db.friendships + {(asker, user), (user, asker)})
                  && out.events == [Friends(asker), Friends(user)])
            && (out.code == FriendBlocked ==>
                  id in db.requests
                  && ((db.requests[id].sender, user) in db.blacklist || (user, db.requests[id].sender) in db.blacklist))
            && (out.code == NotRequestTarget ==> id in db.requests && db.requests[id].target != user)
            && (out.code == RequestNotFound ==> id !in db.requests || db.requests[id].status == Rejected)
            && (out.code == InvalidParam <==> user <= 0 || id <= 0)
            && out.code in {OK, InvalidParam, RequestNotFound, NotRequestTarget, FriendBlocked}
  {
  }

  /** RejectRequest succeeds exactly for the target of a request that is pending or rejected already. The row is
      then rejected, and nothing else changes. */
  lemma RejectEffect(db: Db, user: int, id: int)
    requires FriendInv(db)
    ensures var out := RunFriend(db, RejectRequest(user, id));
            && (out.code == OK <==> id in db.requests && db.requests[id].target == user && db.requests[id].status != Accepted)
            && (out.code == OK ==>
                  && id in out.db.requests && out.db.requests[id] == Request(db.requests[id].sender, user, Rejected)
                  && OtherRowsSame(db, out.db, id) && out.db == db.(requests := out.db.requests)
                  && out.events == [])
            && (out.code == NotRequestTarget ==> id in db.requests && db.requests[id].target != user)
            && (out.code == RequestNotFound ==> id !in db.requests || db.requests[id].status == Accepted)
            && (out.code == InvalidParam <==> user <= 0 || id <= 0)
            && out.code in {OK, InvalidParam, RequestNotFound, NotRequestTarget}
  {
  }

  /** A rejected request can be accepted by nobody, whatever happens in between. */
  lemma RejectedIsOver(db: Db, user: int, id: int, commands: seq<Command>, later: int)
    requires DbInv(db)
    requires RunFriend(db, RejectRequest(user, id)).code == OK
    ensures var now := After(RunFriend(db, RejectRequest(user, id)).db, commands);
            RunFriend(now, AcceptRequest(later, id)).code != OK
  {
    var after := RunFriend(db, RejectRequest(user, id)).db;
    var now := After(after, commands);
    RejectEffect(db, user, id);
    CommandKeeps(db, OnFriends(RejectRequest(user, id)));
    assert after == Apply(db, OnFriends(RejectRequest(user, id))).db;
    RunKeeps(after, commands);
    PhaseOnlyAdvances(after, commands, id);
    AcceptEffect(now, later, id);
  }

  /** The three use cases on a pair answer OK exactly for two different existing users; blocking also refuses
      to repeat itself. */
  predicate TwoUsers(db: Db, user: int, other: int) {
    user > 0 && other > 0 && user != other && user in db.users && other in db.users
  }

  /** DeleteFriend ends the friendship in both directions and with it the accepted request, so that no retry of
      its acceptance brings it back; it announces both lists and changes nothing else. */
  lemma DeleteEffect(db: Db, user: int, friend: int)
    ensures var out := RunFriend(db, FriendCommand.DeleteFriend(user, friend));
            && (out.code == OK <==> TwoUsers(db, user, friend))
            && (out.code == OK ==>
                  && out.db.friendships == db.friendships - {(user, friend), (friend, user)}
                  && out.db.requests.Keys == db.requests.Keys
                  && (forall id :: id in db.requests ==>
                        var r := db.requests[id];
                        out.db.requests[id] ==
                          if r.status == Accepted && {r.sender, r.target} == {user, friend} then Request(r.sender, r.target, Rejected) else r)
                  && out.db == db.(requests := out.db.requests, friendships := out.db.friendships)
                  && out.events == [Friends(user), Friends(friend)])
  {
  }

  /** Block adds the entry, rejects what is pending between the two, and leaves their friendship alone. */
  lemma BlockEffect(db: Db, user: int, blocked: int)
    ensures var out := RunFriend(db, FriendCommand.Block(user, blocked));
            && (out.code == OK <==> TwoUsers(db, user, blocked) && (user, blocked) !in db.blacklist)
            && (out.code == AlreadyBlocked <==> TwoUsers(db, user, blocked) && (user, blocked) in db.blacklist)
            && (out.code == OK ==>
                  && out.db.blacklist == db.blacklist + {(user, blocked)}
                  && out.db.requests.Keys == db.requests.Keys
                  && (forall id :: id in db.requests ==>
                        var r := db.requests[id];
                        out.db.requests[id] ==
                          if r.status == Pending && {r.sender, r.target} == {user, blocked} then Request(r.sender, r.target, Rejected) else r)
                  && out.db == db.(requests := out.db.requests, blacklist := out.db.blacklist)
                  && out.events == [Resource.Blacklist(user)])
  {
  }

  /** Unblock removes the one entry, if it is there, and nothing else. */
  lemma UnblockEffect(db: Db, user: int, blocked: int)
    ensures var out := RunFriend(db, FriendCommand.Unblock(user, blocked));
            && (out.code == OK <==> TwoUsers(db, user, blocked))
            && (out.code == OK ==>
                  out.db == db.(blacklist := db.blacklist - {(user, blocked)}) && out.events == [Resource.Blacklist(user)])
  {
  }

  /** Why a use case on a pair is refused. */
  lemma PairRefusals(db: Db, user: int, other: int, command: FriendCommand)
    requires command in {FriendCommand.DeleteFriend(user, other), FriendCommand.Block(user, other), FriendCommand.Unblock(user, other)}
    ensures var code := RunFriend(db, command).code;
            && (code == InvalidParam <==> user <= 0 || other <= 0)
            && (code == SelfRequest <==> user > 0 && user == other)
            && (code == UserNotFound <==> user > 0 && other > 0 && user != other && (user !in db.users || other !in db.users))
  {
  }
}

/** The friend use cases as transactions on the tables. */
module FriendPairs {
  import opened Common
  import opened Tables

  datatype FriendCommand =
    | SendRequest(sender: int, target: int)
    | AcceptRequest(user: int, id: int)
    | RejectRequest(user: int, id: int)
    | DeleteFriend(user: int, friend: int)
    | Block(user: int, blocked: int)
    | Unblock(user: int, blocked: int)

  // ---- table-level effects of the repository statements ----

  predicate Joins(r: Request, a: int, b: int) {
    (r.sender == a && r.target == b) || (r.sender == b && r.target == a)
  }

  predicate IsFriendPair(db: Db, a: int, b: int) {
    (a, b) in db.friendships || (b, a) in db.friendships
  }

  predicate IsEitherBlocked(db: Db, a: int, b: int) {
    (a, b) in db.blacklist || (b, a) in db.blacklist
  }

  predicate HasPending(db: Db, a: int, b: int) {
    exists id :: id in db.requests && Joins(db.requests[id], a, b) && db.requests[id].status == Pending
  }

  function DeleteTerminal(requests: map<int, Request>, sender: int, target: int): (rest: map<int, Request>)
    ensures forall id :: id in rest <==>
      id in requests &&
      !(requests[id].sender == sender && requests[id].target == target && requests[id].status != Pending)
    ensures forall id :: id in rest ==> rest[id] == requests[id]
  {
    map id | id in requests &&
             !(requests[id].sender == sender && requests[id].target == target && requests[id].status != Pending)
      :: requests[id]
  }

  predicate HasDirection(requests: map<int, Request>, sender: int, target: int) {
    exists id :: id in requests && requests[id].sender == sender && requests[id].target == target
  }

  /** UPDATE friend_requests SET status = after WHERE status = before AND the row joins a and b. */
  function SetStatusWhere(requests: map<int, Request>, a: int, b: int, before: Status, after: Status)
    : (updated: map<int, Request>)
    ensures updated.Keys == requests.Keys
    ensures forall id :: id in updated ==>
      updated[id] == if Joins(requests[id], a, b) && requests[id].status == before
                     then requests[id].(status := after) else requests[id]
  {
    map id | id in requests ::
      if Joins(requests[id], a, b) && requests[id].status == before
      then requests[id].(status := after) else requests[id]
  }

  /** What the two bulk updates leave of a pair: no row of the updated status, every such row rejected, and
      every other row, of this pair or another, as it was. */
  lemma RejectionEndsStatus(db: Db, a: int, b: int, status: Status)
    requires status != Rejected
    ensures var after := db.(requests := SetStatusWhere(db.requests, a, b, status, Rejected));
            && (forall id :: id in db.requests <==> id in after.requests)
            && (forall id :: id in after.requests && Joins(after.requests[id], a, b) ==> after.requests[id].status != status)
            && (forall id :: id in db.requests ==>
                  || after.requests[id] == db.requests[id]
                  || (Joins(db.requests[id], a, b) && db.requests[id].status == status
                      && after.requests[id] == db.requests[id].(status := Rejected)))
            && (status == Pending ==> !HasPending(after, a, b))
            && (status == Accepted ==> !Backed(after, a, b) && (HasPending(after, a, b) <==> HasPending(db, a, b)))
  {
    var after := db.(requests := SetStatusWhere(db.requests, a, b, status, Rejected));
    if status == Accepted && HasPending(db, a, b) {
      var id :| id in db.requests && Joins(db.requests[id], a, b) && db.requests[id].status == Pending;
      assert after.requests[id] == db.requests[id];
    }
  }

  // ---- the use cases ----

  function DoSend(db: Db, sender: int, target: int): Outcome {
    if sender <= 0 || target <= 0 then Refuse(InvalidParam, db)
    else if sender == target then Refuse(SelfRequest, db)
    else if sender !in db.users || target !in db.users then Refuse(UserNotFound, db)
    else if IsEitherBlocked(db, sender, target) then Refuse(FriendBlocked, db)
    else if IsFriendPair(db, sender, target) then Refuse(AlreadyFriends, db)
    else if HasPending(db, sender, target) then Refuse(DuplicateRequest, db)
    else
      var kept := DeleteTerminal(db.requests, sender, target);
      // uk_pair(from_user_id, to_user_id): a second row of one direction is ErrConflict.
      if HasDirection(kept, sender, target) then Refuse(DuplicateRequest, db)
      else
        Outcome(OK,
                db.(requests := kept[db.nextRequest := Request(sender, target, Pending)],
                    nextRequest := db.nextRequest + 1),
                [])
  }

  /** Both rows found by LockFriendUsers, which counts equal ids once. */
  predicate BothUsers(db: Db, a: int, b: int) {
    a != b && a in db.users && b in db.users
  }

  function DoAccept(db: Db, user: int, id: int): Outcome {
    if user <= 0 || id <= 0 then Refuse(InvalidParam, db)
    else if id !in db.requests then Refuse(RequestNotFound, db)
    else
      var r := db.requests[id];
      if r.target != user then Refuse(NotRequestTarget, db)
      else if !BothUsers(db, r.sender, r.target) then Refuse(RequestNotFound, db)
      else
        var pair := {(r.sender, r.target), (r.target, r.sender)};
        var events := [Friends(r.sender), Friends(r.target)];
        match r.status
        case Accepted => Outcome(OK, db.(friendships := db.friendships + pair), events)
        case Rejected => Refuse(RequestNotFound, db)
        case Pending =>
          if IsEitherBlocked(db, r.sender, r.target) then Refuse(FriendBlocked, db)
          else
            Outcome(OK,
                    db.(requests := db.requests[id := r.(status := Accepted)],
                        friendships := db.friendships + pair),
                    events)
  }

  function DoReject(db: Db, user: int, id: int): Outcome {
    if user <= 0 || id <= 0 then Refuse(InvalidParam, db)
    else if id !in db.requests then Refuse(RequestNotFound, db)
    else
      var r := db.requests[id];
      if r.target != user then Refuse(NotRequestTarget, db)
      else if !BothUsers(db, r.sender, r.target) then Refuse(RequestNotFound, db)
      else
        match r.status
        case Rejected => Outcome(OK, db, [])
        case Accepted => Refuse(RequestNotFound, db)
        case Pending => Outcome(OK, db.(requests := db.requests[id := r.(status := Rejected)]), [])
  }

  /** The parameter and row-lock checks shared by delete, block and unblock. */
  function PairCheck(db: Db, user: int, other: int): Code {
    if user <= 0 || other <= 0 then InvalidParam
    else if user == other then SelfRequest
    else if user !in db.users || other !in db.users then UserNotFound
    else OK
  }

  function DoDelete(db: Db, user: int, friend: int): Outcome {
    var check := PairCheck(db, user, friend);
    if check != OK then Refuse(check, db)
    else
      Outcome(OK,
              db.(friendships := db.friendships - {(user, friend), (friend, user)},
                  requests := SetStatusWhere(db.requests, user, friend, Accepted, Rejected)),
              [Friends(user), Friends(friend)])
  }

  function DoBlock(db: Db, user: int, blocked: int): Outcome {
    var check := PairCheck(db, user, blocked);
    if check != OK then Refuse(check, db)
    else if (user, blocked) in db.blacklist then Refuse(AlreadyBlocked, db)
    else
      Outcome(OK,
              db.(blacklist := db.blacklist + {(user, blocked)},
                  requests := SetStatusWhere(db.requests, user, blocked, Pending, Rejected)),
              [Blacklist(user)])
  }

  function DoUnblock(db: Db, user: int, blocked: int): Outcome {
    var check := PairCheck(db, user, blocked);
    if check != OK then Refuse(check, db)
    else Outcome(OK, db.(blacklist := db.blacklist - {(user, blocked)}), [Blacklist(user)])
  }

  function RunFriend(db: Db, command: FriendCommand): Outcome {
    match command
    case SendRequest(sender, target) => DoSend(db, sender, target)
    case AcceptRequest(user, id) => DoAccept(db, user, id)
    case RejectRequest(user, id) => DoReject(db, user, id)
    case DeleteFriend(user, friend) => DoDelete(db, user, friend)
    case Block(user, blocked) => DoBlock(db, user, blocked)
    case Unblock(user, blocked) => DoUnblock(db, user, blocked)
  }

  // ---- the pair invariant ----

  /** An accepted request backs the friendship of a and b. */
  ghost predicate Backed(db: Db, a: int, b: int) {
    exists id :: id in db.requests && Joins(db.requests[id], a, b) && db.requests[id].status == Accepted
  }

  ghost predicate RequestRowsOk(db: Db) {
    && db.nextRequest > 0
    && (forall id :: id in db.requests ==>
         && 0 < id < db.nextRequest
         && 0 < db.requests[id].sender && 0 < db.requests[id].target
         && db.requests[id].sender != db.requests[id].target
         && db.requests[id].sender in db.users && db.requests[id].target in db.users)
  }

  /** uk_pair holds: at most one row per direction. */
  ghost predicate OneRowPerDirection(db: Db) {
    forall i, j :: (i in db.requests && j in db.requests && db.requests[i].sender == db.requests[j].sender
                    && db.requests[i].target == db.requests[j].target) ==> i == j
  }

  /** Pending plus accepted rows between two users number at most one. */
  ghost predicate OneLivePerPair(db: Db) {
    forall i, j :: (i in db.requests && j in db.requests && Joins(db.requests[i], db.requests[j].sender, db.requests[j].target)
                    && db.requests[i].status != Rejected && db.requests[j].status != Rejected) ==> i == j
  }

  ghost predicate RowsInv(db: Db) {
    RequestRowsOk(db) && OneRowPerDirection(db) && OneLivePerPair(db)
  }

  ghost predicate FriendshipsBacked(db: Db) {
    forall a, b :: (a, b) in db.friendships <==> Backed(db, a, b)
  }

  ghost predicate NoPendingAcrossBlock(db: Db) {
    forall id :: id in db.requests && db.requests[id].status == Pending ==>
      !IsEitherBlocked(db, db.requests[id].sender, db.requests[id].target)
  }

  ghost predicate FriendInv(db: Db) {
    && RowsInv(db)
    && FriendshipsBacked(db)
    && NoPendingAcrossBlock(db)
    && (forall u :: u in db.users ==> u > 0)
    && (forall a, b :: (a, b) in db.blacklist ==> a != b && a > 0 && b > 0)
  }

  lemma BackedSymmetric(db: Db, a: int, b: int)
    ensures Backed(db, a, b) == Backed(db, b, a)
  {
    if Backed(db, a, b) {
      var id :| id in db.requests && Joins(db.requests[id], a, b) && db.requests[id].status == Accepted;
      assert Joins(db.requests[id], b, a);
    }
    if Backed(db, b, a) {
      var id :| id in db.requests && Joins(db.requests[id], b, a) && db.requests[id].status == Accepted;
      assert Joins(db.requests[id], a, b);
    }
  }

  /** Friendship rows come in both directions. */
  lemma FriendshipSymmetric(db: Db, a: int, b: int)
    requires FriendInv(db)
    ensures (a, b) in db.friendships <==> (b, a) in db.friendships
  {
    BackedSymmetric(db, a, b);
  }

  ghost predicate AcceptedRow(db: Db, id: int) {
    id in db.requests && db.requests[id].status == Accepted
  }

  /** Tables with the same accepted rows and the same friendships are backed alike. */
  lemma BackedFrame(db: Db, after: Db)
    requires FriendshipsBacked(db) && after.friendships == db.friendships
    requires forall id :: AcceptedRow(after, id) == AcceptedRow(db, id)
    requires forall id :: AcceptedRow(db, id) && id in after.requests ==> after.requests[id] == db.requests[id]
    ensures FriendshipsBacked(after)
  {
    forall a, b
      ensures Backed(after, a, b) == Backed(db, a, b)
    {
      if Backed(db, a, b) {
        var id :| id in db.requests && Joins(db.requests[id], a, b) && db.requests[id].status == Accepted;
        assert AcceptedRow(db, id) && AcceptedRow(after, id);
      }
      if Backed(after, a, b) {
        var id :| id in after.requests && Joins(after.requests[id], a, b) && after.requests[id].status == Accepted;
        assert AcceptedRow(after, id) && AcceptedRow(db, id);
      }
    }
  }

  /** A pair that is allowed to ask has only rejected rows, so the insert never meets uk_pair. */
  lemma AskersHaveOnlyRejectedRows(db: Db, sender: int, target: int)
    requires FriendInv(db)
    requires !IsFriendPair(db, sender, target) && !HasPending(db, sender, target)
    ensures forall id :: id in db.requests && Joins(db.requests[id], sender, target) ==>
                           db.requests[id].status == Rejected
    ensures !HasDirection(DeleteTerminal(db.requests, sender, target), sender, target)
  {
    assert !Backed(db, sender, target);
  }

  lemma SendKeepsBacked(db: Db, sender: int, target: int, after: Db)
    requires FriendshipsBacked(db) && RequestRowsOk(db)
    requires forall id :: id in db.requests && Joins(db.requests[id], sender, target) ==>
                            db.requests[id].status == Rejected
    requires DoSend(db, sender, target) == Outcome(OK, after, [])
    ensures FriendshipsBacked(after)
  {
    forall id
      ensures AcceptedRow(after, id) == AcceptedRow(db, id)
      ensures AcceptedRow(db, id) ==> id in after.requests && after.requests[id] == db.requests[id]
    {
      if id in db.requests && !Joins(db.requests[id], sender, target) {
        assert id in after.requests;
      }
    }
    BackedFrame(db, after);
  }

  lemma SendKeeps(db: Db, sender: int, target: int)
    requires FriendInv(db)
    ensures FriendInv(DoSend(db, sender, target).db)
  {
    var out := DoSend(db, sender, target);
    if out.code == OK {
      AskersHaveOnlyRejectedRows(db, sender, target);
      SendKeepsBacked(db, sender, target, out.db);
      SendKeepsRows(db, sender, target, out.db);
    }
  }

  /** `after` is `db` with some terminal rows of one direction replaced by a pending row under a new id. */
  ghost predicate Asked(db: Db, after: Db, sender: int, target: int) {
    var added := db.nextRequest;
    && after.users == db.users && after.blacklist == db.blacklist && after.nextRequest == added + 1
    && sender in db.users && target in db.users && sender != target && sender > 0 && target > 0
    && added in after.requests && after.requests[added] == Request(sender, target, Pending)
    && (forall id :: id in after.requests && id != added ==> id in db.requests && after.requests[id] == db.requests[id])
    && (forall id :: id in after.requests && id != added && Joins(db.requests[id], sender, target) ==>
          db.requests[id].status == Rejected && db.requests[id].sender == target)
  }

  lemma SendAsks(db: Db, sender: int, target: int, after: Db)
    requires RequestRowsOk(db)
    requires forall id :: id in db.requests && Joins(db.requests[id], sender, target) ==> db.requests[id].status == Rejected
    requires DoSend(db, sender, target) == Outcome(OK, after, [])
    ensures Asked(db, after, sender, target)
  {
  }

  lemma AskedKeepsRows(db: Db, sender: int, target: int, after: Db)
    requires RequestRowsOk(db) && OneRowPerDirection(db) && Asked(db, after, sender, target)
    ensures RequestRowsOk(after) && OneRowPerDirection(after)
  {
  }

  lemma AskedKeepsLive(db: Db, sender: int, target: int, after: Db)
    requires OneLivePerPair(db) && Asked(db, after, sender, target)
    ensures OneLivePerPair(after)
  {
  }

  lemma SendKeepsRows(db: Db, sender: int, target: int, after: Db)
    requires RowsInv(db) && NoPendingAcrossBlock(db)
    requires forall id :: id in db.requests && Joins(db.requests[id], sender, target) ==>
                            db.requests[id].status == Rejected
    requires DoSend(db, sender, target) == Outcome(OK, after, [])
    ensures RowsInv(after) && NoPendingAcrossBlock(after)
  {
    SendAsks(db, sender, target, after);
    AskedKeepsRows(db, sender, target, after);
    AskedKeepsLive(db, sender, target, after);
  }

  /** Changing statuses without reviving a rejected row keeps the row invariants. */
  lemma RowsFrame(db: Db, after: Db)
    requires RowsInv(db)
    requires after.nextRequest == db.nextRequest && after.users == db.users
    requires after.requests.Keys == db.requests.Keys
    requires forall id :: id in db.requests ==>
      && after.requests[id].sender == db.requests[id].sender
      && after.requests[id].target == db.requests[id].target
      && (db.requests[id].status == Rejected ==> after.requests[id].status == Rejected)
    ensures RowsInv(after)
  {
  }

  /** The pending row is the only live row of its pair, so accepting it backs exactly that pair. */
  lemma AcceptKeeps(db: Db, user: int, id: int)
    requires FriendInv(db)
    ensures FriendInv(DoAccept(db, user, id).db)
  {
    var out := DoAccept(db, user, id);
    if out.code == OK {
      AcceptKeepsBacked(db, user, id, out.db);
      RowsFrame(db, out.db);
    }
  }

  lemma AcceptKeepsBacked(db: Db, user: int, id: int, after: Db)
    requires FriendshipsBacked(db)
    requires DoAccept(db, user, id).code == OK && DoAccept(db, user, id).db == after
    ensures FriendshipsBacked(after)
  {
    var r := db.requests[id];
    forall a, b
      ensures (a, b) in after.friendships <==> Backed(after, a, b)
    {
      if Backed(after, a, b) {
        var k :| k in after.requests && Joins(after.requests[k], a, b) && after.requests[k].status == Accepted;
        if k != id {
          assert db.requests[k] == after.requests[k];
          assert Backed(db, a, b);
        }
      }
      if (a, b) in db.friendships {
        var k :| k in db.requests && Joins(db.requests[k], a, b) && db.requests[k].status == Accepted;
        assert k in after.requests && Joins(after.requests[k], a, b) && after.requests[k].status == Accepted;
      } else if (a, b) in after.friendships {
        assert Joins(after.requests[id], a, b) && after.requests[id].status == Accepted;
      }
    }
  }

  lemma RejectKeeps(db: Db, user: int, id: int)
    requires FriendInv(db)
    ensures FriendInv(DoReject(db, user, id).db)
  {
    BackedFrame(db, DoReject(db, user, id).db);
    RowsFrame(db, DoReject(db, user, id).db);
  }

  lemma DeleteKeepsBacked(db: Db, user: int, friend: int, after: Db)
    requires FriendshipsBacked(db)
    requires DoDelete(db, user, friend).code == OK && DoDelete(db, user, friend).db == after
    ensures FriendshipsBacked(after)
  {
    forall a, b
      ensures (a, b) in after.friendships <==> Backed(after, a, b)
    {
      if Backed(after, a, b) {
        var k :| k in after.requests && Joins(after.requests[k], a, b) && after.requests[k].status == Accepted;
        assert db.requests[k] == after.requests[k];
        assert Backed(db, a, b);
      }
      if (a, b) in after.friendships {
        var k :| k in db.requests && Joins(db.requests[k], a, b) && db.requests[k].status == Accepted;
        assert after.requests[k] == db.requests[k];
      }
    }
  }

  lemma DeleteKeeps(db: Db, user: int, friend: int)
    requires FriendInv(db)
    ensures FriendInv(DoDelete(db, user, friend).db)
  {
    var out := DoDelete(db, user, friend);
    if out.code == OK {
      RowsFrame(db, out.db);
      DeleteKeepsBacked(db, user, friend, out.db);
    }
  }

  lemma BlockKeeps(db: Db, user: int, blocked: int)
    requires FriendInv(db)
    ensures FriendInv(DoBlock(db, user, blocked).db)
  {
    var out := DoBlock(db, user, blocked);
    if out.code == OK {
      BackedFrame(db, out.db);
      RowsFrame(db, out.db);
      BlockRejectsPending(db, user, blocked, out.db);
    }
  }

  lemma BlockRejectsPending(db: Db, user: int, blocked: int, after: Db)
    requires NoPendingAcrossBlock(db)
    requires after.blacklist == db.blacklist + {(user, blocked)}
    requires after.requests == SetStatusWhere(db.requests, user, blocked, Pending, Rejected)
    ensures NoPendingAcrossBlock(after)
  {
  }

  lemma UnblockKeeps(db: Db, user: int, blocked: int)
    requires FriendInv(db)
    ensures FriendInv(DoUnblock(db, user, blocked).db)
  {
    BackedFrame(db, DoUnblock(db, user, blocked).db);
  }

  /** Every friend use case, whatever it answers, keeps the pair invariant. */
  lemma FriendStepKeeps(db: Db, command: FriendCommand)
    requires FriendInv(db)
    ensures FriendInv(RunFriend(db, command).db)
  {
    match command
    case SendRequest(sender, target) => SendKeeps(db, sender, target);
    case AcceptRequest(user, id) => AcceptKeeps(db, user, id);
    case RejectRequest(user, id) => RejectKeeps(db, user, id);
    case DeleteFriend(user, friend) => DeleteKeeps(db, user, friend);
    case Block(user, blocked) => BlockKeeps(db, user, blocked);
    case Unblock(user, blocked) => UnblockKeeps(db, user, blocked);
  }

  // ---- consent ----

  /** Two users become friends in one way only: the target of a pending request accepts it, while neither
      blocks the other. */
  lemma FriendshipNeedsConsent(db: Db, command: FriendCommand, a: int, b: int)
    requires FriendInv(db)
    requires (a, b) !in db.friendships && (a, b) in RunFriend(db, command).db.friendships
    ensures command.AcceptRequest? && command.id in db.requests
    ensures var r := db.requests[command.id];
            && r.status == Pending && r.target == command.user && {r.sender, r.target} == {a, b}
            && (a, b) !in db.blacklist && (b, a) !in db.blacklist
    ensures RunFriend(db, command).db.requests[command.id].status == Accepted
  {
    match command
    case AcceptRequest(_, id) => AcceptedNeverBefriends(db, command, id);
    case _ =>
  }

  /** An accepted request's pair are friends already, so accepting it again adds nobody. */
  lemma AcceptedNeverBefriends(db: Db, command: FriendCommand, id: int)
    requires FriendInv(db)
    requires command.AcceptRequest? && command.id == id
    ensures AcceptedRow(db, id) ==> RunFriend(db, command).db.friendships == db.friendships
  {
    if AcceptedRow(db, id) { AcceptedMeansFriends(db, id); }
  }

  lemma AcceptedMeansFriends(db: Db, id: int)
    requires FriendshipsBacked(db) && AcceptedRow(db, id)
    ensures (db.requests[id].sender, db.requests[id].target) in db.friendships
    ensures (db.requests[id].target, db.requests[id].sender) in db.friendships
  {
    var r := db.requests[id];
    assert Joins(r, r.sender, r.target) && Joins(r, r.target, r.sender);
    assert Backed(db, r.sender, r.target) && Backed(db, r.target, r.sender);
  }
}

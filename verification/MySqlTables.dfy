/** The MySQL repository in its own form: statements that change rows inside one open transaction. */
module MySqlTables {
  import opened Common
  import opened Tables
  import opened FriendPairs
  import opened GroupLifecycle
  import opened Locks

  /** The locks asked for so far; a row that is held already is not waited for again. */
  function Asking(asked: seq<Row>, row: Row): seq<Row> {
    if row in asked then asked else asked + [row]
  }

  class MySqlRepository {
    var db: Db
    var outbox: seq<Resource>
    var savedDb: Db
    var savedOutbox: seq<Resource>
    ghost var asked: seq<Row>      // the rows this transaction has asked to lock, in order

    constructor (db: Db)
      ensures this.db == db && outbox == [] && asked == []
    {
      this.db, outbox, savedDb, savedOutbox := db, [], db, [];
      asked := [];
    }

    method Begin()
      modifies this`savedDb, this`savedOutbox, this`asked
      ensures savedDb == db && savedOutbox == outbox && asked == []
    {
      savedDb, savedOutbox := db, outbox;
      asked := [];
    }

    method Rollback()
      modifies this`db, this`outbox
      ensures db == savedDb && outbox == savedOutbox
    {
      db, outbox := savedDb, savedOutbox;
    }

    method Enqueue(resource: Resource)
      modifies this`outbox
      ensures outbox == old(outbox) + [resource]
    {
      outbox := outbox + [resource];
    }

    // ---- friends ----

    /** SELECT ... FOR UPDATE of the two user rows in ascending order; the number found. */
    method LockUsers(first: int, second: int) returns (locked: nat)
      modifies this`asked
      ensures locked == 2 <==> first != second && first in db.users && second in db.users
      ensures asked == old(asked) + InIdOrder(first, second)
    {
      var ids := if first < second then [first, second] else if second < first then [second, first] else [first];
      locked := 0;
      for i := 0 to |ids|
        invariant locked <= i
        invariant locked == i <==> forall k :: 0 <= k < i ==> ids[k] in db.users
        invariant asked == old(asked) + InIdOrder(first, second)[..i]
      {
        asked := asked + [UserRow(ids[i])];
        if ids[i] in db.users { locked := locked + 1; }
      }
      assert first != second ==> {ids[0], ids[1]} == {first, second};
    }

    method FindPending(a: int, b: int) returns (found: bool)
      ensures found <==> HasPending(db, a, b)
    {
      var left := db.requests.Keys;
      while left != {}
        invariant left <= db.requests.Keys
        invariant forall id :: id in db.requests && id !in left ==>
                    !(Joins(db.requests[id], a, b) && db.requests[id].status == Pending)
        decreases left
      {
        NonEmpty(left);
        var id :| id in left;
        if Joins(db.requests[id], a, b) && db.requests[id].status == Pending { return true; }
        left := left - {id};
      }
      return false;
    }

    /** Deletes the terminal rows of this direction, then inserts under a new id; uk_pair may refuse. */
    method SaveFriendRequest(sender: int, target: int) returns (ok: bool, id: int)
      modifies this`db, this`asked
      ensures asked == Asking(old(asked), PairRequests(sender, target))
      ensures var kept := DeleteTerminal(old(db).requests, sender, target);
              && (ok <==> !HasDirection(kept, sender, target))
              && id == old(db).nextRequest
              && (ok ==> db == old(db).(requests := kept[id := Request(sender, target, Pending)], nextRequest := id + 1))
    {
      asked := Asking(asked, PairRequests(sender, target));
      db := db.(requests := DeleteTerminal(db.requests, sender, target));
      id := db.nextRequest;
      ok := !HasDirection(db.requests, sender, target);
      if ok {
        db := db.(requests := db.requests[id := Request(sender, target, Pending)], nextRequest := id + 1);
      }
    }

    /** SELECT ... FOR UPDATE of one request row. */
    method GetRequestForUpdate(id: int) returns (row: Option<Request>)
      modifies this`asked
      ensures row == if id in db.requests then Some(db.requests[id]) else None
      ensures asked == if row.Some? then Asking(old(asked), PairRequests(row.value.sender, row.value.target)) else old(asked)
    {
      if id !in db.requests { return None; }
      row := Some(db.requests[id]);
      asked := Asking(asked, PairRequests(row.value.sender, row.value.target));
    }

    method SetRequestStatus(id: int, status: Status)
      requires id in db.requests
      modifies this`db
      ensures db == old(db).(requests := old(db).requests[id := old(db).requests[id].(status := status)])
    {
      db := db.(requests := db.requests[id := db.requests[id].(status := status)]);
    }

    /** INSERT IGNORE of both directions. */
    method EnsureFriendshipPair(a: int, b: int)
      modifies this`db
      ensures db == old(db).(friendships := old(db).friendships + {(a, b), (b, a)})
    {
      db := db.(friendships := db.friendships + {(a, b)});
      db := db.(friendships := db.friendships + {(b, a)});
      assert db.friendships == old(db).friendships + {(a, b), (b, a)};
    }

    method DeleteFriendshipPair(a: int, b: int)
      modifies this`db
      ensures db == old(db).(friendships := old(db).friendships - {(a, b), (b, a)})
    {
      db := db.(friendships := db.friendships - {(a, b), (b, a)});
    }

    /** InvalidateAcceptedFriendRequests and RejectPendingFriendRequests: reject the pair's rows of one status. */
    method RejectRequests(a: int, b: int, status: Status)
      modifies this`db, this`asked
      ensures asked == Asking(old(asked), PairRequests(a, b))
      ensures db == old(db).(requests := SetStatusWhere(old(db).requests, a, b, status, Rejected))
    {
      asked := Asking(asked, PairRequests(a, b));
      db := db.(requests := SetStatusWhere(db.requests, a, b, status, Rejected));
    }

    /** INSERT into blacklist; its unique key refuses a second entry. */
    method AddBlacklistEntry(user: int, blocked: int) returns (ok: bool)
      modifies this`db
      ensures ok <==> (user, blocked) !in old(db).blacklist
      ensures db == old(db).(blacklist := old(db).blacklist + {(user, blocked)})
    {
      ok := (user, blocked) !in db.blacklist;
      db := db.(blacklist := db.blacklist + {(user, blocked)});
    }

    method RemoveBlacklistEntry(user: int, blocked: int)
      modifies this`db
      ensures db == old(db).(blacklist := old(db).blacklist - {(user, blocked)})
    {
      db := db.(blacklist := db.blacklist - {(user, blocked)});
    }

    // ---- groups ----

    /** SELECT ... FOR UPDATE of the creator's user row. */
    method LockGroupCreator(user: int) returns (found: bool)
      modifies this`asked
      ensures found <==> user in db.users
      ensures asked == Asking(old(asked), UserRow(user))
    {
      asked := Asking(asked, UserRow(user));
      found := user in db.users;
    }

    /** SELECT ... FOR UPDATE of the group row. */
    method GetGroupForUpdate(group: int) returns (row: Option<Group>)
      modifies this`asked
      ensures row == if group in db.groups then Some(db.groups[group]) else None
      ensures asked == Asking(old(asked), GroupRow(group))
    {
      asked := Asking(asked, GroupRow(group));
      row := if group in db.groups then Some(db.groups[group]) else None;
    }

    /** SELECT ... FOR UPDATE of one member row; the member rows of a group count as one lock. */
    method GetMemberForUpdate(group: int, user: int) returns (row: Option<Member>)
      modifies this`asked
      ensures row == if (group, user) in db.members then Some(db.members[(group, user)]) else None
      ensures asked == Asking(old(asked), MemberRows(group))
    {
      asked := Asking(asked, MemberRows(group));
      row := if (group, user) in db.members then Some(db.members[(group, user)]) else None;
    }

    /** INSERT; the new row is locked by its own transaction. */
    method CreateGroup(owner: int) returns (id: int)
      modifies this`db, this`asked
      ensures id == old(db).nextGroup
      ensures asked == Asking(old(asked), GroupRow(id))
      ensures db == old(db).(groups := old(db).groups[id := Group(owner, DEFAULT_MAX_MEMBERS)], nextGroup := id + 1)
    {
      id := db.nextGroup;
      asked := Asking(asked, GroupRow(id));
      db := db.(groups := db.groups[id := Group(owner, DEFAULT_MAX_MEMBERS)], nextGroup := id + 1);
    }

    method AddGroupMember(group: int, user: int, role: int)
      modifies this`db, this`asked
      ensures asked == Asking(old(asked), MemberRows(group))
      ensures db == old(db).(members := old(db).members[(group, user) := Member(role, None)])
    {
      asked := Asking(asked, MemberRows(group));
      db := db.(members := db.members[(group, user) := Member(role, None)]);
    }

    method CountGroupMembers(group: int) returns (count: nat)
      ensures count == |Of(db.members.Keys, group)|
    {
      var left := Of(db.members.Keys, group);
      count := 0;
      while left != {}
        invariant count + |left| == |Of(db.members.Keys, group)|
        decreases left
      {
        NonEmpty(left);
        var user :| user in left;
        count := count + 1;
        left := left - {user};
      }
    }

    method RemoveGroupMember(group: int, user: int)
      modifies this`db
      ensures db == old(db).(members := old(db).members - {(group, user)})
    {
      db := db.(members := db.members - {(group, user)});
    }

    method UpdateMemberRole(group: int, user: int, role: int)
      requires (group, user) in db.members
      modifies this`db
      ensures db == old(db).(members := old(db).members[(group, user) := old(db).members[(group, user)].(role := role)])
    {
      db := db.(members := db.members[(group, user) := db.members[(group, user)].(role := role)]);
    }

    method UpdateMemberMute(group: int, user: int, deadline: Option<int>)
      requires (group, user) in db.members
      modifies this`db
      ensures db == old(db).(members := old(db).members[(group, user) := old(db).members[(group, user)].(mutedUntil := deadline)])
    {
      db := db.(members := db.members[(group, user) := db.members[(group, user)].(mutedUntil := deadline)]);
    }

    method UpdateGroupOwner(group: int, owner: int)
      requires group in db.groups
      modifies this`db
      ensures db == old(db).(groups := old(db).groups[group := old(db).groups[group].(owner := owner)])
    {
      db := db.(groups := db.groups[group := db.groups[group].(owner := owner)]);
    }

    /** INSERT ... ON DUPLICATE KEY UPDATE owner_id. */
    method UpsertTombstone(group: int, owner: int)
      modifies this`db, this`asked
      ensures asked == Asking(old(asked), TombRow(group))
      ensures db == old(db).(tombstones := old(db).tombstones[group := owner])
    {
      asked := Asking(asked, TombRow(group));
      db := db.(tombstones := db.tombstones[group := owner]);
    }

    method DeleteGroupMembers(group: int)
      modifies this`db, this`asked
      ensures asked == Asking(old(asked), MemberRows(group))
      ensures db == old(db).(members := Drop(old(db).members, group))
    {
      asked := Asking(asked, MemberRows(group));
      db := db.(members := Drop(db.members, group));
    }

    method DeleteGroup(group: int)
      modifies this`db
      ensures db == old(db).(groups := old(db).groups - {group})
    {
      db := db.(groups := db.groups - {group});
    }
  }
}

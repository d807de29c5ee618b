/** The friend and group use cases in their own form: a transaction of single statements that commits, or
    rolls back on the first refusal. */
module Services {
  import opened Common
  import opened Tables
  import opened FriendPairs
  import opened GroupLifecycle
  import opened Business
  import opened Locks
  import opened MySqlTables

  /** The transaction left exactly this outcome: its answer, its tables and its events. */
  twostate predicate Commits(repo: MySqlRepository, code: Code, out: Outcome)
    reads repo
  {
    code == out.code && repo.db == out.db && repo.outbox == old(repo.outbox) + out.events
  }

  /** The transaction asked for its locks in the order of the plan, and for all of them if it changed anything. */
  twostate predicate FollowsPlan(repo: MySqlRepository, plan: seq<Row>)
    reads repo
  {
    repo.asked <= plan && (repo.db != old(repo.db) ==> repo.asked == plan)
  }

  class FriendService {
    const repo: MySqlRepository

    constructor (repo: MySqlRepository)
      ensures this.repo == repo
    {
      this.repo := repo;
    }

    method SendRequest(sender: int, target: int) returns (code: Code)
      modifies repo
      ensures Commits(repo, code, DoSend(old(repo.db), sender, target))
      ensures FollowsPlan(repo, Plan(old(repo.db), OnFriends(FriendCommand.SendRequest(sender, target))))
    {
      repo.asked := [];
      if sender <= 0 || target <= 0 { return InvalidParam; }
      if sender == target { return SelfRequest; }
      repo.Begin();
      var locked := repo.LockUsers(sender, target);
      if locked != 2 { repo.Rollback(); return UserNotFound; }
      if IsEitherBlocked(repo.db, sender, target) { repo.Rollback(); return FriendBlocked; }
      if IsFriendPair(repo.db, sender, target) { repo.Rollback(); return AlreadyFriends; }
      var pending := repo.FindPending(sender, target);
      if pending { repo.Rollback(); return DuplicateRequest; }
      var saved, id := repo.SaveFriendRequest(sender, target);
      // No row of this direction is left to conflict with: the pending ones were ruled out under the locks.
      assert saved;
      return OK;
    }

    method EnqueuePair(a: int, b: int)
      modifies repo`outbox
      ensures repo.outbox == old(repo.outbox) + [Friends(a), Friends(b)]
    {
      repo.Enqueue(Friends(a));
      repo.Enqueue(Friends(b));
    }

    method AcceptRequest(user: int, id: int) returns (code: Code)
      modifies repo
      ensures Commits(repo, code, DoAccept(old(repo.db), user, id))
      ensures FollowsPlan(repo, Plan(old(repo.db), OnFriends(FriendCommand.AcceptRequest(user, id))))
    {
      repo.asked := [];
      if user <= 0 || id <= 0 { return InvalidParam; }
      if id !in repo.db.requests { return RequestNotFound; }
      var preview := repo.db.requests[id];
      if preview.target != user { return NotRequestTarget; }
      repo.Begin();
      var locked := repo.LockUsers(preview.sender, preview.target);
      if locked != 2 { repo.Rollback(); return RequestNotFound; }
      var found := repo.GetRequestForUpdate(id);
      var request := found.value;
      match request.status {
        case Accepted =>
          repo.EnsureFriendshipPair(request.sender, request.target);
          EnqueuePair(request.sender, request.target);
          return OK;
        case Rejected =>
          repo.Rollback();
          return RequestNotFound;
        case Pending =>
          if IsEitherBlocked(repo.db, request.sender, request.target) { repo.Rollback(); return FriendBlocked; }
          repo.SetRequestStatus(id, Accepted);
          repo.EnsureFriendshipPair(request.sender, request.target);
          EnqueuePair(request.sender, request.target);
          return OK;
      }
    }

    method RejectRequest(user: int, id: int) returns (code: Code)
      modifies repo
      ensures Commits(repo, code, DoReject(old(repo.db), user, id))
      ensures FollowsPlan(repo, Plan(old(repo.db), OnFriends(FriendCommand.RejectRequest(user, id))))
    {
      repo.asked := [];
      if user <= 0 || id <= 0 { return InvalidParam; }
      if id !in repo.db.requests { return RequestNotFound; }
      var preview := repo.db.requests[id];
      if preview.target != user { return NotRequestTarget; }
      repo.Begin();
      var locked := repo.LockUsers(preview.sender, preview.target);
      if locked != 2 { repo.Rollback(); return RequestNotFound; }
      var found := repo.GetRequestForUpdate(id);
      var request := found.value;
      match request.status {
        case Rejected => return OK;
        case Accepted =>
          repo.Rollback();
          return RequestNotFound;
        case Pending =>
          repo.SetRequestStatus(id, Rejected);
          return OK;
      }
    }

    method DeleteFriend(user: int, friend: int) returns (code: Code)
      modifies repo
      ensures Commits(repo, code, DoDelete(old(repo.db), user, friend))
      ensures FollowsPlan(repo, Plan(old(repo.db), OnFriends(FriendCommand.DeleteFriend(user, friend))))
    {
      repo.asked := [];
      if user <= 0 || friend <= 0 { return InvalidParam; }
      if user == friend { return SelfRequest; }
      repo.Begin();
      var locked := repo.LockUsers(user, friend);
      if locked != 2 { repo.Rollback(); return UserNotFound; }
      repo.DeleteFriendshipPair(user, friend);
      repo.RejectRequests(user, friend, Accepted);
      EnqueuePair(user, friend);
      return OK;
    }

    method Block(user: int, blocked: int) returns (code: Code)
      modifies repo
      ensures Commits(repo, code, DoBlock(old(repo.db), user, blocked))
      ensures FollowsPlan(repo, Plan(old(repo.db), OnFriends(FriendCommand.Block(user, blocked))))
    {
      repo.asked := [];
      if user <= 0 || blocked <= 0 { return InvalidParam; }
      if user == blocked { return SelfRequest; }
      repo.Begin();
      var locked := repo.LockUsers(user, blocked);
      if locked != 2 { repo.Rollback(); return UserNotFound; }
      var added := repo.AddBlacklistEntry(user, blocked);
      if !added { repo.Rollback(); return AlreadyBlocked; }
      repo.RejectRequests(user, blocked, Pending);
      repo.Enqueue(Blacklist(user));
      return OK;
    }

    method Unblock(user: int, blocked: int) returns (code: Code)
      modifies repo
      ensures Commits(repo, code, DoUnblock(old(repo.db), user, blocked))
      ensures FollowsPlan(repo, Plan(old(repo.db), OnFriends(FriendCommand.Unblock(user, blocked))))
    {
      repo.asked := [];
      if user <= 0 || blocked <= 0 { return InvalidParam; }
      if user == blocked { return SelfRequest; }
      repo.Begin();
      var locked := repo.LockUsers(user, blocked);
      if locked != 2 { repo.Rollback(); return UserNotFound; }
      repo.RemoveBlacklistEntry(user, blocked);
      repo.Enqueue(Blacklist(user));
      return OK;
    }
  }

  /** What inviting leaves once the caller may manage and the invited one is no member. */
  function InviteOutcome(db: Db, group: int, row: Group, operator: int, member: int): Outcome {
    if operator !in db.users || member !in db.users then Refuse(UserNotFound, db)
    else if !IsFriendPair(db, operator, member) then Refuse(MemberNotFriend, db)
    else if |Of(db.members.Keys, group)| >= row.maxMembers then Refuse(GroupFull, db)
    else Outcome(OK, db.(members := db.members[(group, member) := Member(ROLE_MEMBER, None)]), [Members(group)])
  }

  /** canManageGroupMembers: the owner by the group row, or an administrator. */
  predicate MayManage(row: Group, actor: Option<Member>, operator: int) {
    actor.Some? && (row.owner == operator || actor.value.role == ROLE_ADMIN)
  }

  lemma TwoRowPrefixes(first: Row, second: Row, rest: seq<Row>)
    ensures [] <= [first, second] + rest && [first] <= [first, second] + rest && [first, second] <= [first, second] + rest
  {
  }

  class GroupService {
    const repo: MySqlRepository

    constructor (repo: MySqlRepository)
      ensures this.repo == repo
    {
      this.repo := repo;
    }

    method Create(owner: int) returns (code: Code, id: int)
      modifies repo
      ensures Commits(repo, code, DoCreate(old(repo.db), owner))
      ensures FollowsPlan(repo, Plan(old(repo.db), OnGroups(GroupCommand.Create(owner))))
      ensures id == if code == OK then old(repo.db).nextGroup else 0
    {
      repo.asked := [];
      if owner <= 0 { return InvalidParam, 0; }
      repo.Begin();
      var found := repo.LockGroupCreator(owner);
      if !found { repo.Rollback(); return UserNotFound, 0; }
      id := repo.CreateGroup(owner);
      repo.AddGroupMember(id, owner, ROLE_OWNER);
      repo.Enqueue(Members(id));
      return OK, id;
    }

    method AddMember(group: int, operator: int, member: int) returns (code: Code)
      modifies repo
      ensures Commits(repo, code, DoAdd(old(repo.db), group, operator, member))
      ensures FollowsPlan(repo, Plan(old(repo.db), OnGroups(GroupCommand.AddMember(group, operator, member))))
    {
      repo.asked := [];
      if group <= 0 || operator <= 0 || member <= 0 { return InvalidParam; }
      TwoRowPrefixes(GroupRow(group), MemberRows(group), InIdOrder(operator, member));
      repo.Begin();
      var row := repo.GetGroupForUpdate(group);
      if row.None? { repo.Rollback(); return GroupNotFound; }
      var actor := repo.GetMemberForUpdate(group, operator);
      if !MayManage(row.value, actor, operator) { repo.Rollback(); return NotOwnerOrAdmin; }
      var existing := repo.GetMemberForUpdate(group, member);
      if existing.Some? { repo.Rollback(); return AlreadyMember; }
      code := Invite(group, row.value, operator, member);
    }

    /** The second half of AddMember: both users locked, friends, and room left. */
    method Invite(group: int, row: Group, operator: int, member: int) returns (code: Code)
      requires repo.savedDb == repo.db && repo.savedOutbox == repo.outbox
      requires repo.asked == [GroupRow(group), MemberRows(group)]
      requires operator != member
      modifies repo
      ensures Commits(repo, code, InviteOutcome(old(repo.db), group, row, operator, member))
      ensures repo.asked == [GroupRow(group), MemberRows(group)] + InIdOrder(operator, member)
    {
      assert repo.asked[1] == MemberRows(group);
      var locked := repo.LockUsers(operator, member);
      if locked != 2 { repo.Rollback(); return UserNotFound; }
      if !IsFriendPair(repo.db, operator, member) { repo.Rollback(); return MemberNotFriend; }
      var count := repo.CountGroupMembers(group);
      if count >= row.maxMembers { repo.Rollback(); return GroupFull; }
      repo.AddGroupMember(group, member, ROLE_MEMBER);
      repo.Enqueue(Members(group));
      return OK;
    }

    method RemoveMember(group: int, operator: int, member: int) returns (code: Code)
      modifies repo
      ensures Commits(repo, code, DoRemove(old(repo.db), group, operator, member))
      ensures FollowsPlan(repo, Plan(old(repo.db), OnGroups(GroupCommand.RemoveMember(group, operator, member))))
    {
      repo.asked := [];
      if group <= 0 || operator <= 0 || member <= 0 { return InvalidParam; }
      repo.Begin();
      var row := repo.GetGroupForUpdate(group);
      if row.None? { repo.Rollback(); return GroupNotFound; }
      var actor := repo.GetMemberForUpdate(group, operator);
      if !MayManage(row.value, actor, operator) { repo.Rollback(); return NotOwnerOrAdmin; }
      var target := repo.GetMemberForUpdate(group, member);
      if target.None? { repo.Rollback(); return GroupMemberNotFound; }
      if member == row.value.owner { repo.Rollback(); return CannotRemoveOwner; }
      if row.value.owner != operator && target.value.role != ROLE_MEMBER {
        repo.Rollback();
        return CannotRemovePeer;
      }
      repo.RemoveGroupMember(group, member);
      repo.Enqueue(Members(group));
      return OK;
    }

    method UpdateRole(group: int, operator: int, member: int, role: int) returns (code: Code)
      modifies repo
      ensures Commits(repo, code, DoRole(old(repo.db), group, operator, member, role))
      ensures FollowsPlan(repo, Plan(old(repo.db), OnGroups(GroupCommand.UpdateRole(group, operator, member, role))))
    {
      repo.asked := [];
      if group <= 0 || operator <= 0 || member <= 0 { return InvalidParam; }
      if role != ROLE_MEMBER && role != ROLE_ADMIN { return InvalidRole; }
      repo.Begin();
      var row := repo.GetGroupForUpdate(group);
      if row.None? { repo.Rollback(); return GroupNotFound; }
      var actor := repo.GetMemberForUpdate(group, operator);
      if actor.None? || row.value.owner != operator {
        repo.Rollback();
        return NotOwnerOrAdmin;
      }
      var target := repo.GetMemberForUpdate(group, member);
      if target.None? { repo.Rollback(); return GroupMemberNotFound; }
      if member == row.value.owner { repo.Rollback(); return NotOwnerOrAdmin; }
      if target.value.role == role { return OK; }
      repo.UpdateMemberRole(group, member, role);
      repo.Enqueue(Members(group));
      return OK;
    }

    /** `requestedAt` and `lockedAt` are the two readings of the clock, before and after the row locks. */
    method MuteMember(group: int, operator: int, member: int, deadline: Option<int>, requestedAt: nat, lockedAt: nat)
      returns (code: Code)
      modifies repo
      ensures Commits(repo, code, DoMute(old(repo.db), group, operator, member, deadline, requestedAt, lockedAt))
      ensures FollowsPlan(repo, Plan(old(repo.db), OnGroups(GroupCommand.MuteMember(group, operator, member, deadline, requestedAt, lockedAt))))
    {
      repo.asked := [];
      if group <= 0 || operator <= 0 || member <= 0 { return InvalidParam; }
      if DeadlineRefused(deadline, requestedAt) { return InvalidParam; }
      var normalized := if deadline.None? then None else Some(NormalizeDeadline(deadline.value));
      repo.Begin();
      var row := repo.GetGroupForUpdate(group);
      if row.None? { repo.Rollback(); return GroupNotFound; }
      var actor := repo.GetMemberForUpdate(group, operator);
      if !MayManage(row.value, actor, operator) { repo.Rollback(); return NotOwnerOrAdmin; }
      var target := repo.GetMemberForUpdate(group, member);
      assert repo.asked == [GroupRow(group), MemberRows(group)];
      if target.None? { repo.Rollback(); return GroupMemberNotFound; }
      if member == row.value.owner || (row.value.owner != operator && target.value.role != ROLE_MEMBER) {
        repo.Rollback();
        return NotOwnerOrAdmin;
      }
      if normalized.Some? && normalized.value <= lockedAt { repo.Rollback(); return InvalidParam; }
      if target.value.mutedUntil == normalized { return OK; }
      repo.UpdateMemberMute(group, member, normalized);
      repo.Enqueue(Members(group));
      return OK;
    }

    method TransferOwnership(group: int, operator: int, newOwner: int) returns (code: Code)
      modifies repo
      ensures Commits(repo, code, DoTransfer(old(repo.db), group, operator, newOwner))
      ensures FollowsPlan(repo, Plan(old(repo.db), OnGroups(GroupCommand.TransferOwnership(group, operator, newOwner))))
    {
      repo.asked := [];
      if group <= 0 || operator <= 0 || newOwner <= 0 { return InvalidParam; }
      if operator == newOwner { return InvalidParam; }
      repo.Begin();
      var row := repo.GetGroupForUpdate(group);
      if row.None? { repo.Rollback(); return GroupNotFound; }
      var actor := repo.GetMemberForUpdate(group, operator);
      if actor.None? || row.value.owner != operator {
        repo.Rollback();
        return NotOwnerOrAdmin;
      }
      var heir := repo.GetMemberForUpdate(group, newOwner);
      assert repo.asked == [GroupRow(group), MemberRows(group)];
      if heir.None? { repo.Rollback(); return GroupMemberNotFound; }
      MoveOwnership(group, operator, newOwner, heir.value.mutedUntil.Some?);
      repo.Enqueue(Members(group));
      return OK;
    }

    /** The three or four updates of a transfer: old owner, new owner, the new owner's mute, the group row. */
    method MoveOwnership(group: int, operator: int, newOwner: int, muted: bool)
      requires operator != newOwner && group in repo.db.groups
      requires (group, operator) in repo.db.members && (group, newOwner) in repo.db.members
      requires muted <==> repo.db.members[(group, newOwner)].mutedUntil.Some?
      modifies repo`db
      ensures var db := old(repo.db);
              repo.db == db.(members := db.members[(group, operator) := db.members[(group, operator)].(role := ROLE_MEMBER)]
                                                  [(group, newOwner) := Member(ROLE_OWNER, None)],
                             groups := db.groups[group := db.groups[group].(owner := newOwner)])
    {
      repo.UpdateMemberRole(group, operator, ROLE_MEMBER);
      repo.UpdateMemberRole(group, newOwner, ROLE_OWNER);
      if muted {
        repo.UpdateMemberMute(group, newOwner, None);
      }
      repo.UpdateGroupOwner(group, newOwner);
    }

    method Leave(group: int, user: int) returns (code: Code)
      modifies repo
      ensures Commits(repo, code, DoLeave(old(repo.db), group, user))
      ensures FollowsPlan(repo, Plan(old(repo.db), OnGroups(GroupCommand.Leave(group, user))))
    {
      repo.asked := [];
      if group <= 0 || user <= 0 { return InvalidParam; }
      repo.Begin();
      var row := repo.GetGroupForUpdate(group);
      if row.None? { repo.Rollback(); return GroupNotFound; }
      var leaver := repo.GetMemberForUpdate(group, user);
      if leaver.None? { repo.Rollback(); return GroupNotMember; }
      if row.value.owner == user { repo.Rollback(); return CannotLeaveAsOwner; }
      repo.RemoveGroupMember(group, user);
      repo.Enqueue(Members(group));
      return OK;
    }

    /** `cleanup` asks the caller to clear Redis: after a real disband and on a retry with a tombstone,
        never for an id that no group ever had. */
    method Disband(group: int, operator: int) returns (code: Code, cleanup: bool)
      modifies repo
      ensures Commits(repo, code, DoDisband(old(repo.db), group, operator))
      ensures FollowsPlan(repo, Plan(old(repo.db), OnGroups(GroupCommand.Disband(group, operator))))
      ensures cleanup <==> code == OK && group in repo.db.tombstones
    {
      repo.asked := [];
      if group <= 0 || operator <= 0 { return InvalidParam, false; }
      repo.Begin();
      var row := repo.GetGroupForUpdate(group);
      if row.None? {
        return OK, group in repo.db.tombstones;
      }
      if row.value.owner != operator { repo.Rollback(); return NotOwnerOrAdmin, false; }
      repo.UpsertTombstone(group, row.value.owner);
      repo.DeleteGroupMembers(group);
      repo.DeleteGroup(group);
      repo.Enqueue(Members(group));
      return OK, true;
    }
  }
}

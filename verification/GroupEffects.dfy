/** What each group use case achieves and when, said of the rows alone. */
module GroupEffects {
  import opened Common
  import opened Tables
  import opened GroupLifecycle
  import opened MessageChecks

  /** The owner by the group row, or an administrator by his own row. */
  predicate Manages(db: Db, group: int, operator: int) {
    && group in db.groups && (group, operator) in db.members
    && (db.groups[group].owner == operator || db.members[(group, operator)].role == 1)
  }

  /** A manager may act on a member who is not the owner, and on an administrator only as the owner. */
  predicate MayActOn(db: Db, group: int, operator: int, member: int) {
    && Manages(db, group, operator) && (group, member) in db.members
    && member != db.groups[group].owner
    && (db.groups[group].owner == operator || db.members[(group, member)].role == 0)
  }

  /** Create succeeds exactly for an existing user, and makes a group under a new id with room for 500, whose
      one member is its unmuted owner with role 2. */
  lemma CreateEffect(db: Db, owner: int)
    requires GroupInv(db)
    ensures var out := RunGroup(db, GroupCommand.Create(owner));
            var id := db.nextGroup;
            && (out.code == OK <==> owner > 0 && owner in db.users)
            && (out.code == UserNotFound <==> owner > 0 && owner !in db.users)
            && (out.code == OK ==>
                  && id !in db.groups && id !in db.tombstones
                  && out.db == db.(groups := db.groups[id := Group(owner, 500)], nextGroup := id + 1, members := out.db.members)
                  && (forall u :: (id, u) in out.db.members <==> u == owner)
                  && out.db.members[(id, owner)] == Member(2, None)
                  && (forall k :: k in db.members ==> k in out.db.members && out.db.members[k] == db.members[k])
                  && (forall k :: k in out.db.members ==> k in db.members || k == (id, owner))
                  && out.events == [Members(id)])
  {
    var id := db.nextGroup;
    InvGivesId(db, id);
    assert id !in db.groups && id !in db.tombstones;
    assert forall u :: (id, u) in db.members ==> MemberOk(db, id, u);
  }

  /** AddMember succeeds exactly when a manager invites an existing friend who is no member yet while there is
      room. The invited one becomes an unmuted ordinary member, and nothing else changes. */
  lemma AddEffect(db: Db, group: int, operator: int, member: int)
    requires GroupInv(db)
    ensures var out := RunGroup(db, GroupCommand.AddMember(group, operator, member));
            && (out.code == OK <==>
                  && member > 0 && Manages(db, group, operator) && (group, member) !in db.members
                  && operator in db.users && member in db.users
                  && ((operator, member) in db.friendships || (member, operator) in db.friendships)
                  && |Of(db.members.Keys, group)| < db.groups[group].maxMembers)
            && (out.code == OK ==>
                  && out.db == db.(members := db.members[(group, member) := Member(0, None)])
                  && out.events == [Members(group)])
            && (out.code == AlreadyMember ==> (group, member) in db.members)
            && (out.code == GroupFull ==> group in db.groups && |Of(db.members.Keys, group)| >= db.groups[group].maxMembers)
            && (out.code == MemberNotFriend ==> (operator, member) !in db.friendships && (member, operator) !in db.friendships)
            && (out.code == NotOwnerOrAdmin ==> group in db.groups && !Manages(db, group, operator))
            && (out.code == GroupNotFound ==> group !in db.groups)
            && (out.code == UserNotFound ==> operator !in db.users || member !in db.users)
            && (out.code == InvalidParam <==> group <= 0 || operator <= 0 || member <= 0)
  {
    IdsInGroup(db, group, operator);
  }

  /** Live groups and their members have positive ids. */
  lemma IdsInGroup(db: Db, group: int, user: int)
    requires GroupInv(db)
    ensures group in db.groups ==> group > 0
    ensures (group, user) in db.members ==> user > 0
    ensures group in db.groups && (group, user) in db.members ==>
              (db.members[(group, user)].role == 2 <==> user == db.groups[group].owner)
  {
    if group in db.groups { assert GroupOk(db, group); }
    if (group, user) in db.members { assert MemberOk(db, group, user); }
  }

  /** RemoveMember succeeds exactly when a manager may act on the member, and removes that row alone. */
  lemma RemoveEffect(db: Db, group: int, operator: int, member: int)
    requires GroupInv(db)
    ensures var out := RunGroup(db, GroupCommand.RemoveMember(group, operator, member));
            && (out.code == OK <==> MayActOn(db, group, operator, member))
            && (out.code == OK ==>
                  && out.db == db.(members := db.members - {(group, member)}) && (group, member) !in out.db.members
                  && out.events == [Members(group)])
            && (out.code == CannotRemoveOwner ==> group in db.groups && member == db.groups[group].owner)
            && (out.code == CannotRemovePeer ==>
                  group in db.groups && db.groups[group].owner != operator
                  && (group, member) in db.members && db.members[(group, member)].role != 0)
            && (out.code == GroupMemberNotFound ==> (group, member) !in db.members)
            && (out.code == NotOwnerOrAdmin ==> group in db.groups && !Manages(db, group, operator))
            && (out.code == GroupNotFound ==> group !in db.groups)
  {
    IdsInGroup(db, group, operator);
    IdsInGroup(db, group, member);
  }

  /** UpdateRole succeeds exactly when the owner makes another member administrator or ordinary member. The
      member then has that role and keeps the mute; an event says so if the role is new. */
  lemma RoleEffect(db: Db, group: int, operator: int, member: int, role: int)
    requires GroupInv(db)
    ensures var out := RunGroup(db, UpdateRole(group, operator, member, role));
            && (out.code == OK <==>
                  && (role == 0 || role == 1) && group in db.groups && db.groups[group].owner == operator
                  && (group, member) in db.members && member != operator)
            && (out.code == OK ==>
                  && (group, member) in out.db.members
                  && out.db.members[(group, member)] == Member(role, db.members[(group, member)].mutedUntil)
                  && out.db == db.(members := db.members[(group, member) := out.db.members[(group, member)]])
                  && out.events == if db.members[(group, member)].role == role then [] else [Members(group)])
            && out.code in {OK, InvalidParam, InvalidRole, GroupNotFound, NotOwnerOrAdmin, GroupMemberNotFound}
            && (out.code == InvalidParam <==> group <= 0 || operator <= 0 || member <= 0)
            && (out.code == InvalidRole ==> role != 0 && role != 1)
            && (out.code == GroupNotFound ==> group !in db.groups)
            && (out.code == NotOwnerOrAdmin ==> group in db.groups && (db.groups[group].owner != operator || member == operator))
            && (out.code == GroupMemberNotFound ==> (group, member) !in db.members)
  {
    IdsInGroup(db, group, operator);
    IdsInGroup(db, group, member);
    if group in db.groups { assert GroupOk(db, group); }
    if (group, member) in db.members { assert db.members[(group, member) := db.members[(group, member)]] == db.members; }
  }

  /** A mute stores the requested deadline d cut to whole seconds, n: it is accepted exactly when a manager may
      act on the member and n lies after both readings of the clock and not after the last second of the year
      9999. The member is then muted at every moment before n and at none from n on. */
  lemma MuteEffect(db: Db, group: int, operator: int, member: int, d: int, n: int, requestedAt: nat, lockedAt: nat, now: int)
    requires GroupInv(db)
    requires n % 1000 == 0 && n <= d < n + 1000
    ensures var out := RunGroup(db, GroupCommand.MuteMember(group, operator, member, Some(d), requestedAt, lockedAt));
            && (out.code == OK <==> MayActOn(db, group, operator, member) && requestedAt < n && lockedAt < n && n <= 253402300799000)
            && (out.code == OK ==>
                  && (group, member) in out.db.members
                  && out.db.members[(group, member)] == Member(db.members[(group, member)].role, Some(n))
                  && out.db == db.(members := db.members[(group, member) := out.db.members[(group, member)]])
                  && out.events == (if db.members[(group, member)].mutedUntil == Some(n) then [] else [Members(group)])
                  && GroupTruth(out.db, group, member, now) == if now < n then Muted else Sent)
            && out.code in {OK, InvalidParam, GroupNotFound, NotOwnerOrAdmin, GroupMemberNotFound}
            && (out.code == InvalidParam ==>
                  group <= 0 || operator <= 0 || member <= 0 || n <= requestedAt || n <= lockedAt || n > 253402300799000)
            && (out.code == GroupNotFound ==> group !in db.groups)
            && (out.code == NotOwnerOrAdmin ==> group in db.groups && !MayActOn(db, group, operator, member))
            && (out.code == GroupMemberNotFound ==> (group, member) !in db.members)
  {
    IdsInGroup(db, group, operator);
    IdsInGroup(db, group, member);
    if (group, member) in db.members { assert db.members[(group, member) := db.members[(group, member)]] == db.members; }
  }

  /** An unmute needs the same authority and leaves the member unmuted at every moment. */
  lemma UnmuteEffect(db: Db, group: int, operator: int, member: int, requestedAt: nat, lockedAt: nat, now: int)
    requires GroupInv(db)
    ensures var out := RunGroup(db, GroupCommand.MuteMember(group, operator, member, None, requestedAt, lockedAt));
            && (out.code == OK <==> MayActOn(db, group, operator, member))
            && (out.code == OK ==>
                  && (group, member) in out.db.members
                  && out.db.members[(group, member)] == Member(db.members[(group, member)].role, None)
                  && out.db == db.(members := db.members[(group, member) := out.db.members[(group, member)]])
                  && out.events == (if db.members[(group, member)].mutedUntil == None then [] else [Members(group)])
                  && GroupTruth(out.db, group, member, now) == Sent)
            && out.code in {OK, InvalidParam, GroupNotFound, NotOwnerOrAdmin, GroupMemberNotFound}
            && (out.code == InvalidParam <==> group <= 0 || operator <= 0 || member <= 0)
            && (out.code == GroupNotFound ==> group !in db.groups)
            && (out.code == NotOwnerOrAdmin ==> group in db.groups && !MayActOn(db, group, operator, member))
            && (out.code == GroupMemberNotFound ==> (group, member) !in db.members)
  {
    IdsInGroup(db, group, operator);
    IdsInGroup(db, group, member);
    if (group, member) in db.members { assert db.members[(group, member) := db.members[(group, member)]] == db.members; }
  }

  /** TransferOwnership succeeds exactly when the owner names another member. That member is then the unmuted
      owner by group row and role, the old owner an ordinary member, and nothing else changes. */
  lemma TransferEffect(db: Db, group: int, operator: int, newOwner: int)
    requires GroupInv(db)
    ensures var out := RunGroup(db, TransferOwnership(group, operator, newOwner));
            && (out.code == OK <==>
                  group in db.groups && db.groups[group].owner == operator && newOwner != operator && (group, newOwner) in db.members)
            && (out.code == OK ==>
                  && out.db.groups == db.groups[group := Group(newOwner, db.groups[group].maxMembers)]
                  && out.db.members.Keys == db.members.Keys
                  && out.db.members[(group, newOwner)] == Member(2, None)
                  && out.db.members[(group, operator)] == Member(0, None)
                  && (forall k :: k in db.members && k != (group, operator) && k != (group, newOwner) ==> out.db.members[k] == db.members[k])
                  && out.db == db.(groups := out.db.groups, members := out.db.members)
                  && out.events == [Members(group)])
            && out.code in {OK, InvalidParam, GroupNotFound, NotOwnerOrAdmin, GroupMemberNotFound}
            && (out.code == InvalidParam <==> group <= 0 || operator <= 0 || newOwner <= 0 || operator == newOwner)
            && (out.code == GroupNotFound ==> group !in db.groups)
            && (out.code == NotOwnerOrAdmin ==> group in db.groups && db.groups[group].owner != operator)
            && (out.code == GroupMemberNotFound ==> (group, newOwner) !in db.members)
  {
    IdsInGroup(db, group, operator);
    IdsInGroup(db, group, newOwner);
    if group in db.groups { assert GroupOk(db, group); }
  }

  /** Leave succeeds exactly for a member who is not the owner, and removes that row alone. */
  lemma LeaveEffect(db: Db, group: int, user: int)
    requires GroupInv(db)
    ensures var out := RunGroup(db, GroupCommand.Leave(group, user));
            && (out.code == OK <==> group in db.groups && (group, user) in db.members && db.groups[group].owner != user)
            && (out.code == OK ==>
                  out.db == db.(members := db.members - {(group, user)}) && (group, user) !in out.db.members
                  && out.events == [Members(group)])
            && (out.code == CannotLeaveAsOwner ==> group in db.groups && db.groups[group].owner == user)
            && (out.code == GroupNotMember ==> (group, user) !in db.members)
            && out.code in {OK, InvalidParam, GroupNotFound, GroupNotMember, CannotLeaveAsOwner}
            && (out.code == InvalidParam <==> group <= 0 || user <= 0)
            && (out.code == GroupNotFound ==> group !in db.groups)
  {
    IdsInGroup(db, group, user);
  }

  /** Disband answers OK to the owner, and to anybody for an id without a live group. It leaves neither group
      row nor members, records who owned the group in a tombstone, and touches no other id; without a live group
      it changes and announces nothing. */
  lemma DisbandEffect(db: Db, group: int, operator: int)
    requires GroupInv(db)
    ensures var out := RunGroup(db, GroupCommand.Disband(group, operator));
            && (out.code == OK <==> group > 0 && operator > 0 && (group in db.groups ==> db.groups[group].owner == operator))
            && (out.code == OK && group !in db.groups ==> out.db == db && out.events == [])
            && (out.code == OK && group in db.groups ==>
                  && out.db.groups == db.groups - {group}
                  && (forall k :: k in out.db.members <==> k in db.members && k.0 != group)
                  && (forall k :: k in out.db.members ==> out.db.members[k] == db.members[k])
                  && out.db.tombstones == db.tombstones[group := operator]
                  && out.db == db.(groups := out.db.groups, members := out.db.members, tombstones := out.db.tombstones)
                  && out.events == [Members(group)])
  {
  }
}

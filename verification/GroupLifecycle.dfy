/** The group use cases as transactions on the tables. */
module GroupLifecycle {
  import opened Common
  import opened Tables

  datatype GroupCommand =
    | Create(owner: int)
    | AddMember(group: int, operator: int, member: int)
    | RemoveMember(group: int, operator: int, member: int)
    | UpdateRole(group: int, operator: int, member: int, role: int)
    | MuteMember(group: int, operator: int, member: int, deadline: Option<int>, requestedAt: nat, lockedAt: nat)
    | TransferOwnership(group: int, operator: int, newOwner: int)
    | Leave(group: int, user: int)
    | Disband(group: int, operator: int)

  // 9999-12-31T23:59:59Z, the last second whose year a DATETIME can hold.
  const LAST_DEADLINE := 253402300799000

  predicate CanManage(db: Db, group: int, operator: int) {
    && group in db.groups
    && (group, operator) in db.members
    && (db.groups[group].owner == operator || db.members[(group, operator)].role == ROLE_ADMIN)
  }

  /** Deadlines are cut to whole seconds before they are validated. */
  function NormalizeDeadline(deadline: int): int {
    deadline / 1000 * 1000
  }

  predicate DeadlineRefused(deadline: Option<int>, now: nat) {
    deadline.Some? && (NormalizeDeadline(deadline.value) > LAST_DEADLINE || NormalizeDeadline(deadline.value) <= now)
  }

  function DoCreate(db: Db, owner: int): Outcome {
    if owner <= 0 then Refuse(InvalidParam, db)
    else if owner !in db.users then Refuse(UserNotFound, db)
    else
      var id := db.nextGroup;
      Outcome(OK,
              db.(groups := db.groups[id := Group(owner, DEFAULT_MAX_MEMBERS)],
                  nextGroup := id + 1,
                  members := db.members[(id, owner) := Member(ROLE_OWNER, None)]),
              [Members(id)])
  }

  function DoAdd(db: Db, group: int, operator: int, member: int): Outcome {
    if group <= 0 || operator <= 0 || member <= 0 then Refuse(InvalidParam, db)
    else if group !in db.groups then Refuse(GroupNotFound, db)
    else if !CanManage(db, group, operator) then Refuse(NotOwnerOrAdmin, db)
    else if (group, member) in db.members then Refuse(AlreadyMember, db)
    else if operator !in db.users || member !in db.users then Refuse(UserNotFound, db)
    else if (operator, member) !in db.friendships && (member, operator) !in db.friendships then
      Refuse(MemberNotFriend, db)
    else if |Of(db.members.Keys, group)| >= db.groups[group].maxMembers then Refuse(GroupFull, db)
    else
      Outcome(OK, db.(members := db.members[(group, member) := Member(ROLE_MEMBER, None)]), [Members(group)])
  }

  function DoRemove(db: Db, group: int, operator: int, member: int): Outcome {
    if group <= 0 || operator <= 0 || member <= 0 then Refuse(InvalidParam, db)
    else if group !in db.groups then Refuse(GroupNotFound, db)
    else if !CanManage(db, group, operator) then Refuse(NotOwnerOrAdmin, db)
    else if (group, member) !in db.members then Refuse(GroupMemberNotFound, db)
    else if member == db.groups[group].owner then Refuse(CannotRemoveOwner, db)
    else if db.groups[group].owner != operator && db.members[(group, member)].role != ROLE_MEMBER then
      Refuse(CannotRemovePeer, db)
    else Outcome(OK, db.(members := db.members - {(group, member)}), [Members(group)])
  }

  function DoRole(db: Db, group: int, operator: int, member: int, role: int): Outcome {
    if group <= 0 || operator <= 0 || member <= 0 then Refuse(InvalidParam, db)
    else if role != ROLE_MEMBER && role != ROLE_ADMIN then Refuse(InvalidRole, db)
    else if group !in db.groups then Refuse(GroupNotFound, db)
    else if (group, operator) !in db.members || db.groups[group].owner != operator then Refuse(NotOwnerOrAdmin, db)
    else if (group, member) !in db.members then Refuse(GroupMemberNotFound, db)
    else if member == db.groups[group].owner then Refuse(NotOwnerOrAdmin, db)
    else
      var row := db.members[(group, member)];
      if row.role == role then Outcome(OK, db, [])
      else Outcome(OK, db.(members := db.members[(group, member) := row.(role := role)]), [Members(group)])
  }

  function DoMute(db: Db, group: int, operator: int, member: int, deadline: Option<int>, requestedAt: nat, lockedAt: nat)
    : Outcome
  {
    if group <= 0 || operator <= 0 || member <= 0 then Refuse(InvalidParam, db)
    else if DeadlineRefused(deadline, requestedAt) then Refuse(InvalidParam, db)
    else if group !in db.groups then Refuse(GroupNotFound, db)
    else if !CanManage(db, group, operator) then Refuse(NotOwnerOrAdmin, db)
    else if (group, member) !in db.members then Refuse(GroupMemberNotFound, db)
    else
      var row := db.members[(group, member)];
      var normalized := if deadline.None? then None else Some(NormalizeDeadline(deadline.value));
      if member == db.groups[group].owner || (db.groups[group].owner != operator && row.role != ROLE_MEMBER) then
        Refuse(NotOwnerOrAdmin, db)
      else if normalized.Some? && normalized.value <= lockedAt then Refuse(InvalidParam, db)
      else if row.mutedUntil == normalized then Outcome(OK, db, [])
      else Outcome(OK, db.(members := db.members[(group, member) := row.(mutedUntil := normalized)]), [Members(group)])
  }

  function DoTransfer(db: Db, group: int, operator: int, newOwner: int): Outcome {
    if group <= 0 || operator <= 0 || newOwner <= 0 then Refuse(InvalidParam, db)
    else if operator == newOwner then Refuse(InvalidParam, db)
    else if group !in db.groups then Refuse(GroupNotFound, db)
    else if (group, operator) !in db.members || db.groups[group].owner != operator then Refuse(NotOwnerOrAdmin, db)
    else if (group, newOwner) !in db.members then Refuse(GroupMemberNotFound, db)
    else
      Outcome(OK,
              db.(members := db.members[(group, operator) := db.members[(group, operator)].(role := ROLE_MEMBER)]
                                       [(group, newOwner) := Member(ROLE_OWNER, None)],
                  groups := db.groups[group := db.groups[group].(owner := newOwner)]),
              [Members(group)])
  }

  function DoLeave(db: Db, group: int, user: int): Outcome {
    if group <= 0 || user <= 0 then Refuse(InvalidParam, db)
    else if group !in db.groups then Refuse(GroupNotFound, db)
    else if (group, user) !in db.members then Refuse(GroupNotMember, db)
    else if db.groups[group].owner == user then Refuse(CannotLeaveAsOwner, db)
    else Outcome(OK, db.(members := db.members - {(group, user)}), [Members(group)])
  }

  function DoDisband(db: Db, group: int, operator: int): Outcome {
    if group <= 0 || operator <= 0 then Refuse(InvalidParam, db)
    else if group !in db.groups then Outcome(OK, db, [])
    else if db.groups[group].owner != operator then Refuse(NotOwnerOrAdmin, db)
    else
      Outcome(OK,
              db.(tombstones := db.tombstones[group := db.groups[group].owner],
                  members := Drop(db.members, group),
                  groups := db.groups - {group}),
              [Members(group)])
  }

  function RunGroup(db: Db, command: GroupCommand): Outcome {
    match command
    case Create(owner) => DoCreate(db, owner)
    case AddMember(group, operator, member) => DoAdd(db, group, operator, member)
    case RemoveMember(group, operator, member) => DoRemove(db, group, operator, member)
    case UpdateRole(group, operator, member, role) => DoRole(db, group, operator, member, role)
    case MuteMember(group, operator, member, deadline, requestedAt, lockedAt) =>
      DoMute(db, group, operator, member, deadline, requestedAt, lockedAt)
    case TransferOwnership(group, operator, newOwner) => DoTransfer(db, group, operator, newOwner)
    case Leave(group, user) => DoLeave(db, group, user)
    case Disband(group, operator) => DoDisband(db, group, operator)
  }

  /** The one group whose rows a command may touch. */
  function TargetGroup(db: Db, command: GroupCommand): int {
    match command
    case Create(_) => db.nextGroup
    case AddMember(group, _, _) => group
    case RemoveMember(group, _, _) => group
    case UpdateRole(group, _, _, _) => group
    case MuteMember(group, _, _, _, _, _) => group
    case TransferOwnership(group, _, _) => group
    case Leave(group, _) => group
    case Disband(group, _) => group
  }

  /** Same rows and same group and tombstone keys outside one group. */
  ghost predicate OnlyTouches(db: Db, after: Db, group: int) {
    SameGroupsBut(db, after, group) && SameMembersBut(db, after, group)
  }

  ghost predicate SameGroupsBut(db: Db, after: Db, group: int) {
    && (forall g :: g != group ==> (g in after.groups <==> g in db.groups))
    && (forall g :: g != group && g in db.groups && g in after.groups ==> after.groups[g] == db.groups[g])
    && (forall g :: g != group ==> (g in after.tombstones <==> g in db.tombstones))
  }

  ghost predicate SameMembersBut(db: Db, after: Db, group: int) {
    && (forall k: (int, int) :: k.0 != group ==> (k in after.members <==> k in db.members))
    && (forall k: (int, int) :: k.0 != group && k in db.members && k in after.members ==> after.members[k] == db.members[k])
  }

  /** A group command leaves the friend tables and every other group alone, announces at most its own
      group, and announces nothing only when it changed nothing. */
  lemma GroupCommandScope(db: Db, command: GroupCommand)
    ensures var out := RunGroup(db, command);
            && out.db.users == db.users
            && out.db.requests == db.requests && out.db.nextRequest == db.nextRequest
            && out.db.friendships == db.friendships && out.db.blacklist == db.blacklist
            && db.nextGroup <= out.db.nextGroup
            && OnlyTouches(db, out.db, TargetGroup(db, command))
            && (out.events == [] ==> out.db == db)
            && (out.events != [] ==> out.code == OK && out.events == [Members(TargetGroup(db, command))])
  {
    GroupCommandTouches(db, command);
  }

  lemma GroupCommandTouches(db: Db, command: GroupCommand)
    ensures OnlyTouches(db, RunGroup(db, command).db, TargetGroup(db, command))
  {
    GroupCommandSparesGroups(db, command);
    GroupCommandSparesMembers(db, command);
  }

  lemma GroupCommandSparesGroups(db: Db, command: GroupCommand)
    ensures SameGroupsBut(db, RunGroup(db, command).db, TargetGroup(db, command))
  {
  }

  lemma GroupCommandSparesMembers(db: Db, command: GroupCommand)
    ensures SameMembersBut(db, RunGroup(db, command).db, TargetGroup(db, command))
  {
  }

  // ---- the group invariant ----

  /** One live group: its owner is its only role-2 member and is not muted, and it is neither empty nor over capacity. */
  ghost predicate GroupOk(db: Db, group: int)
    requires group in db.groups
  {
    var row := db.groups[group];
    && 0 < group < db.nextGroup
    && group !in db.tombstones
    && (group, row.owner) in db.members
    && db.members[(group, row.owner)].mutedUntil == None
    && 1 <= |Of(db.members.Keys, group)| <= row.maxMembers
  }

  ghost predicate MemberOk(db: Db, group: int, user: int)
    requires (group, user) in db.members
  {
    var row := db.members[(group, user)];
    && group in db.groups && user > 0
    && row.role in {ROLE_MEMBER, ROLE_ADMIN, ROLE_OWNER}
    && (row.role == ROLE_OWNER <==> user == db.groups[group].owner)
    && (row.mutedUntil.Some? ==> row.mutedUntil.value > 0)
  }

  ghost predicate GroupInv(db: Db) {
    && db.nextGroup > 0
    && (forall g :: g in db.groups ==> GroupOk(db, g))
    && (forall g, u :: (g, u) in db.members ==> MemberOk(db, g, u))
    && (forall g :: g in db.tombstones ==> 0 < g < db.nextGroup && g !in db.groups)
  }

  /** A tombstoned id has neither a group row nor member rows. */
  lemma TombstoneIsFinal(db: Db, group: int)
    requires GroupInv(db) && group in db.tombstones
    ensures group !in db.groups
    ensures forall u :: (group, u) !in db.members
    ensures RosterOf(db, group) == map[]
  {
    assert forall u :: (group, u) in db.members ==> MemberOk(db, group, u);
  }

  /** Everything the invariant says about one id. */
  ghost predicate IdOk(db: Db, group: int) {
    && (group in db.groups ==> GroupOk(db, group))
    && (forall u :: (group, u) in db.members ==> MemberOk(db, group, u))
    && (group in db.tombstones ==> 0 < group < db.nextGroup && group !in db.groups)
  }

  lemma InvGivesId(db: Db, group: int)
    requires GroupInv(db)
    ensures IdOk(db, group)
  {
  }

  /** A change confined to the rows of one id keeps the invariant if that id is well formed afterwards. */
  lemma OneGroupChanged(db: Db, after: Db, group: int)
    requires GroupInv(db)
    requires after.nextGroup >= db.nextGroup
    requires OnlyTouches(db, after, group)
    requires IdOk(after, group)
    ensures GroupInv(after)
  {
    forall g | g in after.groups
      ensures GroupOk(after, g)
    {
      if g != group {
        assert GroupOk(db, g);
        assert Of(after.members.Keys, g) == Of(db.members.Keys, g);
      }
    }
    forall g, u | (g, u) in after.members
      ensures MemberOk(after, g, u)
    {
      if g != group { assert MemberOk(db, g, u); }
    }
  }

  lemma CreateKeeps(db: Db, owner: int)
    requires GroupInv(db)
    ensures IdOk(DoCreate(db, owner).db, db.nextGroup)
  {
    var out := DoCreate(db, owner);
    var id := db.nextGroup;
    InvGivesId(db, id);
    assert id !in db.groups;
    if out.code == OK {
      assert forall u :: u in Of(out.db.members.Keys, id) <==> u == owner;
      assert Of(out.db.members.Keys, id) == {owner};
    }
  }

  lemma AddKeeps(db: Db, group: int, operator: int, member: int)
    requires IdOk(db, group)
    ensures IdOk(DoAdd(db, group, operator, member).db, group)
  {
    var out := DoAdd(db, group, operator, member);
    if out.code == OK {
      assert Of(out.db.members.Keys, group) == Of(db.members.Keys, group) + {member};
    }
  }

  /** Remove and leave: one non-owner row of the group goes away. */
  lemma RemovalKeeps(db: Db, after: Db, group: int, member: int)
    requires IdOk(db, group) && group in db.groups && (group, member) in db.members
    requires member != db.groups[group].owner
    requires after == db.(members := db.members - {(group, member)})
    ensures IdOk(after, group)
  {
    var kept := Of(after.members.Keys, group);
    assert Of(db.members.Keys, group) == kept + {member};
    assert db.groups[group].owner in kept;
  }

  /** Role and mute updates: one non-owner row of the group is rewritten. */
  lemma RewriteKeeps(db: Db, after: Db, group: int, member: int, row: Member)
    requires IdOk(db, group) && group in db.groups && (group, member) in db.members
    requires member != db.groups[group].owner
    requires row.role in {ROLE_MEMBER, ROLE_ADMIN} && (row.mutedUntil.Some? ==> row.mutedUntil.value > 0)
    requires after == db.(members := db.members[(group, member) := row])
    ensures IdOk(after, group)
  {
    assert Of(after.members.Keys, group) == Of(db.members.Keys, group);
  }

  lemma TransferKeeps(db: Db, group: int, operator: int, newOwner: int)
    requires IdOk(db, group)
    ensures IdOk(DoTransfer(db, group, operator, newOwner).db, group)
  {
    var out := DoTransfer(db, group, operator, newOwner);
    if out.code == OK {
      assert Of(out.db.members.Keys, group) == Of(db.members.Keys, group);
    }
  }

  lemma DisbandKeeps(db: Db, group: int, operator: int)
    requires IdOk(db, group)
    ensures IdOk(DoDisband(db, group, operator).db, group)
  {
  }

  lemma TargetKeeps(db: Db, command: GroupCommand)
    requires GroupInv(db)
    ensures IdOk(RunGroup(db, command).db, TargetGroup(db, command))
  {
    var out := RunGroup(db, command);
    InvGivesId(db, TargetGroup(db, command));
    match command
    case Create(owner) => CreateKeeps(db, owner);
    case AddMember(group, operator, member) => AddKeeps(db, group, operator, member);
    case RemoveMember(group, operator, member) =>
      if out.code == OK { RemovalKeeps(db, out.db, group, member); }
    case UpdateRole(group, operator, member, role) =>
      if out.code == OK && out.events != [] {
        assert MemberOk(db, group, member);
        RewriteKeeps(db, out.db, group, member, db.members[(group, member)].(role := role));
      }
    case MuteMember(group, operator, member, deadline, requestedAt, lockedAt) =>
      if out.code == OK && out.events != [] {
        assert MemberOk(db, group, member);
        RewriteKeeps(db, out.db, group, member, out.db.members[(group, member)]);
      }
    case TransferOwnership(group, operator, newOwner) => TransferKeeps(db, group, operator, newOwner);
    case Leave(group, user) =>
      if out.code == OK { RemovalKeeps(db, out.db, group, user); }
    case Disband(group, operator) => DisbandKeeps(db, group, operator);
  }

  /** Every group use case, whatever it answers, keeps the group invariant. */
  lemma GroupStepKeeps(db: Db, command: GroupCommand)
    requires GroupInv(db)
    ensures GroupInv(RunGroup(db, command).db)
  {
    GroupCommandScope(db, command);
    TargetKeeps(db, command);
    OneGroupChanged(db, RunGroup(db, command).db, TargetGroup(db, command));
  }

  // ---- authority ----

  /** The user on whose behalf a command runs. */
  function Actor(command: GroupCommand): int {
    match command
    case Create(owner) => owner
    case AddMember(_, operator, _) => operator
    case RemoveMember(_, operator, _) => operator
    case UpdateRole(_, operator, _, _) => operator
    case MuteMember(_, operator, _, _, _, _) => operator
    case TransferOwnership(_, operator, _) => operator
    case Leave(_, user) => user
    case Disband(_, operator) => operator
  }

  predicate Outranks(db: Db, group: int, actor: int, user: int) {
    && (group, actor) in db.members && (group, user) in db.members
    && db.members[(group, actor)].role > db.members[(group, user)].role
  }

  predicate RowChanged(db: Db, after: Db, group: int, user: int) {
    if (group, user) in db.members && (group, user) in after.members then after.members[(group, user)] != db.members[(group, user)]
    else (group, user) in db.members || (group, user) in after.members
  }

  /** A member row only ever changes by its own user's act or that of someone of strictly higher rank, and it
      only appears for a new group's creator or for a friend of an owner or administrator. */
  lemma RowChangesNeedAuthority(db: Db, command: GroupCommand, group: int, user: int)
    requires GroupInv(db)
    requires RowChanged(db, RunGroup(db, command).db, group, user)
    ensures var actor := Actor(command);
            if (group, user) in db.members then actor == user || Outranks(db, group, actor, user)
            else if command.Create? then actor == user && group == db.nextGroup
            else
              && command.AddMember? && group in db.groups && (group, actor) in db.members
              && (db.groups[group].owner == actor || db.members[(group, actor)].role == 1)
              && ((actor, user) in db.friendships || (user, actor) in db.friendships)
  {
    GroupCommandTouches(db, command);
    var actor := Actor(command);
    if (group, user) in db.members { assert MemberOk(db, group, user); }
    if (group, actor) in db.members { assert MemberOk(db, group, actor); }
    if group in db.groups { assert GroupOk(db, group); }
  }

  // ---- retries ----

  /** The same command sent again, its clock readings moved on. */
  function Retry(command: GroupCommand, requestedAt: nat, lockedAt: nat): GroupCommand {
    if command.MuteMember? then command.(requestedAt := requestedAt, lockedAt := lockedAt) else command
  }

  /** Role, mute and disband requests name a final state: after one that succeeded, the same request changes
      and announces nothing, and it succeeds again unless its mute deadline has passed by then. */
  lemma DesiredStateRetries(db: Db, command: GroupCommand, requestedAt: nat, lockedAt: nat)
    requires GroupInv(db)
    requires command.UpdateRole? || command.MuteMember? || command.Disband?
    requires RunGroup(db, command).code == OK
    ensures var after := RunGroup(db, command).db;
            var again := RunGroup(after, Retry(command, requestedAt, lockedAt));
            && again.db == after && again.events == []
            && (again.code == OK <==>
                  (command.MuteMember? && command.deadline.Some? ==>
                     NormalizeDeadline(command.deadline.value) > requestedAt && NormalizeDeadline(command.deadline.value) > lockedAt))
  {
    if !command.Disband? { assert MemberOk(db, command.group, command.operator); }
  }
}

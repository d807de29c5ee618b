/** The rows each transaction locks, and why a held owner row freezes a projection. */
module Locks {
  import opened Common
  import opened Tables
  import opened FriendPairs
  import opened GroupLifecycle
  import opened Business

  /** A lockable thing. The member rows of one group, and the request rows of one pair, count as one. */
  datatype Row =
    | WarmLock(resource: Resource)
    | GroupRow(group: int)
    | TombRow(group: int)
    | MemberRows(group: int)
    | UserRow(user: int)
    | RequestRows(low: int, high: int)

  /** Both user rows in ascending order. */
  function InIdOrder(a: int, b: int): seq<Row> {
    if a < b then [UserRow(a), UserRow(b)] else if b < a then [UserRow(b), UserRow(a)] else [UserRow(a)]
  }

  function PairRequests(a: int, b: int): Row {
    RequestRows(if a < b then a else b, if a < b then b else a)
  }

  function PairPlan(a: int, b: int): seq<Row> {
    InIdOrder(a, b) + [PairRequests(a, b)]
  }

  /** The rows a command locks, in the order in which it asks for them. */
  function Plan(db: Db, command: Command): seq<Row> {
    match command
    case OnFriends(SendRequest(sender, target)) => PairPlan(sender, target)
    case OnFriends(AcceptRequest(_, id)) =>
      if id in db.requests then PairPlan(db.requests[id].sender, db.requests[id].target) else []
    case OnFriends(RejectRequest(_, id)) =>
      if id in db.requests then PairPlan(db.requests[id].sender, db.requests[id].target) else []
    case OnFriends(DeleteFriend(user, friend)) => PairPlan(user, friend)
    case OnFriends(Block(user, blocked)) => PairPlan(user, blocked)
    case OnFriends(Unblock(user, blocked)) => InIdOrder(user, blocked)
    case OnGroups(Create(owner)) => [UserRow(owner), GroupRow(db.nextGroup), MemberRows(db.nextGroup)]
    case OnGroups(AddMember(group, operator, member)) =>
      [GroupRow(group), MemberRows(group)] + InIdOrder(operator, member)
    case OnGroups(Disband(group, _)) => [GroupRow(group), TombRow(group), MemberRows(group)]
    case OnGroups(c) => [GroupRow(TargetGroup(db, c)), MemberRows(TargetGroup(db, c))]
    case Register(user) => [UserRow(user)]
  }

  /** The row that WithinCacheSnapshot holds while it reads and replaces a projection. */
  function OwnerRow(db: Db, resource: Resource): Option<Row> {
    match resource
    case Friends(o) => if o in db.users then Some(UserRow(o)) else None
    case Blacklist(o) => if o in db.users then Some(UserRow(o)) else None
    case Members(g) =>
      if g in db.groups then Some(GroupRow(g))
      else if g in db.tombstones then Some(TombRow(g))
      else None
  }

  /** A row that guards a resource: the owner's user row, a live group's row, or a tombstone. */
  ghost predicate Guards(db: Db, resource: Resource, row: Row) {
    match resource
    case Friends(o) => row == UserRow(o)
    case Blacklist(o) => row == UserRow(o)
    case Members(g) => (row == GroupRow(g) && g in db.groups) || (row == TombRow(g) && g in db.tombstones)
  }

  predicate GroupLives(db: Db, resource: Resource) {
    resource.Members? && resource.group in db.groups
  }

  lemma FriendGuard(db: Db, command: FriendCommand, owner: int, resource: Resource)
    requires FriendInv(db)
    requires UserRow(owner) !in Plan(db, OnFriends(command))
    requires resource == Friends(owner) || resource == Blacklist(owner)
    ensures Project(RunFriend(db, command).db, resource) == Project(db, resource)
  {
    FriendAnnounces(db, command, resource);
  }

  /** While a guarding row is held, no other transaction can change the projection it guards, whether
      its group lives, or which row guards it. */
  lemma HeldRowFreezes(db: Db, command: Command, resource: Resource, row: Row)
    requires DbInv(db)
    requires Guards(db, resource, row)
    requires row !in Plan(db, command)
    ensures var after := Apply(db, command).db;
            && Project(after, resource) == Project(db, resource)
            && GroupLives(after, resource) == GroupLives(db, resource)
            && Guards(after, resource, row)
  {
    match command
    case OnFriends(c) =>
      FriendCommandScope(db, c);
      if !resource.Members? { FriendGuard(db, c, resource.owner, resource); }
    case OnGroups(c) => GroupGuard(db, c, resource, row);
    case Register(user) =>
  }

  lemma GroupGuard(db: Db, command: GroupCommand, resource: Resource, row: Row)
    requires GroupInv(db)
    requires Guards(db, resource, row)
    requires row !in Plan(db, OnGroups(command))
    ensures var after := RunGroup(db, command).db;
            && Project(after, resource) == Project(db, resource)
            && GroupLives(after, resource) == GroupLives(db, resource)
            && Guards(after, resource, row)
  {
    GroupCommandScope(db, command);
    var target := TargetGroup(db, command);
    if resource.Members? {
      var g := resource.group;
      if g == target {
        // The command would need the live group's row, so the held row is a tombstone.
        assert GroupRow(g) in Plan(db, OnGroups(command));
        assert g in db.tombstones && g !in db.groups;
        TombstoneRefuses(db, command, g);
      } else {
        SameRoster(db, RunGroup(db, command).db, g);
      }
    }
  }

  /** No command changes anything under a tombstoned id. */
  lemma TombstoneRefuses(db: Db, command: GroupCommand, group: int)
    requires GroupInv(db) && group in db.tombstones && TargetGroup(db, command) == group
    ensures RunGroup(db, command).db == db
  {
    assert group !in db.groups && group < db.nextGroup;
  }

  /** Tombstones are never removed, and no later run revives a tombstoned group. */
  lemma {:induction false} TombstonesStay(db: Db, commands: seq<Command>, group: int)
    requires DbInv(db) && group in db.tombstones
    ensures var after := After(db, commands);
            group in after.tombstones && group !in after.groups && RosterOf(after, group) == map[]
    decreases |commands|
  {
    if commands == [] {
      TombstoneIsFinal(db, group);
    } else {
      CommandKeeps(db, commands[0]);
      TombstoneStep(db, commands[0], group);
      TombstonesStay(Apply(db, commands[0]).db, commands[1..], group);
    }
  }

  lemma TombstoneStep(db: Db, command: Command, group: int)
    requires group in db.tombstones
    ensures group in Apply(db, command).db.tombstones
  {
    match command
    case OnFriends(c) => FriendCommandScope(db, c);
    case OnGroups(c) =>
    case Register(user) =>
  }
}

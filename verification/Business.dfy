/** Every committed transaction, the rows it locks, and what it owes the outbox. */
module Business {
  import opened Common
  import opened Tables
  import opened FriendPairs
  import opened GroupLifecycle

  datatype Command = OnFriends(friend: FriendCommand) | OnGroups(group: GroupCommand) | Register(user: int)

  function Apply(db: Db, command: Command): Outcome {
    match command
    case OnFriends(c) => RunFriend(db, c)
    case OnGroups(c) => RunGroup(db, c)
    case Register(user) =>
      if user <= 0 || user in db.users then Refuse(InvalidParam, db)
      else Outcome(OK, db.(users := db.users + {user}), [])
  }

  /** The tables after a sequence of transactions. */
  function After(db: Db, commands: seq<Command>): Db
    decreases |commands|
  {
    if commands == [] then db else After(Apply(db, commands[0]).db, commands[1..])
  }

  ghost predicate DbInv(db: Db) {
    FriendInv(db) && GroupInv(db)
  }

  const EMPTY := Db({}, map[], 1, {}, {}, map[], 1, map[], map[])

  lemma EmptyTables()
    ensures DbInv(EMPTY)
  {
  }

  /** FriendInv reads only the friend tables, and more users never hurt it. */
  lemma FriendFrame(db: Db, after: Db)
    requires FriendInv(db)
    requires db.users <= after.users && forall u :: u in after.users ==> u > 0
    requires after.requests == db.requests && after.nextRequest == db.nextRequest
    requires after.friendships == db.friendships && after.blacklist == db.blacklist
    ensures FriendInv(after)
  {
    assert forall a, b :: Backed(after, a, b) == Backed(db, a, b);
  }

  lemma GroupFrame(db: Db, after: Db)
    requires GroupInv(db)
    requires after.groups == db.groups && after.nextGroup == db.nextGroup
    requires after.members == db.members && after.tombstones == db.tombstones
    ensures GroupInv(after)
  {
    assert forall g :: g in db.groups ==> GroupOk(db, g);
    assert forall g, u :: (g, u) in db.members ==> MemberOk(db, g, u);
  }

  lemma FriendCommandScope(db: Db, command: FriendCommand)
    ensures var out := RunFriend(db, command);
            && out.db.users == db.users
            && out.db.groups == db.groups && out.db.nextGroup == db.nextGroup
            && out.db.members == db.members && out.db.tombstones == db.tombstones
            && db.nextRequest <= out.db.nextRequest
            && (out.code != OK ==> out.db == db && out.events == [])
  {
  }

  lemma CommandKeeps(db: Db, command: Command)
    requires DbInv(db)
    ensures DbInv(Apply(db, command).db)
  {
    match command
    case OnFriends(c) =>
      FriendStepKeeps(db, c);
      FriendCommandScope(db, c);
      GroupFrame(db, RunFriend(db, c).db);
    case OnGroups(c) =>
      GroupStepKeeps(db, c);
      GroupCommandScope(db, c);
      FriendFrame(db, RunGroup(db, c).db);
    case Register(user) =>
      FriendFrame(db, Apply(db, command).db);
      GroupFrame(db, Apply(db, command).db);
  }

  /** Both lifecycles' invariants hold after every sequence of transactions. */
  lemma {:induction false} RunKeeps(db: Db, commands: seq<Command>)
    requires DbInv(db)
    ensures DbInv(After(db, commands))
    decreases |commands|
  {
    if commands != [] {
      CommandKeeps(db, commands[0]);
      RunKeeps(Apply(db, commands[0]).db, commands[1..]);
    }
  }

  /** The request rows of a pair that have one of the given states, by their fields. */
  predicate RequestOf(db: Db, id: int, a: int, b: int, states: set<Status>) {
    && id in db.requests
    && db.requests[id].status in states
    && ((db.requests[id].sender == a && db.requests[id].target == b) || (db.requests[id].sender == b && db.requests[id].target == a))
  }

  /** Starting from empty tables, after any transactions, for any two users: friendship goes both ways and
      holds exactly when an accepted request joins them; pending and accepted requests number at most one; a
      block in either direction excludes a pending one; and a pair that may ask has no row in the way. */
  lemma PairAfterAnyRun(commands: seq<Command>, a: int, b: int, i: int, j: int)
    ensures var db := After(EMPTY, commands);
            && ((a, b) in db.friendships <==> (b, a) in db.friendships)
            && ((a, b) in db.friendships <==> exists k :: RequestOf(db, k, a, b, {Accepted}))
            && (RequestOf(db, i, a, b, {Pending, Accepted}) && RequestOf(db, j, a, b, {Pending, Accepted}) ==> i == j)
            && ((a, b) in db.blacklist || (b, a) in db.blacklist ==> !RequestOf(db, i, a, b, {Pending}))
            && ((a, b) !in db.friendships && (forall k :: !RequestOf(db, k, a, b, {Pending})) ==>
                  && (RequestOf(db, i, a, b, {Pending, Accepted, Rejected}) ==> db.requests[i].status == Rejected)
                  && !HasDirection(DeleteTerminal(db.requests, a, b), a, b))
  {
    var db := After(EMPTY, commands);
    assert forall k :: RequestOf(db, k, a, b, {Pending}) <==> k in db.requests && Joins(db.requests[k], a, b) && db.requests[k].status == Pending;
    assert forall k :: RequestOf(db, k, a, b, {Accepted}) <==> k in db.requests && Joins(db.requests[k], a, b) && db.requests[k].status == Accepted;
    EmptyTables();
    RunKeeps(EMPTY, commands);
    FriendshipSymmetric(db, a, b);
    if !IsFriendPair(db, a, b) && !HasPending(db, a, b) { AskersHaveOnlyRejectedRows(db, a, b); }
  }

  /** Starting from empty tables, after any transactions, for any group id: the owner of a live group is a
      member, its only role-2 member, and not muted; its size is between 1 and its limit; and members exist
      only under live groups, never under a tombstone. */
  lemma GroupAfterAnyRun(commands: seq<Command>, group: int, user: int)
    ensures var db := After(EMPTY, commands);
            && (group in db.groups ==>
                  && ((group, user) in db.members && db.members[(group, user)].role == 2 <==> user == db.groups[group].owner)
                  && (user == db.groups[group].owner ==> db.members[(group, user)].mutedUntil == None)
                  && 1 <= |Of(db.members.Keys, group)| <= db.groups[group].maxMembers)
            && ((group, user) in db.members ==> group in db.groups && user > 0)
            && (group in db.tombstones ==> group !in db.groups && (group, user) !in db.members)
  {
    var db := After(EMPTY, commands);
    EmptyTables();
    RunKeeps(EMPTY, commands);
    InvGivesId(db, group);
    if (group, user) in db.members { assert MemberOk(db, group, user); }
  }

  /** Ids come from auto-increment columns, so every stored id is positive. */
  ghost predicate PositiveIds(db: Db) {
    && (forall u :: u in db.users ==> u > 0)
    && (forall a, b :: (a, b) in db.friendships ==> a > 0 && b > 0)
    && (forall a, b :: (a, b) in db.blacklist ==> a > 0 && b > 0)
    && (forall g, u :: (g, u) in db.members ==> u > 0)
    && (forall g :: g in db.groups || g in db.tombstones ==> g > 0)
  }

  lemma IdsArePositive(db: Db)
    requires DbInv(db)
    ensures PositiveIds(db)
  {
    forall a, b | (a, b) in db.friendships
      ensures a > 0 && b > 0
    {
      assert Backed(db, a, b);
    }
    assert forall g :: g in db.groups ==> GroupOk(db, g);
    assert forall g, u :: (g, u) in db.members ==> MemberOk(db, g, u);
  }

  // ---- request generations ----

  /** How far an id has come: unissued, pending, accepted, rejected, replaced. */
  function Phase(db: Db, id: int): (phase: nat) {
    if id >= db.nextRequest then 0
    else if id !in db.requests then 4
    else match db.requests[id].status case Pending => 1 case Accepted => 2 case Rejected => 3
  }

  /** What one step may do to one request row. */
  ghost predicate Advances(db: Db, after: Db, id: int) {
    && Phase(db, id) <= Phase(after, id)
    && db.nextRequest <= after.nextRequest
    && (id in db.requests && id in after.requests ==>
          && after.requests[id].sender == db.requests[id].sender
          && after.requests[id].target == db.requests[id].target)
  }

  lemma PhaseStepSend(db: Db, sender: int, target: int, id: int)
    requires RowsInv(db)
    ensures Advances(db, DoSend(db, sender, target).db, id)
  {
  }

  /** Every friend command but SendRequest keeps the rows and only moves statuses forward. */
  lemma PhaseStepStatus(db: Db, command: FriendCommand, id: int)
    requires !command.SendRequest?
    ensures Advances(db, RunFriend(db, command).db, id)
  {
  }

  lemma PhaseStep(db: Db, command: Command, id: int)
    requires DbInv(db)
    ensures Advances(db, Apply(db, command).db, id)
  {
    match command
    case OnFriends(c) =>
      if c.SendRequest? { PhaseStepSend(db, c.sender, c.target, id); } else { PhaseStepStatus(db, c, id); }
    case OnGroups(c) => GroupCommandScope(db, c);
    case Register(user) =>
  }

  /** One command and one request row: a pending one stays, is accepted or is rejected; an accepted one stays
      or is rejected; a rejected one stays or is replaced. Nothing else can happen to it. */
  ghost predicate Answers(db: Db, after: Db, id: int)
    requires id in db.requests
  {
    if id in after.requests then
      && after.requests[id].sender == db.requests[id].sender && after.requests[id].target == db.requests[id].target
      && match db.requests[id].status
         case Pending => true
         case Accepted => after.requests[id].status != Pending
         case Rejected => after.requests[id].status == Rejected
    else db.requests[id].status == Rejected
  }

  lemma OneAnswerAtATime(db: Db, command: Command, id: int)
    requires DbInv(db) && id in db.requests
    ensures Answers(db, Apply(db, command).db, id)
  {
    match command
    case OnFriends(c) => if c.SendRequest? { SendAnswers(db, c.sender, c.target, id); } else { OthersAnswer(db, c, id); }
    case OnGroups(c) => GroupCommandScope(db, c);
    case Register(user) =>
  }

  lemma SendAnswers(db: Db, sender: int, target: int, id: int)
    requires FriendInv(db) && id in db.requests
    ensures Answers(db, DoSend(db, sender, target).db, id)
  {
    if DoSend(db, sender, target).code == OK { AskersHaveOnlyRejectedRows(db, sender, target); }
  }

  lemma OthersAnswer(db: Db, command: FriendCommand, id: int)
    requires !command.SendRequest? && id in db.requests
    ensures Answers(db, RunFriend(db, command).db, id)
  {
  }

  /** A request only moves pending, accepted, rejected, replaced; it keeps its two users, and ids are not reused. */
  lemma {:induction false} PhaseOnlyAdvances(db: Db, commands: seq<Command>, id: int)
    requires DbInv(db)
    ensures Advances(db, After(db, commands), id)
    decreases |commands|
  {
    if commands != [] {
      var next := Apply(db, commands[0]).db;
      CommandKeeps(db, commands[0]);
      PhaseStep(db, commands[0], id);
      PhaseOnlyAdvances(next, commands[1..], id);
      RunKeeps(next, commands[1..]);
    }
  }

  /** AcceptRequest and RejectRequest read the request once before they lock its two users: whatever commits in
      between, either the row is gone or the rows locked are those of its users. */
  lemma PreviewStaysAccurate(db: Db, commands: seq<Command>, id: int)
    requires DbInv(db) && id in db.requests
    ensures var now := After(db, commands);
            id in now.requests ==>
              && now.requests[id].sender == db.requests[id].sender && now.requests[id].target == db.requests[id].target
              && (db.requests[id].status == Rejected ==> now.requests[id].status == Rejected)
  {
    PhaseOnlyAdvances(db, commands, id);
    RunKeeps(db, commands);
  }

  /** After friends part, only a request issued after the deletion can make them friends again:
      no delayed accept of an older one does. */
  lemma DeletionOutlivesOldRequests(db: Db, a: int, b: int, commands: seq<Command>)
    requires DbInv(db)
    requires (a, b) in db.friendships
    requires DoDelete(db, a, b).code == OK
    ensures var parted := DoDelete(db, a, b).db;
            var after := After(parted, commands);
            (a, b) in after.friendships ==>
              exists id :: id in after.requests && id >= parted.nextRequest
                           && Joins(after.requests[id], a, b) && after.requests[id].status == Accepted
  {
    var parted := DoDelete(db, a, b).db;
    var after := After(parted, commands);
    DeleteKeeps(db, a, b);
    FriendCommandScope(db, DeleteFriend(a, b));
    GroupFrame(db, parted);
    RunKeeps(parted, commands);
    PartedRowsAreRejected(db, a, b);
    if (a, b) in after.friendships {
      assert Backed(after, a, b);
      var id :| id in after.requests && Joins(after.requests[id], a, b) && after.requests[id].status == Accepted;
      PhaseOnlyAdvances(parted, commands, id);
    }
  }

  /** Friends had no pending row, and deletion rejects their accepted one. */
  lemma PartedRowsAreRejected(db: Db, a: int, b: int)
    requires FriendInv(db)
    requires (a, b) in db.friendships && DoDelete(db, a, b).code == OK
    ensures var parted := DoDelete(db, a, b).db;
            forall id :: id in parted.requests && Joins(parted.requests[id], a, b) ==> parted.requests[id].status == Rejected
  {
    assert Backed(db, a, b);
  }

  // ---- the outbox ----

  /** A retry that commits and enqueues although the tables already say what it asks for: accepting an
      accepted request again, deleting a friend who is none, unblocking somebody who is not blocked. */
  predicate QuietRetry(db: Db, command: Command) {
    match command
    case OnFriends(AcceptRequest(user, id)) =>
      && user > 0 && id > 0 && id in db.requests
      && db.requests[id].status == Accepted && db.requests[id].target == user
      && BothUsers(db, db.requests[id].sender, user)
    case OnFriends(DeleteFriend(user, friend)) => PairCheck(db, user, friend) == OK && !IsFriendPair(db, user, friend)
    case OnFriends(Unblock(user, blocked)) => PairCheck(db, user, blocked) == OK && (user, blocked) !in db.blacklist
    case _ => false
  }

  ghost predicate Changes(db: Db, command: Command, resource: Resource) {
    Project(Apply(db, command).db, resource) != Project(db, resource)
  }

  lemma RefusalChangesNothing(db: Db, command: Command)
    ensures var out := Apply(db, command); out.code != OK ==> out.db == db && out.events == []
  {
  }

  lemma SameMembers(a: set<(int, int)>, b: set<(int, int)>, owner: int)
    requires forall x :: (owner, x) in a <==> (owner, x) in b
    ensures Of(a, owner) == Of(b, owner)
  {
    assert forall x :: x in Of(a, owner) <==> x in Of(b, owner);
  }

  /** The friend half: a changed friend or block list is always announced. */
  lemma FriendAnnounces(db: Db, command: FriendCommand, resource: Resource)
    ensures var out := RunFriend(db, command);
            resource !in out.events ==> Project(out.db, resource) == Project(db, resource)
  {
    var out := RunFriend(db, command);
    if resource !in out.events {
      match resource
      case Friends(owner) => SameMembers(out.db.friendships, db.friendships, owner);
      case Blacklist(owner) => SameMembers(out.db.blacklist, db.blacklist, owner);
      case Members(group) =>
    }
  }

  lemma SameRoster(db: Db, after: Db, group: int)
    requires forall u :: (group, u) in after.members <==> (group, u) in db.members
    requires forall u :: (group, u) in db.members && (group, u) in after.members ==>
               after.members[(group, u)] == db.members[(group, u)]
    ensures RosterOf(after, group) == RosterOf(db, group)
  {
    var x, y := RosterOf(after, group), RosterOf(db, group);
    forall u
      ensures u in x <==> u in y
      ensures u in x && u in y ==> x[u] == y[u]
    {
      assert (group, u) in after.members <==> (group, u) in db.members;
    }
  }

  /** The group half: a changed roster is always announced. */
  lemma GroupAnnounces(db: Db, command: GroupCommand, resource: Resource)
    ensures var out := RunGroup(db, command);
            resource !in out.events ==> Project(out.db, resource) == Project(db, resource)
  {
    var out := RunGroup(db, command);
    GroupCommandScope(db, command);
    if resource !in out.events && resource.Members? && out.events != [] {
      SameRoster(db, out.db, resource.group);
    }
  }

  /** Outbox completeness: a commit enqueues an event for every owner whose projection it changes,
      and names no owner twice. */
  lemma OutboxComplete(db: Db, command: Command, resource: Resource)
    requires DbInv(db)
    ensures Changes(db, command, resource) ==> resource in Apply(db, command).events
    ensures forall i, j :: 0 <= i < j < |Apply(db, command).events| ==>
              Apply(db, command).events[i] != Apply(db, command).events[j]
  {
    EventsAreDistinct(db, command);
    match command
    case OnFriends(c) => FriendAnnounces(db, c, resource);
    case OnGroups(c) => GroupAnnounces(db, c, resource);
    case Register(user) =>
  }

  lemma EventsAreDistinct(db: Db, command: Command)
    requires DbInv(db)
    ensures forall i, j :: 0 <= i < j < |Apply(db, command).events| ==>
              Apply(db, command).events[i] != Apply(db, command).events[j]
  {
    if command.OnGroups? { GroupCommandScope(db, command.group); }
  }

  /** A roster that maps one user differently is a different roster. */
  lemma RosterWitness(db: Db, after: Db, group: int, user: int)
    requires (group, user) in db.members && (group, user) in after.members ==>
               Encode(db.members[(group, user)]) != Encode(after.members[(group, user)])
    requires (group, user) in db.members || (group, user) in after.members
    ensures RosterOf(after, group) != RosterOf(db, group)
  {
    var x, y := RosterOf(after, group), RosterOf(db, group);
    assert user in x <==> (group, user) in after.members;
    assert user in y <==> (group, user) in db.members;
  }

  /** A group event is never idle: the roster it names has changed. */
  lemma GroupEventMeansChange(db: Db, command: GroupCommand)
    requires GroupInv(db)
    requires RunGroup(db, command).events != []
    ensures var after, g := RunGroup(db, command).db, TargetGroup(db, command);
            RosterOf(after, g) != RosterOf(db, g)
  {
    var after, g := RunGroup(db, command).db, TargetGroup(db, command);
    match command
    case Create(owner) =>
      assert g !in db.groups;
      assert (g, owner) in db.members ==> MemberOk(db, g, owner);
      RosterWitness(db, after, g, owner);
    case AddMember(_, _, member) => RosterWitness(db, after, g, member);
    case RemoveMember(_, _, member) => RosterWitness(db, after, g, member);
    case UpdateRole(_, _, member, _) => RosterWitness(db, after, g, member);
    case MuteMember(_, _, member, _, _, _) =>
      assert MemberOk(db, g, member);
      RosterWitness(db, after, g, member);
    case TransferOwnership(_, operator, newOwner) =>
      assert MemberOk(db, g, operator);
      RosterWitness(db, after, g, operator);
    case Leave(_, user) => RosterWitness(db, after, g, user);
    case Disband(_, operator) =>
      assert GroupOk(db, g);
      RosterWitness(db, after, g, operator);
  }

  lemma FriendEventMeansChange(db: Db, command: FriendCommand, resource: Resource)
    requires FriendInv(db)
    requires resource in RunFriend(db, command).events
    requires !QuietRetry(db, OnFriends(command))
    ensures Changes(db, OnFriends(command), resource)
  {
    var after := RunFriend(db, command).db;
    match command
    case AcceptRequest(user, id) =>
      var r := db.requests[id];
      AskedPairIsNotFriends(db, id);
      assert r.target in Of(after.friendships, r.sender) && r.sender in Of(after.friendships, r.target);
    case DeleteFriend(user, friend) =>
      FriendshipSymmetric(db, user, friend);
      assert friend in Of(db.friendships, user) && user in Of(db.friendships, friend);
    case Block(user, blocked) => assert blocked in Of(after.blacklist, user);
    case Unblock(user, blocked) => assert blocked in Of(db.blacklist, user);
    case SendRequest(_, _) => assert false;
    case RejectRequest(_, _) => assert false;
  }

  /** A pending request excludes friendship of its two users, in both directions. */
  lemma AskedPairIsNotFriends(db: Db, id: int)
    requires FriendInv(db)
    requires id in db.requests && db.requests[id].status == Pending
    ensures !IsFriendPair(db, db.requests[id].sender, db.requests[id].target)
  {
    var r := db.requests[id];
    assert Backed(db, r.sender, r.target) == Backed(db, r.target, r.sender) by {
      BackedSymmetric(db, r.sender, r.target);
    }
  }

  /** What a quiet retry does: it commits, leaves every table as it was, and still enqueues. */
  lemma QuietRetryIsIdle(db: Db, command: Command)
    requires DbInv(db)
    requires QuietRetry(db, command)
    ensures var out := Apply(db, command); out.code == OK && out.db == db && out.events != []
  {
    match command
    case OnFriends(AcceptRequest(user, id)) =>
      var r := db.requests[id];
      AcceptedMeansFriends(db, id);
      var pair := {(r.sender, r.target), (r.target, r.sender)};
      assert db.friendships + pair == db.friendships;
    case OnFriends(DeleteFriend(user, friend)) =>
      assert db.friendships - {(user, friend), (friend, user)} == db.friendships;
      StrangersHaveNoAcceptedRow(db, user, friend);
    case OnFriends(Unblock(user, blocked)) =>
      assert db.blacklist - {(user, blocked)} == db.blacklist;
  }

  lemma StrangersHaveNoAcceptedRow(db: Db, a: int, b: int)
    requires FriendshipsBacked(db) && !IsFriendPair(db, a, b)
    ensures SetStatusWhere(db.requests, a, b, Accepted, Rejected) == db.requests
  {
    assert !Backed(db, a, b);
    SameMap(SetStatusWhere(db.requests, a, b, Accepted, Rejected), db.requests);
  }

  lemma LoudCommandIsExact(db: Db, command: Command, resource: Resource)
    requires DbInv(db)
    requires !QuietRetry(db, command)
    ensures resource in Apply(db, command).events <==> Changes(db, command, resource)
  {
    OutboxComplete(db, command, resource);
    if resource in Apply(db, command).events {
      match command
      case OnFriends(c) => FriendEventMeansChange(db, c, resource);
      case OnGroups(c) =>
        GroupCommandScope(db, c);
        GroupEventMeansChange(db, c);
      case Register(user) => assert false;
    }
  }

  ghost predicate NamesExactlyTheChanged(db: Db, command: Command) {
    forall r: Resource :: r in Apply(db, command).events <==> Changes(db, command, r)
  }

  /** Outbox exactness: a command, whatever it answers, names exactly the owners whose projection it
      changes, if and only if it is not one of the quiet retries. */
  lemma OutboxExact(db: Db, command: Command)
    requires DbInv(db)
    ensures NamesExactlyTheChanged(db, command) <==> !QuietRetry(db, command)
  {
    if QuietRetry(db, command) {
      QuietRetryIsIdle(db, command);
      var events := Apply(db, command).events;
      assert events[0] in events && !Changes(db, command, events[0]);
    } else {
      forall r: Resource
        ensures r in Apply(db, command).events <==> Changes(db, command, r)
      {
        LoudCommandIsExact(db, command, r);
      }
    }
  }

  /** An input that shows it: user 1 unblocks user 2, whom nobody blocked, and an event is enqueued for the
      blacklist of 1 although no projection changes. */
  lemma IdleUnblock(resource: Resource)
    ensures var db := After(EMPTY, [Register(1), Register(2)]);
            var command := OnFriends(Unblock(1, 2));
            && Apply(db, command).events == [Blacklist(1)]
            && !Changes(db, command, resource)
  {
    var commands := [Register(1), Register(2)];
    var first := Apply(EMPTY, Register(1)).db;
    assert commands[1..] == [Register(2)] && [Register(2)][1..] == [];
    assert After(first, commands[1..]) == Apply(first, Register(2)).db;
    var db := After(EMPTY, commands);
    assert db.users == {1, 2};
    EmptyTables();
    RunKeeps(EMPTY, commands);
    QuietRetryIsIdle(db, OnFriends(Unblock(1, 2)));
  }
}

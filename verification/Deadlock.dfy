/** Any number of business and snapshot transactions that take their locks one at a time: who waits for
    whom never forms a cycle. */
module Deadlock {
  import opened Common
  import opened Tables
  import opened FriendPairs
  import opened GroupLifecycle
  import opened Business
  import opened Locks

  // ---- the lock order ----

  function Class(row: Row): int {
    match row
    case WarmLock(_) => 0
    case GroupRow(_) => 1
    case TombRow(_) => 2
    case MemberRows(_) => 3
    case UserRow(_) => 4
    case RequestRows(_, _) => 5
  }

  /** Redis lock, group row, tombstone, member rows, user rows by ascending id, request rows. */
  predicate Less(a: Row, b: Row) {
    Class(a) < Class(b) || (a.UserRow? && b.UserRow? && a.user < b.user)
  }

  predicate Ordered(plan: seq<Row>) {
    forall i, j :: 0 <= i < j < |plan| ==> Less(plan[i], plan[j])
  }

  /** The rows a command may have to wait for. */
  function Waited(db: Db, command: Command): seq<Row> {
    match command
    case OnGroups(Create(owner)) => [UserRow(owner)]
    case _ => Plan(db, command)
  }

  /** The rows it creates under a fresh id, which nobody can hold yet. */
  function Inserted(db: Db, command: Command): seq<Row> {
    match command
    case OnGroups(Create(_)) => [GroupRow(db.nextGroup), MemberRows(db.nextGroup)]
    case _ => []
  }

  /** The Redis lock and the owner row of a reconciling job. A group's job asks for the tombstone when it
      finds no group row, for instance because the group was dissolved while it waited. */
  function SnapshotPlan(resource: Resource): seq<Row> {
    match resource
    case Friends(o) => [WarmLock(resource), UserRow(o)]
    case Blacklist(o) => [WarmLock(resource), UserRow(o)]
    case Members(g) => [WarmLock(resource), GroupRow(g), TombRow(g)]
  }

  /** Every plan is the waited rows, in the lock order, followed by the inserted ones. */
  lemma PlansFollowTheOrder(db: Db, command: Command)
    ensures Plan(db, command) == Waited(db, command) + Inserted(db, command)
    ensures Ordered(Waited(db, command))
  {
    match command
    case OnFriends(c) => FriendPlanOrdered(db, c);
    case OnGroups(c) => GroupPlanOrdered(db, c);
    case Register(user) =>
  }

  lemma FriendPlanOrdered(db: Db, command: FriendCommand)
    ensures Ordered(Plan(db, OnFriends(command)))
  {
    match command
    case SendRequest(sender, target) => PairPlanOrdered(sender, target);
    case AcceptRequest(_, id) =>
      if id in db.requests { PairPlanOrdered(db.requests[id].sender, db.requests[id].target); }
    case RejectRequest(_, id) =>
      if id in db.requests { PairPlanOrdered(db.requests[id].sender, db.requests[id].target); }
    case DeleteFriend(user, friend) => PairPlanOrdered(user, friend);
    case Block(user, blocked) => PairPlanOrdered(user, blocked);
    case Unblock(user, blocked) => PairPlanOrdered(user, blocked);
  }

  lemma PairPlanOrdered(a: int, b: int)
    ensures Ordered(PairPlan(a, b)) && Ordered(InIdOrder(a, b))
  {
  }

  lemma GroupPlanOrdered(db: Db, command: GroupCommand)
    ensures Ordered(Waited(db, OnGroups(command)))
  {
  }

  /** Every job's plan follows the order too, and contains the owner row of its resource. */
  lemma SnapshotsFollowTheOrder(db: Db, resource: Resource)
    ensures Ordered(SnapshotPlan(resource))
    ensures OwnerRow(db, resource).Some? ==> OwnerRow(db, resource).value in SnapshotPlan(resource)
  {
    match resource
    case Members(g) => assert SnapshotPlan(resource)[1] == GroupRow(g) && SnapshotPlan(resource)[2] == TombRow(g);
    case _ => assert SnapshotPlan(resource)[1] == UserRow(resource.owner);
  }

  // ---- transactions taking locks ----

  /** `taken` rows of the plan are held; `created` holds the inserted rows, taken after the whole plan. */
  datatype Tx = Tx(plan: seq<Row>, taken: nat, created: set<Row>)

  datatype Locking = Locking(txs: map<int, Tx>, held: map<Row, int>)

  /** A transaction may end before it has taken every row of its plan. */
  datatype LockAction =
    | BeginCommand(id: int, db: Db, command: Command)
    | BeginSnapshot(id: int, resource: Resource)
    | Acquire(id: int)
    | Insert(id: int, group: int)
    | End(id: int)
    | Expire(resource: Resource)

  predicate Wants(s: Locking, id: int) {
    id in s.txs && s.txs[id].taken < |s.txs[id].plan|
  }

  function Next(s: Locking, id: int): Row
    requires Wants(s, id)
  {
    s.txs[id].plan[s.txs[id].taken]
  }

  ghost predicate Allowed(s: Locking, action: LockAction) {
    match action
    case BeginCommand(id, _, _) => id !in s.txs
    case BeginSnapshot(id, _) => id !in s.txs
    case Acquire(id) => Wants(s, id) && Next(s, id) !in s.held
    case Insert(id, group) =>
      id in s.txs && !Wants(s, id) && GroupRow(group) !in s.held && MemberRows(group) !in s.held
    case End(id) => id in s.txs
    case Expire(resource) => WarmLock(resource) in s.held
  }

  function Release(held: map<Row, int>, id: int): (rest: map<Row, int>)
    ensures forall row :: row in rest <==> row in held && held[row] != id
    ensures forall row :: row in rest ==> rest[row] == held[row]
  {
    map row | row in held && held[row] != id :: held[row]
  }

  function Act(s: Locking, action: LockAction): Locking
    requires Allowed(s, action)
  {
    match action
    case BeginCommand(id, db, command) => s.(txs := s.txs[id := Tx(Waited(db, command), 0, {})])
    case BeginSnapshot(id, resource) => s.(txs := s.txs[id := Tx(SnapshotPlan(resource), 0, {})])
    case Acquire(id) =>
      Locking(s.txs[id := s.txs[id].(taken := s.txs[id].taken + 1)], s.held[Next(s, id) := id])
    case Insert(id, group) =>
      var rows := {GroupRow(group), MemberRows(group)};
      Locking(s.txs[id := s.txs[id].(created := s.txs[id].created + rows)],
              s.held[GroupRow(group) := id][MemberRows(group) := id])
    case End(id) => Locking(s.txs - {id}, Release(s.held, id))
    case Expire(resource) => s.(held := s.held - {WarmLock(resource)})
  }

  /** Whoever holds a row took it from its plan, or created it after its plan was done. */
  ghost predicate LocksOk(s: Locking) {
    && (forall id :: id in s.txs ==>
          && Ordered(s.txs[id].plan) && s.txs[id].taken <= |s.txs[id].plan|
          && (s.txs[id].created != {} ==> !Wants(s, id)))
    && (forall row :: row in s.held ==> s.held[row] in s.txs && Has(s.txs[s.held[row]], row))
  }

  predicate Has(t: Tx, row: Row) {
    (exists k :: 0 <= k < t.taken && k < |t.plan| && t.plan[k] == row) || row in t.created
  }

  lemma ActKeeps(s: Locking, action: LockAction)
    requires LocksOk(s) && Allowed(s, action)
    ensures LocksOk(Act(s, action))
  {
    match action
    case BeginCommand(_, db, command) => PlansFollowTheOrder(db, command);
    case BeginSnapshot(_, resource) => SnapshotsFollowTheOrder(EMPTY, resource);
    case Acquire(id) => AcquireKeeps(s, id);
    case _ =>
  }

  lemma AcquireKeeps(s: Locking, id: int)
    requires LocksOk(s) && Allowed(s, Acquire(id))
    ensures LocksOk(Act(s, Acquire(id)))
  {
    var t := s.txs[id];
    var grown := t.(taken := t.taken + 1);
    assert t.plan[t.taken] == Next(s, id);
    assert Has(grown, Next(s, id));
    assert forall row :: Has(t, row) ==> Has(grown, row);
  }

  ghost predicate Acts(s: Locking, after: Locking) {
    exists action :: Allowed(s, action) && after == Act(s, action)
  }

  ghost predicate IsLockRun(run: seq<Locking>) {
    && |run| > 0 && run[0] == Locking(map[], map[])
    && forall i :: 0 <= i < |run| - 1 ==> Acts(run[i], run[i + 1])
  }

  lemma {:induction false} ReachableOk(run: seq<Locking>, i: nat)
    requires IsLockRun(run) && i < |run|
    ensures LocksOk(run[i])
  {
    if i > 0 {
      ReachableOk(run, i - 1);
      assert Acts(run[i - 1], run[i - 1 + 1]);
      var action :| Allowed(run[i - 1], action) && run[i] == Act(run[i - 1], action);
      ActKeeps(run[i - 1], action);
    }
  }

  // ---- who waits for whom ----

  predicate Waits(s: Locking, a: int, b: int) {
    Wants(s, a) && Next(s, a) in s.held && s.held[Next(s, a)] == b
  }

  /** Whoever is waited for waits, if at all, for a later row. */
  lemma WaitsClimb(s: Locking, a: int, b: int)
    requires LocksOk(s) && Waits(s, a, b) && Wants(s, b)
    ensures Less(Next(s, a), Next(s, b))
  {
    var t := s.txs[b];
    assert Has(t, Next(s, a)) && t.created == {};
    var k :| 0 <= k < t.taken && t.plan[k] == Next(s, a);
  }

  ghost predicate WaitsPath(s: Locking, path: seq<int>) {
    |path| >= 2 && forall i :: 0 <= i < |path| - 1 ==> Waits(s, path[i], path[i + 1])
  }

  lemma {:induction false} PathClimbs(s: Locking, path: seq<int>)
    requires LocksOk(s) && WaitsPath(s, path) && Wants(s, path[|path| - 1])
    ensures Wants(s, path[0]) && Less(Next(s, path[0]), Next(s, path[|path| - 1]))
    decreases |path|
  {
    var last := |path| - 1;
    assert Waits(s, path[0], path[0 + 1]);
    assert Waits(s, path[last - 1], path[last - 1 + 1]);
    WaitsClimb(s, path[last - 1], path[last]);
    if last > 1 {
      var before := path[..last];
      assert forall i :: 0 <= i < |before| - 1 ==> Waits(s, path[i], path[i + 1]);
      PathClimbs(s, before);
    }
  }

  /** Deadlock freedom: in every reachable state, no chain of waiting transactions comes back to its start. */
  lemma NoCycle(run: seq<Locking>, i: nat, path: seq<int>)
    requires IsLockRun(run) && i < |run|
    requires WaitsPath(run[i], path)
    ensures path[0] != path[|path| - 1]
  {
    var s := run[i];
    ReachableOk(run, i);
    assert Waits(s, path[0], path[0 + 1]);
    if path[0] == path[|path| - 1] {
      PathClimbs(s, path);
    }
  }

  /** Some row in a finite nonempty set has none above it. */
  lemma {:induction false} Highest(rows: set<Row>) returns (top: Row)
    requires rows != {}
    ensures top in rows && forall row :: row in rows ==> !Less(top, row)
    decreases rows
  {
    var any :| any in rows;
    if rows == {any} {
      top := any;
    } else {
      var others := rows - {any};
      var rest := Highest(others);
      top := if Less(rest, any) then any else rest;
      assert forall row :: row in rows ==> row == any || row in others;
    }
  }

  predicate Blocked(s: Locking, id: int) {
    Wants(s, id) && Next(s, id) in s.held && s.held[Next(s, id)] != id
  }

  /** So there is always progress: if anyone is blocked, some transaction it waits for, perhaps through
      others, is not. */
  lemma SomeoneRuns(run: seq<Locking>, i: nat, id: int)
    requires IsLockRun(run) && i < |run|
    requires Blocked(run[i], id)
    ensures exists runner :: runner in run[i].txs && !Blocked(run[i], runner) && Holds(run[i], runner)
  {
    var s := run[i];
    ReachableOk(run, i);
    var rows := set k | k in s.txs && Blocked(s, k) :: Next(s, k);
    assert Next(s, id) in rows;
    var top := Highest(rows);
    var last :| last in s.txs && Blocked(s, last) && Next(s, last) == top;
    var runner := s.held[top];
    assert Waits(s, last, runner);
    assert forall k :: k in s.txs && Blocked(s, k) ==> Next(s, k) in rows;
    if Blocked(s, runner) { WaitsClimb(s, last, runner); }
    assert Holds(s, runner);
  }

  predicate Holds(s: Locking, id: int) {
    exists row :: row in s.held && s.held[row] == id
  }

  // ---- everyone can finish ----

  /** Taking the next row, or ending with the whole plan taken: nobody is rolled back, no lock expires. */
  ghost predicate Orderly(s: Locking, action: LockAction) {
    && Allowed(s, action)
    && (action.Acquire? || (action.End? && !Wants(s, action.id)))
  }

  ghost predicate Proceeds(s: Locking, actions: seq<LockAction>, t: Locking)
    decreases |actions|
  {
    if actions == [] then t == s
    else Orderly(s, actions[0]) && Proceeds(Act(s, actions[0]), actions[1..], t)
  }

  /** One orderly action before others. */
  lemma ProceedsFirst(s: Locking, action: LockAction, rest: seq<LockAction>, t: Locking)
    requires Orderly(s, action) && Proceeds(Act(s, action), rest, t)
    ensures Proceeds(s, [action] + rest, t)
  {
    assert ([action] + rest)[1..] == rest;
  }

  lemma {:induction false} ProceedsJoin(s: Locking, first: seq<LockAction>, t: Locking, second: seq<LockAction>, u: Locking)
    requires Proceeds(s, first, t) && Proceeds(t, second, u)
    ensures Proceeds(s, first + second, u)
    decreases |first|
  {
    if first == [] {
      assert first + second == second;
    } else {
      assert (first + second)[1..] == first[1..] + second;
      ProceedsJoin(Act(s, first[0]), first[1..], t, second, u);
    }
  }

  /** Everyone still wants a row, and none of those rows comes after this transaction's. */
  ghost predicate IsLast(s: Locking, id: int) {
    && id in s.txs
    && (forall k :: k in s.txs && k != id ==> Wants(s, k))
    && (Wants(s, id) ==> forall k :: k in s.txs && k != id ==> !Less(Next(s, id), Next(s, k)))
  }

  /** The last transaction in the lock order finds its next row free, and then it is still the last one. */
  lemma LastAcquires(s: Locking, id: int)
    requires LocksOk(s) && IsLast(s, id) && Wants(s, id)
    ensures Orderly(s, Acquire(id))
    ensures LocksOk(Act(s, Acquire(id))) && IsLast(Act(s, Acquire(id)), id)
  {
    if Next(s, id) in s.held {
      WaitsClimb(s, id, s.held[Next(s, id)]);
      assert false;
    }
    ActKeeps(s, Acquire(id));
    var after := Act(s, Acquire(id));
    if Wants(after, id) {
      assert Less(Next(s, id), Next(after, id));
      forall k | k in after.txs && k != id
        ensures !Less(Next(after, id), Next(after, k))
      {
        assert Next(after, k) == Next(s, k);
      }
    }
  }

  /** So it takes the rest of its plan and ends. */
  lemma {:induction false} LastFinishes(s: Locking, id: int) returns (actions: seq<LockAction>, t: Locking)
    requires LocksOk(s) && IsLast(s, id)
    ensures Proceeds(s, actions, t) && LocksOk(t) && t.txs == s.txs - {id}
    decreases |s.txs[id].plan| - s.txs[id].taken
  {
    if Wants(s, id) {
      LastAcquires(s, id);
      var next := Act(s, Acquire(id));
      var rest;
      rest, t := LastFinishes(next, id);
      actions := [Acquire(id)] + rest;
      ProceedsFirst(s, Acquire(id), rest, t);
      assert next.txs - {id} == s.txs - {id};
    } else {
      t := Act(s, End(id));
      ActKeeps(s, End(id));
      actions := [End(id)];
      assert Proceeds(t, [End(id)][1..], t);
    }
  }

  lemma SomeoneIsLast(s: Locking) returns (id: int)
    requires LocksOk(s) && s.txs != map[]
    requires forall k :: k in s.txs ==> Wants(s, k)
    ensures IsLast(s, id)
  {
    var rows := set k | k in s.txs && Wants(s, k) :: Next(s, k);
    NonEmpty(s.txs.Keys);
    var any :| any in s.txs;
    assert Next(s, any) in rows;
    var top := Highest(rows);
    id :| id in s.txs && Wants(s, id) && Next(s, id) == top;
    assert forall k :: k in s.txs && Wants(s, k) ==> Next(s, k) in rows;
  }

  lemma {:induction false} AllCanFinish(s: Locking) returns (actions: seq<LockAction>, t: Locking)
    requires LocksOk(s)
    ensures Proceeds(s, actions, t) && LocksOk(t) && t.txs == map[]
    decreases |s.txs|
  {
    if s.txs == map[] {
      actions, t := [], s;
    } else {
      var first, next, rest;
      if id :| id in s.txs && !Wants(s, id) {
        next := Act(s, End(id));
        ActKeeps(s, End(id));
        first := [End(id)];
        assert Proceeds(next, [End(id)][1..], next);
        OneFewer(s.txs, id);
      } else {
        var id := SomeoneIsLast(s);
        first, next := LastFinishes(s, id);
        OneFewer(s.txs, id);
      }
      rest, t := AllCanFinish(next);
      actions := first + rest;
      ProceedsJoin(s, first, next, rest, t);
    }
  }

  lemma OneFewer(txs: map<int, Tx>, id: int)
    requires id in txs
    ensures |txs - {id}| < |txs|
  {
    assert (txs - {id}).Keys == txs.Keys - {id};
  }

  /** From every reachable state all transactions can take their whole plans and end, one after the other,
      though none is rolled back and no lock expires. */
  lemma EveryoneCanFinish(run: seq<Locking>) returns (actions: seq<LockAction>, t: Locking)
    requires IsLockRun(run)
    ensures Proceeds(run[|run| - 1], actions, t) && t == Locking(map[], map[])
  {
    ReachableOk(run, |run| - 1);
    actions, t := AllCanFinish(run[|run| - 1]);
    assert forall row :: row !in t.held;
  }
}

/** The cache truth service at rest: paging over owners, warm-up, rebuild, audit and on-demand loading. */
module CacheTruth {
  import opened Common
  import opened Tables
  import opened GroupLifecycle
  import opened Business
  import opened RedisKeys
  import opened MessageChecks
  import opened RedisScripts
  import opened Repair

  const PAGE_LIMIT := 5000
  const DEFAULT_PAGE := 500

  datatype Scope = FriendsScope | BlacklistsScope | GroupsScope | AllScope

  datatype RebuildReport = RebuildReport(users: nat, groups: nat, resources: nat)

  /** Which comparisons of an audit failed; the id lists name the users concerned. */
  datatype Issue = Issue(
    resource: Resource,
    markerMissing: bool,
    idsDiffer: bool,
    detailsDiffer: bool,
    missingSet: seq<int>,
    missingInfo: seq<int>,
    missingReverse: seq<int>,
    unexpectedReverse: seq<int>)

  datatype GroupSnapshot = GroupSnapshot(
    loaded: bool,
    members: map<int, Member>,
    missingSet: seq<int>,
    missingInfo: seq<int>,
    missingReverse: seq<int>,
    unexpectedReverse: seq<int>)

  datatype AuditReport = AuditReport(checked: nat, mismatches: nat, issues: seq<Issue>)

  datatype Access = Ready | BadId | GroupDissolved | NoSuchGroup | CacheFailed

  // ---- paging ----

  function PageLimit(limit: int): (normalized: nat)
    ensures 1 <= normalized <= PAGE_LIMIT == 5000
    ensures limit <= 0 ==> normalized == 500
    ensures 1 <= limit <= 5000 ==> normalized == limit
    ensures limit > 5000 ==> normalized == 5000
  {
    if limit <= 0 then DEFAULT_PAGE else if limit > PAGE_LIMIT then PAGE_LIMIT else limit
  }

  lemma {:induction false} AscendingSize(ids: seq<int>)
    requires Ascending(ids)
    ensures |SeqSet(ids)| == |ids|
    decreases |ids|
  {
    if ids != [] {
      var rest := ids[..|ids| - 1];
      AscendingSize(rest);
      assert SeqSet(ids) == SeqSet(rest) + {ids[|ids| - 1]};
    }
  }

  method InOrder(all: set<int>) returns (ids: seq<int>)
    ensures Ascending(ids)
    ensures SeqSet(ids) == all
  {
    var left := all;
    ids := [];
    while left != {}
      invariant left <= all
      invariant Ascending(ids)
      invariant forall x, y :: x in ids && y in left ==> x < y
      invariant forall x :: x in ids <==> x in all && x !in left
      decreases left
    {
      var least := Least(left);
      assert forall i :: 0 <= i < |ids| ==> ids[i] in ids;
      ids := ids + [least];
      left := left - {least};
    }
    SameSet(SeqSet(ids), all);
  }

  function Above(all: set<int>, after: int): (rest: set<int>)
    ensures forall x :: x in rest <==> x in all && x > after
  {
    set x | x in all && x > after
  }

  /** A page: the smallest ids above `after`, in order; something is left out only when the page is full. */
  ghost predicate IsPage(all: set<int>, after: int, limit: nat, ids: seq<int>) {
    && Ascending(ids) && |ids| <= limit
    && (forall x :: x in ids ==> x in all && x > after)
    && (forall x :: x in all && x > after && x !in ids ==> |ids| == limit && forall y :: y in ids ==> y < x)
  }

  /** SELECT ... WHERE id > after ORDER BY id LIMIT ? */
  method ListOwnerIds(all: set<int>, after: int, limit: int) returns (ids: seq<int>)
    ensures IsPage(all, after, PageLimit(limit), ids)
  {
    ids := InOrder(Above(all, after));
    var normalized := PageLimit(limit);
    if |ids| > normalized {
      ghost var every := ids;
      ids := ids[..normalized];
      assert forall j :: 0 <= j < normalized ==> ids[j] == every[j] && ids[j] in ids;
      forall x | x in every && x !in ids
        ensures forall y :: y in ids ==> y < x
      {
        var k :| 0 <= k < |every| && every[k] == x;
        assert k >= normalized;
      }
      assert forall x :: x in all && x > after ==> x in SeqSet(every);
      assert forall x :: x in ids ==> x in SeqSet(every);
    }
  }

  /** The owners met by forEachUser or forEachGroup, in the order of their visits. Every owner is met,
      once, exactly when the page size is at most 5000 or one full page holds them all: a larger page size
      takes the server's cut to 5000 rows for the last page. */
  method ForEachOwner(all: set<int>, pageSize: int) returns (visited: seq<int>)
    requires pageSize > 0
    requires forall x :: x in all ==> x > 0
    ensures Walked(all, visited, pageSize)
  {
    var after := 0;
    visited := [];
    while true
      invariant after >= 0
      invariant Ascending(visited)
      invariant forall x :: x in visited <==> x in all && x <= after
      invariant pageSize > PAGE_LIMIT ==> visited == []
      decreases Above(all, after)
    {
      var ids := ListOwnerIds(all, after, pageSize);
      if |ids| == 0 {
        assert SeqSet(visited) == all;
        AscendingSize(visited);
        return;
      }
      ghost var before := after;
      after := ids[|ids| - 1];
      assert after in ids;
      PageJoins(all, before, pageSize, ids, visited);
      visited := visited + ids;
      if |ids| < pageSize {
        LastPage(all, after, pageSize, ids, visited);
        return;
      }
      assert after in Above(all, before) && after !in Above(all, after);
    }
  }

  lemma PageJoins(all: set<int>, before: int, pageSize: int, ids: seq<int>, visited: seq<int>)
    requires IsPage(all, before, PageLimit(pageSize), ids) && ids != []
    requires Ascending(visited) && forall x :: x in visited <==> x in all && x <= before
    ensures Ascending(visited + ids)
    ensures forall x :: x in visited + ids <==> x in all && x <= ids[|ids| - 1]
  {
    assert forall i :: 0 <= i < |visited| ==> visited[i] in visited;
    assert forall i :: 0 <= i < |ids| ==> ids[i] in ids;
  }

  lemma LastPage(all: set<int>, after: int, pageSize: int, ids: seq<int>, visited: seq<int>)
    requires 0 < |ids| < pageSize
    requires |ids| <= PageLimit(pageSize)
    requires pageSize > PAGE_LIMIT ==> visited == ids
    requires exists before :: IsPage(all, before, PageLimit(pageSize), ids)
    requires after == ids[|ids| - 1]
    requires Ascending(visited) && forall x :: x in visited <==> x in all && x <= after
    ensures SeqSet(visited) == all <==> pageSize <= PAGE_LIMIT || |all| <= PAGE_LIMIT
  {
    var before :| IsPage(all, before, PageLimit(pageSize), ids);
    AscendingSize(visited);
    assert SeqSet(visited) <= all;
    SubsetSize(SeqSet(visited), all);
    if SeqSet(visited) != all {
      NonEmpty(all - SeqSet(visited));
      assert SeqSet(visited) + (all - SeqSet(visited)) == all;
      var x :| x in all - SeqSet(visited);
      assert after in ids;
      assert x > after > before;
      assert |ids| == PageLimit(pageSize);
    }
  }

  // ---- the service ----

  predicate UsersInScope(scope: Scope) {
    !scope.GroupsScope?
  }

  predicate GroupsInScope(scope: Scope) {
    scope.GroupsScope? || scope.AllScope?
  }

  predicate InScope(scope: Scope, resource: Resource) {
    match resource
    case Friends(_) => scope.FriendsScope? || scope.AllScope?
    case Blacklist(_) => scope.BlacklistsScope? || scope.AllScope?
    case Members(_) => GroupsInScope(scope)
  }

  /** Projections are kept for users, live groups and dissolved groups. */
  predicate HasOwner(db: Db, resource: Resource) {
    match resource
    case Friends(o) => o in db.users
    case Blacklist(o) => o in db.users
    case Members(g) => g in db.groups || g in db.tombstones
  }

  /** The owner walks of one scope meet everybody. */
  predicate WalksComplete(db: Db, pageSize: int, scope: Scope) {
    pageSize <= PAGE_LIMIT ||
    ((UsersInScope(scope) ==> |db.users| <= PAGE_LIMIT)
     && (GroupsInScope(scope) ==> |db.groups.Keys + db.tombstones.Keys| <= PAGE_LIMIT))
  }

  /** How many resources of existing owners a scope names. */
  function ScopeSize(db: Db, scope: Scope): nat {
    (if scope.FriendsScope? || scope.AllScope? then |db.users| else 0)
    + (if scope.BlacklistsScope? || scope.AllScope? then |db.users| else 0)
    + (if GroupsInScope(scope) then |db.groups.Keys + db.tombstones.Keys| else 0)
  }

  /** What rebuild and audit do at each visited user, in order. */
  function UserPlan(scope: Scope, users: seq<int>): seq<Resource>
    decreases |users|
  {
    if users == [] then []
    else
      (if scope.FriendsScope? || scope.AllScope? then [Friends(users[0])] else [])
      + (if scope.BlacklistsScope? || scope.AllScope? then [Blacklist(users[0])] else [])
      + UserPlan(scope, users[1..])
  }

  lemma {:induction false} UserPlanSplits(scope: Scope, first: seq<int>, second: seq<int>)
    ensures UserPlan(scope, first + second) == UserPlan(scope, first) + UserPlan(scope, second)
    decreases |first|
  {
    if first == [] {
      assert first + second == second;
    } else {
      assert (first + second)[1..] == first[1..] + second;
      UserPlanSplits(scope, first[1..], second);
    }
  }

  function GroupPlan(groups: seq<int>): (plan: seq<Resource>)
    ensures |plan| == |groups|
    ensures forall i :: 0 <= i < |groups| ==> plan[i] == Members(groups[i])
  {
    seq(|groups|, i requires 0 <= i < |groups| => Members(groups[i]))
  }

  lemma GroupPlanFirst(groups: seq<int>, i: nat)
    requires i < |groups|
    ensures GroupPlan(groups[i..]) == [Members(groups[i])] + GroupPlan(groups[i + 1..])
  {
    var rest := groups[i..];
    assert rest[0] == groups[i] && rest[1..] == groups[i + 1..];
  }

  /** What ForEachOwner promises about its visits. */
  ghost predicate Walked(all: set<int>, visited: seq<int>, pageSize: int) {
    && Ascending(visited)
    && (forall x :: x in visited ==> x in all)
    && (SeqSet(visited) == all <==> pageSize <= PAGE_LIMIT || |all| <= PAGE_LIMIT)
  }

  /** `roster` is the group's roster restricted to some of its users. */
  ghost predicate ListsRoster(db: Db, group: int, users: set<int>, roster: map<int, Info>) {
    && (forall u :: u in roster <==> u in users)
    && (forall u :: u in users ==> (group, u) in db.members && roster[u] == Encode(db.members[(group, u)]))
  }

  lemma RowAppended(db: Db, group: int, users: seq<int>, rows: seq<(int, Member)>)
    requires rows != []
    requires ListsRoster(db, group, SeqSet(users), RosterOfRows(rows[..|rows| - 1]))
    requires var last := rows[|rows| - 1]; last.0 > 0 && last.0 !in users && (group, last.0) in db.members && last.1 == db.members[(group, last.0)]
    ensures ListsRoster(db, group, SeqSet(users + [rows[|rows| - 1].0]), RosterOfRows(rows))
  {
  }

  class CacheTruthService {
    const db: Db
    const cache: RedisStore
    const pageSize: int

    constructor (db: Db, cache: RedisStore, pageSize: int)
      ensures this.db == db && this.cache == cache
      ensures this.pageSize == if pageSize <= 0 then DEFAULT_PAGE else pageSize
    {
      this.db := db;
      this.cache := cache;
      this.pageSize := if pageSize <= 0 then DEFAULT_PAGE else pageSize;
    }

    /** SELECT ... FROM group_members WHERE group_id = ? ORDER BY user_id. */
    method ListGroupMembers(group: int) returns (rows: seq<(int, Member)>)
      requires forall u :: (group, u) in db.members ==> u > 0
      ensures RosterOfRows(rows) == RosterOf(db, group)
    {
      var users := InOrder(Of(db.members.Keys, group));
      rows := [];
      for i := 0 to |users|
        invariant ListsRoster(db, group, SeqSet(users[..i]), RosterOfRows(rows))
      {
        assert users[i] in SeqSet(users);
        assert users[i] !in users[..i];
        rows := rows + [(users[i], db.members[(group, users[i])])];
        RowAppended(db, group, users[..i], rows);
        assert users[..i + 1] == users[..i] + [users[i]];
      }
      assert users[..|users|] == users;
      assert ListsRoster(db, group, Of(db.members.Keys, group), RosterOfRows(rows));
      SameMap(RosterOfRows(rows), RosterOf(db, group));
    }

    /** Reads truth and replaces the projection; a group without a row also loses its message runtime. */
    method ReconcileCurrent(resource: Resource) returns (ok: bool)
      requires PositiveIds(db)
      modifies cache
      ensures ok <==> Scannable(old(cache.Keys()), resource)
      ensures cache.Keys() == if ok then Reconciled(db, old(cache.Keys()), resource) else old(cache.Keys())
    {
      match resource {
        case Friends(owner) =>
          var ids := InOrder(Of(db.friendships, owner));
          assert Positive(ids) == Of(db.friendships, owner);
          ok := cache.ReplaceFriendOwner(owner, ids);
        case Blacklist(owner) =>
          var ids := InOrder(Of(db.blacklist, owner));
          assert Positive(ids) == Of(db.blacklist, owner);
          cache.ReplaceBlacklistOwner(owner, ids);
          ok := true;
        case Members(group) =>
          var groupExists := group in db.groups;
          var rows := ListGroupMembers(group);
          ok := cache.ReplaceGroupMembersOwner(group, rows);
          if ok && !groupExists {
            cache.DeleteDisbandedGroupRuntime(group);
          }
      }
    }

    /** reconcileForBulkOperation: strict work first drops the loaded and index markers. */
    method ReconcileForBulk(resource: Resource, strict: bool) returns (ok: bool)
      requires PositiveIds(db)
      modifies cache
      ensures var start := Prepared(old(cache.Keys()), resource, strict);
              && (ok <==> Scannable(start, resource))
              && cache.Keys() == if ok then Reconciled(db, start, resource) else start
    {
      if strict {
        cache.InvalidateProjectionMarkers(resource);
      }
      ok := ReconcileCurrent(resource);
    }

    /** The user half of rebuild: each visited user's friends, then blocked users, as the scope asks. */
    method RebuildUsers(scope: Scope, strict: bool) returns (report: RebuildReport, ok: bool, ghost visited: seq<int>)
      requires PositiveIds(db) && pageSize > 0
      modifies cache
      ensures (cache.Keys(), ok) == Sweep(db, old(cache.Keys()), UserPlan(scope, visited), strict)
      ensures Walked(db.users, visited, pageSize) && report.groups == 0
      ensures ok ==> report.users == |visited| && report.resources == |UserPlan(scope, visited)|
    {
      var owners := ForEachOwner(db.users, pageSize);
      visited := owners;
      report, ok := RebuildReport(0, 0, 0), true;
      ghost var start := cache.Keys();
      for i := 0 to |owners|
        invariant report.users == i && report.groups == 0
        invariant report.resources + |UserPlan(scope, owners[i..])| == |UserPlan(scope, owners)|
        invariant Sweep(db, cache.Keys(), UserPlan(scope, owners[i..]), strict) == Sweep(db, start, UserPlan(scope, owners), strict)
      {
        assert owners[i..] == [owners[i]] + owners[i + 1..];
        UserPlanSplits(scope, [owners[i]], owners[i + 1..]);
        SweepJoins(db, cache.Keys(), UserPlan(scope, [owners[i]]), UserPlan(scope, owners[i + 1..]), strict);
        report := report.(users := report.users + 1);
        var done;
        done, ok := RebuildUser(scope, owners[i], strict);
        report := report.(resources := report.resources + done);
        if !ok { return; }
      }
    }

    method RebuildUser(scope: Scope, user: int, strict: bool) returns (done: nat, ok: bool)
      requires PositiveIds(db)
      modifies cache
      ensures (cache.Keys(), ok) == Sweep(db, old(cache.Keys()), UserPlan(scope, [user]), strict)
      ensures ok ==> done == |UserPlan(scope, [user])|
    {
      done, ok := 0, true;
      ghost var start, plan := cache.Keys(), UserPlan(scope, [user]);
      assert UserPlan(scope, [user][1..]) == [];
      if scope.FriendsScope? || scope.AllScope? {
        assert plan[0] == Friends(user);
        ok := ReconcileForBulk(Friends(user), strict);
        if !ok { return; }
        done := done + 1;
      }
      ghost var left := if scope.BlacklistsScope? || scope.AllScope? then [Blacklist(user)] else [];
      assert plan[done..] == left;
      assert Sweep(db, start, plan, strict) == Sweep(db, cache.Keys(), left, strict);
      if scope.BlacklistsScope? || scope.AllScope? {
        SweepOne(db, cache.Keys(), Blacklist(user), strict);
        ok := ReconcileForBulk(Blacklist(user), strict);
        if !ok { return; }
        done := done + 1;
      }
    }

    /** The group half: every visited live or dissolved group. */
    method RebuildGroups(report: RebuildReport, strict: bool) returns (total: RebuildReport, ok: bool, ghost visited: seq<int>)
      requires PositiveIds(db) && pageSize > 0 && report.groups == 0
      modifies cache
      ensures (cache.Keys(), ok) == Sweep(db, old(cache.Keys()), GroupPlan(visited), strict)
      ensures Walked(db.groups.Keys + db.tombstones.Keys, visited, pageSize)
      ensures ok ==> total == RebuildReport(report.users, |visited|, report.resources + |visited|)
    {
      var owners := ForEachOwner(db.groups.Keys + db.tombstones.Keys, pageSize);
      visited := owners;
      total, ok := report, true;
      ghost var start := cache.Keys();
      assert owners[0..] == owners;
      for i := 0 to |owners|
        invariant total == RebuildReport(report.users, i, report.resources + i)
        invariant Sweep(db, cache.Keys(), GroupPlan(owners[i..]), strict) == Sweep(db, start, GroupPlan(owners), strict)
      {
        total := total.(groups := total.groups + 1);
        GroupPlanFirst(owners, i);
        SweepFirst(db, cache.Keys(), Members(owners[i]), GroupPlan(owners[i + 1..]), strict);
        ok := ReconcileForBulk(Members(owners[i]), strict);
        if !ok { return; }
        total := total.(resources := total.resources + 1);
      }
    }

    /** Warm (strict == false) and Rebuild (strict == true). From complete indexes, or from arbitrary
        well-formed content when strict, every resource in scope ends up showing truth and every other one
        is left alone; the report counts every owner exactly when the page size allows it. */
    method Rebuild(scope: Scope, strict: bool) returns (report: RebuildReport, ok: bool)
      requires PositiveIds(db) && pageSize > 0
      modifies cache
      ensures WellFormed(old(cache.Keys())) ==> ok && WellFormed(cache.Keys())
      ensures ok && (strict || IndexesCover(old(cache.Keys()))) && WalksComplete(db, pageSize, scope) ==>
                Rebuilt(db, old(cache.Keys()), cache.Keys(), scope)
      ensures ok ==> (WalksComplete(db, pageSize, scope) <==>
                        && (UsersInScope(scope) ==> report.users == |db.users|)
                        && (GroupsInScope(scope) ==> report.groups == |db.groups.Keys + db.tombstones.Keys|))
      ensures ok ==> (report.resources == ScopeSize(db, scope) <==> WalksComplete(db, pageSize, scope))
    {
      ghost var start := cache.Keys();
      ghost var users: seq<int>, groups: seq<int> := [], [];
      report, ok := RebuildReport(0, 0, 0), true;
      if UsersInScope(scope) {
        report, ok, users := RebuildUsers(scope, strict);
        WalkCounts(db.users, users, pageSize);
      }
      ghost var first, middle := UserPlan(scope, users), cache.Keys();
      assert (middle, ok) == Sweep(db, start, first, strict);
      if WellFormed(start) { SweepSucceeds(db, start, first, strict); }
      if !ok { return; }
      if GroupsInScope(scope) {
        report, ok, groups := RebuildGroups(report, strict);
        WalkCounts(db.groups.Keys + db.tombstones.Keys, groups, pageSize);
      }
      assert (cache.Keys(), ok) == Sweep(db, middle, GroupPlan(groups), strict);
      SweepJoins(db, start, first, GroupPlan(groups), strict);
      if WellFormed(start) { SweepSucceeds(db, start, first + GroupPlan(groups), strict); }
      if ok { PlanSize(db, scope, users, groups, pageSize); }
      if ok && (strict || IndexesCover(start)) && WalksComplete(db, pageSize, scope) {
        SweepRebuilds(db, start, scope, users, groups, strict);
      }
    }

    /** ReadFriendSnapshot and ReadBlacklistSnapshot: every cached id, or an error at a malformed one. */
    method ReadRelationshipSnapshot(resource: Resource) returns (ok: bool, loaded: bool, ids: seq<int>)
      requires !resource.Members?
      ensures ok <==> Parsable(cache.Keys(), resource)
      ensures loaded == IsLoaded(cache.Keys(), resource)
      ensures ok ==> Ascending(ids) && SeqSet(ids) == OwnedKeys(cache.Keys(), resource)
    {
      loaded := if resource.Friends? then resource.owner in cache.friendLoaded else resource.owner in cache.blacklistLoaded;
      var raw := if resource.Friends? then Of(cache.friendKeys, resource.owner) else Of(cache.blocked, resource.owner);
      ok := AllPositive(raw);
      ids := InOrder(raw);
    }

    /** auditRelationship: no issue exactly when marker and ids agree with the rows. */
    method AuditRelationship(resource: Resource) returns (ok: bool, issue: Option<Issue>)
      requires PositiveIds(db) && !resource.Members?
      ensures ok <==> Parsable(cache.Keys(), resource)
      ensures ok ==> (issue.None? <==> Clean(db, cache.Keys(), resource))
      ensures issue.Some? ==>
                && issue.value.resource == resource
                && (issue.value.markerMissing <==> !IsLoaded(cache.Keys(), resource))
                && (issue.value.idsDiffer <==> Content(cache.Keys(), resource) != Project(db, resource))
    {
      var loaded, redisIds;
      var mysqlIds := InOrder(if resource.Friends? then Of(db.friendships, resource.owner) else Of(db.blacklist, resource.owner));
      ok, loaded, redisIds := ReadRelationshipSnapshot(resource);
      if !ok { return false, None; }
      var same := SameIds(mysqlIds, redisIds);
      AscendingUnique(mysqlIds, redisIds);
      if loaded && same { return true, None; }
      return true, Some(Issue(resource, !loaded, !same, false, [], [], [], []));
    }

    /** The ids of one set that another lacks, sorted. */
    method Missing(wanted: set<int>, present: set<int>) returns (ids: seq<int>)
      ensures SeqSet(ids) == wanted - present
      ensures ids == [] <==> wanted <= present
    {
      ids := InOrder(wanted - present);
      assert ids != [] ==> ids[0] in SeqSet(ids);
      if exists x :: x in wanted && x !in present {
        var x :| x in wanted && x !in present;
        assert x in SeqSet(ids);
      }
    }

    /** A bare entry for every Set member, then a decoded one for every Hash field. */
    method MergeMembers(setIds: set<int>, info: map<int, Info>) returns (byId: map<int, Member>)
      ensures byId.Keys == setIds + info.Keys
      ensures forall u :: u in byId ==> byId[u] == if u in info then Decode(info[u]) else Member(0, None)
    {
      byId := map[];
      var left := setIds;
      while left != {}
        invariant left <= setIds
        invariant byId.Keys == setIds - left && forall u :: u in byId ==> byId[u] == Member(0, None)
        decreases left
      {
        NonEmpty(left);
        var user :| user in left;
        byId := byId[user := Member(0, None)];
        left := left - {user};
      }
      left := info.Keys;
      while left != {}
        invariant left <= info.Keys
        invariant byId.Keys == setIds + (info.Keys - left)
        invariant forall u :: u in byId ==> byId[u] == if u in info && u !in left then Decode(info[u]) else Member(0, None)
        decreases left
      {
        NonEmpty(left);
        var user :| user in left;
        byId := byId[user := Decode(info[user])];
        left := left - {user};
      }
    }

    /** ReadGroupMemberSnapshot: Set and Hash merged by user id, with what each side lacks. */
    method ReadGroupMemberSnapshot(group: int) returns (ok: bool, snapshot: GroupSnapshot)
      ensures ok <==> Parsable(cache.Keys(), Members(group))
      ensures ok ==> SnapshotOf(cache.Keys(), group, snapshot)
    {
      var setIds, infoIds := Of(cache.groupMembers, group), Of(cache.memberInfo.Keys, group);
      snapshot := GroupSnapshot(MembersLoaded(cache.Keys(), group), map[], [], [], [], []);
      ok := AllPositive(setIds);
      if !ok { return; }
      ok := AllPositive(infoIds);
      if !ok { return; }
      var byId := MergeMembers(setIds, RowsOf(cache.memberInfo, group));
      var missingSet := Missing(infoIds, setIds);
      var missingInfo := Missing(setIds, infoIds);
      var reverse;
      ok, reverse := cache.ReadReverseGroupMembers(group);
      if !ok { return; }
      var missingReverse := Missing(byId.Keys, SeqSet(reverse));
      var unexpected := Missing(SeqSet(reverse), byId.Keys);
      snapshot := GroupSnapshot(snapshot.loaded, byId, missingSet, missingInfo, missingReverse, unexpected);
    }

    /** auditGroup: no issue exactly when marker, Set, Hash and reverse edges agree with the rows. */
    method AuditGroup(group: int) returns (ok: bool, issue: Option<Issue>)
      ensures ok <==> Parsable(cache.Keys(), Members(group))
      ensures ok ==> (issue.None? <==> Clean(db, cache.Keys(), Members(group)))
      ensures issue.Some? ==>
                && issue.value.resource == Members(group)
                && (issue.value.markerMissing <==> !MembersLoaded(cache.Keys(), group))
                && (issue.value.idsDiffer <==> Of(db.members.Keys, group) != CachedUsers(cache.Keys(), group))
                && (issue.value.detailsDiffer <==>
                      && Of(db.members.Keys, group) == CachedUsers(cache.Keys(), group)
                      && exists u :: (group, u) in db.members && CachedMember(cache.Keys(), group, u) != db.members[(group, u)])
                && SeqSet(issue.value.missingSet) == Of(cache.Keys().memberInfo.Keys, group) - Of(cache.Keys().groupMembers, group)
                && SeqSet(issue.value.missingInfo) == Of(cache.Keys().groupMembers, group) - Of(cache.Keys().memberInfo.Keys, group)
                && SeqSet(issue.value.missingReverse) == CachedUsers(cache.Keys(), group) - Of(cache.Keys().userGroups, group)
                && SeqSet(issue.value.unexpectedReverse) == Of(cache.Keys().userGroups, group) - CachedUsers(cache.Keys(), group)
    {
      var mysqlMembers, snapshot := RowsOf(db.members, group), *;
      ok, snapshot := ReadGroupMemberSnapshot(group);
      if !ok { return false, None; }
      var mysqlIds := InOrder(mysqlMembers.Keys);
      var redisIds := InOrder(snapshot.members.Keys);
      var sameIds := SameIds(mysqlIds, redisIds);
      AscendingUnique(mysqlIds, redisIds);
      assert sameIds <==> mysqlMembers.Keys == snapshot.members.Keys;
      var sameDetails := true;
      if sameIds { sameDetails := SameDetails(mysqlMembers, snapshot.members); }
      var clean := snapshot.loaded && sameIds && sameDetails
        && |snapshot.missingSet| == 0 && |snapshot.missingInfo| == 0
        && |snapshot.missingReverse| == 0 && |snapshot.unexpectedReverse| == 0;
      assert sameIds && sameDetails <==> snapshot.members == mysqlMembers;
      NoReasonMeansClean(db, cache.Keys(), group, snapshot);
      DetailsDiffer(db, cache.Keys(), group, snapshot);
      if clean { return true, None; }
      return true, Some(Issue(Members(group), !snapshot.loaded, !sameIds, !sameDetails,
                              snapshot.missingSet, snapshot.missingInfo, snapshot.missingReverse, snapshot.unexpectedReverse));
    }

    /** One audited resource added to the report. */
    method Check(resource: Resource, report: AuditReport) returns (next: AuditReport, ok: bool)
      requires PositiveIds(db)
      ensures ok <==> Parsable(cache.Keys(), resource)
      ensures ok ==> Follows(db, cache.Keys(), report, next, [resource])
    {
      var issue;
      if resource.Members? {
        ok, issue := AuditGroup(resource.group);
      } else {
        ok, issue := AuditRelationship(resource);
      }
      if !ok { return report, false; }
      assert [resource][1..] == [];
      next := report.(checked := report.checked + 1);
      if issue.Some? {
        next := next.(mismatches := next.mismatches + 1, issues := next.issues + [issue.value]);
      }
    }

    method AuditUser(scope: Scope, user: int, report: AuditReport) returns (next: AuditReport, ok: bool)
      requires PositiveIds(db)
      ensures (forall r :: r in UserPlan(scope, [user]) ==> Parsable(cache.Keys(), r)) ==> ok
      ensures ok ==> Follows(db, cache.Keys(), report, next, UserPlan(scope, [user]))
    {
      ghost var rd, plan := cache.Keys(), UserPlan(scope, [user]);
      assert UserPlan(scope, [user][1..]) == [];
      next, ok := report, true;
      ghost var done: seq<Resource> := [];
      if scope.FriendsScope? || scope.AllScope? {
        assert plan[0] == Friends(user);
        next, ok := Check(Friends(user), next);
        if !ok { return; }
        done := [Friends(user)];
      }
      if scope.BlacklistsScope? || scope.AllScope? {
        assert plan[|done|] == Blacklist(user);
        ghost var middle := next;
        next, ok := Check(Blacklist(user), next);
        if !ok { return; }
        FollowsTrans(db, rd, report, middle, next, done, [Blacklist(user)]);
        done := done + [Blacklist(user)];
      }
      assert done == plan;
    }

    method AuditUsers(scope: Scope, report: AuditReport) returns (next: AuditReport, ok: bool, ghost visited: seq<int>)
      requires PositiveIds(db) && pageSize > 0
      ensures Walked(db.users, visited, pageSize)
      ensures (forall r :: r in UserPlan(scope, visited) ==> Parsable(cache.Keys(), r)) ==> ok
      ensures ok ==> Follows(db, cache.Keys(), report, next, UserPlan(scope, visited))
    {
      var owners := ForEachOwner(db.users, pageSize);
      visited, next, ok := owners, report, true;
      for i := 0 to |owners|
        invariant Follows(db, cache.Keys(), report, next, UserPlan(scope, owners[..i]))
      {
        assert owners[..i + 1] == owners[..i] + [owners[i]];
        UserPlanSplits(scope, owners[..i], [owners[i]]);
        assert owners == owners[..i + 1] + owners[i + 1..];
        UserPlanSplits(scope, owners[..i + 1], owners[i + 1..]);
        ghost var before := next;
        next, ok := AuditUser(scope, owners[i], next);
        if !ok { return; }
        FollowsTrans(db, cache.Keys(), report, before, next, UserPlan(scope, owners[..i]), UserPlan(scope, [owners[i]]));
      }
      assert owners[..|owners|] == owners;
    }

    method AuditGroups(report: AuditReport) returns (next: AuditReport, ok: bool, ghost visited: seq<int>)
      requires PositiveIds(db) && pageSize > 0
      ensures Walked(db.groups.Keys + db.tombstones.Keys, visited, pageSize)
      ensures (forall r :: r in GroupPlan(visited) ==> Parsable(cache.Keys(), r)) ==> ok
      ensures ok ==> Follows(db, cache.Keys(), report, next, GroupPlan(visited))
    {
      var owners := ForEachOwner(db.groups.Keys + db.tombstones.Keys, pageSize);
      visited, next, ok := owners, report, true;
      for i := 0 to |owners|
        invariant Follows(db, cache.Keys(), report, next, GroupPlan(owners[..i]))
      {
        assert GroupPlan(owners[..i + 1]) == GroupPlan(owners[..i]) + [Members(owners[i])];
        assert GroupPlan(owners)[i] == Members(owners[i]);
        ghost var before := next;
        next, ok := Check(Members(owners[i]), next);
        if !ok { return; }
        FollowsTrans(db, cache.Keys(), report, before, next, GroupPlan(owners[..i]), [Members(owners[i])]);
      }
      assert owners[..|owners|] == owners;
    }

    /** Audit counts exactly the resources that are not clean, so a complete walk reports no mismatch if and
        only if every resource in scope is clean. */
    method Audit(scope: Scope) returns (report: AuditReport, ok: bool)
      requires PositiveIds(db) && pageSize > 0
      ensures (forall r :: InScope(scope, r) && HasOwner(db, r) ==> Parsable(cache.Keys(), r)) ==> ok
      ensures ok ==> report.mismatches == |report.issues| <= report.checked <= ScopeSize(db, scope)
      ensures ok ==> (report.checked == ScopeSize(db, scope) <==> WalksComplete(db, pageSize, scope))
      ensures ok ==> forall issue :: issue in report.issues ==>
                InScope(scope, issue.resource) && HasOwner(db, issue.resource) && !Clean(db, cache.Keys(), issue.resource)
      ensures ok && WalksComplete(db, pageSize, scope) ==>
                (report.mismatches == 0 <==>
                   forall r :: InScope(scope, r) && HasOwner(db, r) ==> Clean(db, cache.Keys(), r))
    {
      ghost var rd := cache.Keys();
      ghost var users: seq<int>, groups: seq<int> := [], [];
      var empty := AuditReport(0, 0, []);
      report, ok := empty, true;
      if UsersInScope(scope) {
        report, ok, users := AuditUsers(scope, report);
        PlanInScope(db, scope, users, groups);
        if !ok { return; }
      }
      ghost var middle := report;
      if GroupsInScope(scope) {
        report, ok, groups := AuditGroups(report);
        PlanInScope(db, scope, users, groups);
        if !ok { return; }
      }
      FollowsTrans(db, rd, empty, middle, report, UserPlan(scope, users), GroupPlan(groups));
      AuditCounts(db, rd, scope, users, groups, report, pageSize);
    }

    /** The operator's two runs in a row, the second only if the first succeeds. From well-formed content,
        whatever it held, both succeed; when the walks are complete the cache then shows truth all over the
        scope, is untouched elsewhere, and the audit has checked every resource of the scope and found nothing. */
    method RebuildThenAudit(scope: Scope) returns (rebuilt: RebuildReport, rebuildOk: bool, report: AuditReport, auditOk: bool)
      requires DbInv(db) && pageSize > 0
      modifies cache
      ensures WellFormed(old(cache.Keys())) ==> rebuildOk
      ensures WellFormed(old(cache.Keys())) && WalksComplete(db, pageSize, scope) ==> auditOk
      ensures rebuildOk && WalksComplete(db, pageSize, scope) ==>
                Rebuilt(db, old(cache.Keys()), cache.Keys(), scope) && rebuilt.resources == ScopeSize(db, scope)
      ensures rebuildOk && auditOk && WalksComplete(db, pageSize, scope) ==>
                report == AuditReport(ScopeSize(db, scope), 0, [])
      ensures auditOk ==> rebuildOk
    {
      IdsArePositive(db);
      ghost var start := cache.Keys();
      auditOk, report := false, AuditReport(0, 0, []);
      rebuilt, rebuildOk := Rebuild(scope, true);
      if !rebuildOk { return; }
      if WalksComplete(db, pageSize, scope) {
        RebuiltIsClean(db, start, cache.Keys(), scope);
        if WellFormed(start) { RebuiltIsParsable(db, start, cache.Keys(), scope); }
      }
      report, auditOk := Audit(scope);
    }

    // ---- on-demand loading ----

    /** ensureLoaded: a loaded projection is trusted, a missing one is read from truth. */
    method EnsureLoaded(resource: Resource) returns (ok: bool)
      requires PositiveIds(db)
      modifies cache
      ensures ok <==> IsLoaded(old(cache.Keys()), resource) || Scannable(old(cache.Keys()), resource)
      ensures cache.Keys() == Loaded(db, old(cache.Keys()), resource)
    {
      if IsLoaded(cache.Keys(), resource) { return true; }
      ok := ReconcileCurrent(resource);
    }

    /** EnsurePrivateAccess: every projection the private script reads is loaded, the missing ones from
        truth, and nothing else changes. So, if no stale friend key of the two escapes their loads and those
        that were loaded agreed with MySQL, the script now refuses exactly as MySQL does, even after a flush. */
    method EnsurePrivateAccess(sender: int, receiver: int) returns (access: Access)
      requires PositiveIds(db)
      modifies cache
      ensures access == BadId <==> sender <= 0 || receiver <= 0
      ensures access == BadId ==> cache.Keys() == old(cache.Keys())
      ensures WellFormed(old(cache.Keys())) && access != BadId ==> access == Ready
      ensures access == Ready && PairLoadsExactly(db, old(cache.Keys()), sender, receiver) ==>
                Loads(db, old(cache.Keys()), cache.Keys(), PrivateResources(sender, receiver))
      ensures access == Ready && PairLoadsExactly(db, old(cache.Keys()), sender, receiver)
              && AgreeIfLoaded(db, old(cache.Keys()), PrivateResources(sender, receiver)) ==>
                PrivateVerdict(cache.Keys(), sender, receiver) == PrivateTruth(db, sender, receiver)
    {
      if sender <= 0 || receiver <= 0 { return BadId; }
      ghost var start, plan := cache.Keys(), PrivatePlan(sender, receiver);
      var owners := [sender, receiver];
      var i := 0;
      while i < |owners|
        invariant 0 <= i <= |owners|
        invariant LoadAll(db, cache.Keys(), plan[2 * i..]) == LoadAll(db, start, plan)
        decreases |owners| - i
      {
        assert plan[2 * i..][1..] == plan[2 * i + 1..] && plan[2 * i + 1..][1..] == plan[2 * i + 2..];
        var ok := EnsureLoaded(Friends(owners[i]));
        if ok { ok := EnsureLoaded(Blacklist(owners[i])); }
        if !ok {
          if WellFormed(start) { LoadAllSucceeds(db, start, plan); }
          return CacheFailed;
        }
        i := i + 1;
      }
      assert plan[4..] == [];
      if PairLoadsExactly(db, start, sender, receiver) { PrivateLoads(db, start, sender, receiver); }
      return Ready;
    }

    /** EnsureGroupAccess: a tombstone refuses before Redis is even read; a missing group never causes a
        load; otherwise the roster is loaded and, if it agreed when loaded, the script decides as MySQL does. */
    method EnsureGroupAccess(group: int) returns (access: Access)
      requires PositiveIds(db)
      modifies cache
      ensures access == BadId <==> group <= 0
      ensures access == GroupDissolved <==> group in db.tombstones
      ensures access == NoSuchGroup <==>
                group > 0 && group !in db.groups && group !in db.tombstones && !MembersLoaded(old(cache.Keys()), group)
      ensures access != Ready ==> cache.Keys() == old(cache.Keys())
      ensures WellFormed(old(cache.Keys())) ==> access != CacheFailed
      ensures access == Ready ==> Loads(db, old(cache.Keys()), cache.Keys(), {Members(group)})
      ensures access == Ready && AgreeIfLoaded(db, old(cache.Keys()), {Members(group)}) ==>
                forall user, now :: 0 <= now ==>
                  GroupVerdict(cache.Keys(), group, user, now) == GroupTruth(db, group, user, now)
    {
      if group <= 0 { return BadId; }
      if group in db.tombstones { return GroupDissolved; }
      ghost var start := cache.Keys();
      if WellFormed(start) && group in db.groups { LoadAllSucceeds(db, start, [Members(group)]); }
      if !MembersLoaded(cache.Keys(), group) {
        if group !in db.groups { return NoSuchGroup; }
        var ok := EnsureLoaded(Members(group));
        if !ok { return CacheFailed; }
      }
      LoadsOne(db, start, Members(group));
      if AgreeIfLoaded(db, start, {Members(group)}) { GroupLoadsAgrees(db, start, cache.Keys(), group); }
      return Ready;
    }
  }

  /** Redis after ensureLoaded. */
  function Loaded(db: Db, rd: Redis, resource: Resource): Redis {
    if IsLoaded(rd, resource) || !Scannable(rd, resource) then rd else Reconciled(db, rd, resource)
  }

  /** ensureLoaded for one resource after another, until one fails. */
  function LoadAll(db: Db, rd: Redis, resources: seq<Resource>): (Redis, bool)
    decreases |resources|
  {
    if resources == [] then (rd, true)
    else if IsLoaded(rd, resources[0]) || Scannable(rd, resources[0]) then
      LoadAll(db, Loaded(db, rd, resources[0]), resources[1..])
    else (rd, false)
  }

  function PrivatePlan(sender: int, receiver: int): seq<Resource> {
    [Friends(sender), Blacklist(sender), Friends(receiver), Blacklist(receiver)]
  }

  function PrivateResources(sender: int, receiver: int): set<Resource> {
    {Friends(sender), Blacklist(sender), Friends(receiver), Blacklist(receiver)}
  }

  /** The resource is loaded: as it was if it was loaded before, otherwise from truth, and then with a complete
      index if its keys were covered. */
  ghost predicate LoadedNow(db: Db, start: Redis, rd: Redis, resource: Resource) {
    && IsLoaded(rd, resource)
    && if IsLoaded(start, resource) then SameFor(start, rd, resource)
       else
         && Shows(rd, resource, Project(db, resource))
         && (Covered(start, resource) ==> Installed(rd, resource, Project(db, resource)))
  }

  /** The named resources are loaded, and nothing else changed. */
  ghost predicate Loads(db: Db, start: Redis, rd: Redis, done: set<Resource>) {
    && (forall r :: r in done ==> LoadedNow(db, start, rd, r))
    && (forall r: Resource :: r !in done ==> SameFor(start, rd, r))
  }

  /** The friend lists of both users are loaded already, or no stale key of theirs escapes the load. */
  predicate PairLoadsExactly(db: Db, rd: Redis, sender: int, receiver: int) {
    && (IsLoaded(rd, Friends(sender)) || LoadIsExact(db, rd, Friends(sender)))
    && (IsLoaded(rd, Friends(receiver)) || LoadIsExact(db, rd, Friends(receiver)))
  }

  /** Complete marked indexes are enough for every pair. */
  lemma CompleteIndexesLoadExactly(db: Db, rd: Redis, sender: int, receiver: int)
    requires IndexesCover(rd)
    ensures PairLoadsExactly(db, rd, sender, receiver)
  {
    LegacyCovers(rd, Friends(sender));
    LegacyCovers(rd, Friends(receiver));
    CoveredIsExact(db, rd, Friends(sender));
    CoveredIsExact(db, rd, Friends(receiver));
  }

  ghost predicate AgreeIfLoaded(db: Db, rd: Redis, resources: set<Resource>) {
    forall r :: r in resources && IsLoaded(rd, r) ==> Shows(rd, r, Project(db, r))
  }

  lemma LoadsNothing(db: Db, start: Redis)
    ensures Loads(db, start, start, {})
  {
  }

  lemma LoadedNowFrame(db: Db, start: Redis, rd: Redis, after: Redis, resource: Resource)
    requires LoadedNow(db, start, rd, resource) && SameFor(rd, after, resource)
    ensures LoadedNow(db, start, after, resource)
  {
    if IsLoaded(start, resource) { SameForTrans(start, rd, after, resource); }
    InstalledFrame(rd, after, resource, Project(db, resource));
  }

  /** One more resource loaded, with every other one left alone. */
  lemma LoadsJoin(db: Db, start: Redis, rd: Redis, after: Redis, done: set<Resource>, resource: Resource)
    requires Loads(db, start, rd, done)
    requires LoadedNow(db, start, after, resource)
    requires forall r: Resource :: r != resource ==> SameFor(rd, after, r)
    ensures Loads(db, start, after, done + {resource})
  {
    forall r: Resource | r != resource
      ensures r !in done ==> SameFor(start, after, r)
      ensures r in done ==> LoadedNow(db, start, after, r)
    {
      if r in done { LoadedNowFrame(db, start, rd, after, r); } else { SameForTrans(start, rd, after, r); }
    }
  }

  /** One load from truth. */
  lemma LoadsMissing(db: Db, start: Redis, rd: Redis, done: set<Resource>, resource: Resource)
    requires Loads(db, start, rd, done)
    requires !IsLoaded(rd, resource) && LoadIsExact(db, rd, resource)
    ensures Loads(db, start, Reconciled(db, rd, resource), done + {resource})
  {
    var after := Reconciled(db, rd, resource);
    assert resource !in done && SameFor(start, rd, resource);
    ReconciledShowsIff(db, rd, resource);
    ExactFrame(db, start, rd, resource);
    if Covered(rd, resource) { ReconciledInstalls(db, rd, resource); }
    forall r: Resource | r != resource
      ensures SameFor(rd, after, r)
    {
      BulkFrame(db, rd, resource, false, r);
    }
    LoadsJoin(db, start, rd, after, done, resource);
  }

  lemma LoadsPresent(db: Db, start: Redis, rd: Redis, done: set<Resource>, resource: Resource)
    requires Loads(db, start, rd, done)
    requires IsLoaded(rd, resource)
    ensures Loads(db, start, rd, done + {resource})
  {
  }

  lemma LoadKeepsExact(db: Db, rd: Redis, resource: Resource, resources: seq<Resource>)
    requires forall r :: r in resources ==> IsLoaded(rd, r) || LoadIsExact(db, rd, r)
    ensures var after := Reconciled(db, rd, resource);
            forall r :: r in resources ==> IsLoaded(after, r) || LoadIsExact(db, after, r)
  {
    var after := Reconciled(db, rd, resource);
    ReconciledShowsIff(db, rd, resource);
    forall r | r in resources && r != resource
      ensures IsLoaded(after, r) || LoadIsExact(db, after, r)
    {
      BulkFrame(db, rd, resource, false, r);
      ExactFrame(db, rd, after, r);
    }
  }

  lemma {:induction false} LoadAllLoads(db: Db, start: Redis, rd: Redis, done: set<Resource>, resources: seq<Resource>)
    requires Loads(db, start, rd, done)
    requires forall r :: r in resources ==> IsLoaded(rd, r) || LoadIsExact(db, rd, r)
    requires LoadAll(db, rd, resources).1
    ensures Loads(db, start, LoadAll(db, rd, resources).0, NamedToo(done, resources))
    decreases |resources|
  {
    NamedFirst(done, resources);
    if resources != [] {
      var r := resources[0];
      if IsLoaded(rd, r) {
        LoadsPresent(db, start, rd, done, r);
      } else {
        LoadsMissing(db, start, rd, done, r);
        LoadKeepsExact(db, rd, r, resources);
      }
      LoadAllLoads(db, start, Loaded(db, rd, r), done + {r}, resources[1..]);
    }
  }

  lemma {:induction false} LoadAllSucceeds(db: Db, rd: Redis, resources: seq<Resource>)
    requires PositiveIds(db) && WellFormed(rd)
    ensures LoadAll(db, rd, resources).1
    ensures resources != [] ==> Scannable(rd, resources[0])
    decreases |resources|
  {
    if resources != [] {
      BulkKeepsWellFormed(db, rd, resources[0], false);
      LoadAllSucceeds(db, Loaded(db, rd, resources[0]), resources[1..]);
    }
  }

  lemma LoadsOne(db: Db, rd: Redis, resource: Resource)
    requires IsLoaded(rd, resource) || LoadIsExact(db, rd, resource)
    requires IsLoaded(rd, resource) || Scannable(rd, resource)
    ensures Loads(db, rd, Loaded(db, rd, resource), {resource})
  {
    LoadsNothing(db, rd);
    LoadAllLoads(db, rd, rd, {}, [resource]);
    assert NamedToo({}, [resource]) == {resource};
    assert [resource][1..] == [];
  }

  lemma PrivateLoads(db: Db, rd: Redis, sender: int, receiver: int)
    requires PairLoadsExactly(db, rd, sender, receiver)
    requires LoadAll(db, rd, PrivatePlan(sender, receiver)).1
    ensures var after, resources := LoadAll(db, rd, PrivatePlan(sender, receiver)).0, PrivateResources(sender, receiver);
            && Loads(db, rd, after, resources)
            && (AgreeIfLoaded(db, rd, resources) ==> PrivateVerdict(after, sender, receiver) == PrivateTruth(db, sender, receiver))
  {
    var plan, resources := PrivatePlan(sender, receiver), PrivateResources(sender, receiver);
    BlacklistIsExact(db, rd, sender);
    BlacklistIsExact(db, rd, receiver);
    LoadsNothing(db, rd);
    LoadAllLoads(db, rd, rd, {}, plan);
    assert NamedToo({}, plan) == resources;
    if AgreeIfLoaded(db, rd, resources) { LoadsAgrees(db, rd, LoadAll(db, rd, plan).0, resources, sender, receiver); }
  }

  lemma LoadsAgrees(db: Db, start: Redis, rd: Redis, done: set<Resource>, sender: int, receiver: int)
    requires Loads(db, start, rd, done) && AgreeIfLoaded(db, start, done)
    requires done == PrivateResources(sender, receiver)
    ensures PrivateVerdict(rd, sender, receiver) == PrivateTruth(db, sender, receiver)
  {
    forall r | r in done
      ensures Agrees(rd, db, r)
    {
    }
    PrivateAgrees(rd, db, sender, receiver);
  }

  lemma GroupLoadsAgrees(db: Db, start: Redis, rd: Redis, group: int)
    requires Loads(db, start, rd, {Members(group)}) && AgreeIfLoaded(db, start, {Members(group)})
    ensures forall user, now :: 0 <= now ==> GroupVerdict(rd, group, user, now) == GroupTruth(db, group, user, now)
  {
    var r := Members(group);
    assert r in {Members(group)};
    assert Shows(rd, r, Project(db, r));
    forall user, now: int | 0 <= now
      ensures GroupVerdict(rd, group, user, now) == GroupTruth(db, group, user, now)
    {
      GroupAgrees(rd, db, group, user, now);
    }
  }

  lemma RebuiltIsClean(db: Db, start: Redis, rd: Redis, scope: Scope)
    requires DbInv(db)
    requires Rebuilt(db, start, rd, scope)
    ensures forall r :: InScope(scope, r) && HasOwner(db, r) ==> Clean(db, rd, r)
  {
    forall r: Resource | InScope(scope, r) && HasOwner(db, r)
      ensures Clean(db, rd, r)
    {
      InstalledIsClean(db, rd, r);
    }
  }

  lemma RebuiltIsParsable(db: Db, start: Redis, rd: Redis, scope: Scope)
    requires PositiveIds(db) && WellFormed(rd)
    requires Rebuilt(db, start, rd, scope)
    ensures forall r :: InScope(scope, r) && HasOwner(db, r) ==> Parsable(rd, r)
  {
    forall r: Resource | InScope(scope, r) && HasOwner(db, r)
      ensures Parsable(rd, r)
    {
      InstalledIsParsable(db, rd, r);
    }
  }

  lemma PlanInScope(db: Db, scope: Scope, users: seq<int>, groups: seq<int>)
    requires forall u :: u in users ==> u in db.users
    requires groups != [] ==> GroupsInScope(scope)
    requires forall g :: g in groups ==> g in db.groups || g in db.tombstones
    ensures forall r :: r in UserPlan(scope, users) + GroupPlan(groups) ==> InScope(scope, r) && HasOwner(db, r)
  {
    forall r | r in UserPlan(scope, users) + GroupPlan(groups)
      ensures InScope(scope, r) && HasOwner(db, r)
    {
      UserPlanMembers(scope, users, r);
      GroupPlanMembers(groups, r);
    }
  }

  lemma {:induction false} UserPlanSize(scope: Scope, users: seq<int>)
    ensures |UserPlan(scope, users)| == if scope.AllScope? then 2 * |users| else if UsersInScope(scope) then |users| else 0
    decreases |users|
  {
    if users != [] { UserPlanSize(scope, users[1..]); }
  }

  /** A walk plans at most one entry per resource of the scope, and all of them exactly when it is complete. */
  lemma PlanSize(db: Db, scope: Scope, users: seq<int>, groups: seq<int>, pageSize: int)
    requires if UsersInScope(scope) then Walked(db.users, users, pageSize) else users == []
    requires if GroupsInScope(scope) then Walked(db.groups.Keys + db.tombstones.Keys, groups, pageSize) else groups == []
    ensures var size := |UserPlan(scope, users) + GroupPlan(groups)|;
            size <= ScopeSize(db, scope) && (size == ScopeSize(db, scope) <==> WalksComplete(db, pageSize, scope))
  {
    UserPlanSize(scope, users);
    if UsersInScope(scope) { WalkCounts(db.users, users, pageSize); }
    if GroupsInScope(scope) { WalkCounts(db.groups.Keys + db.tombstones.Keys, groups, pageSize); }
  }

  lemma AuditCounts(db: Db, rd: Redis, scope: Scope, users: seq<int>, groups: seq<int>, report: AuditReport, pageSize: int)
    requires if UsersInScope(scope) then Walked(db.users, users, pageSize) else users == []
    requires if GroupsInScope(scope) then Walked(db.groups.Keys + db.tombstones.Keys, groups, pageSize) else groups == []
    requires Follows(db, rd, AuditReport(0, 0, []), report, UserPlan(scope, users) + GroupPlan(groups))
    ensures report.mismatches == |report.issues| <= report.checked <= ScopeSize(db, scope)
    ensures report.checked == ScopeSize(db, scope) <==> WalksComplete(db, pageSize, scope)
    ensures forall issue :: issue in report.issues ==>
              InScope(scope, issue.resource) && HasOwner(db, issue.resource) && !Clean(db, rd, issue.resource)
    ensures WalksComplete(db, pageSize, scope) ==>
              (report.mismatches == 0 <==> forall r :: InScope(scope, r) && HasOwner(db, r) ==> Clean(db, rd, r))
  {
    var plan := UserPlan(scope, users) + GroupPlan(groups);
    PlanInScope(db, scope, users, groups);
    PlanSize(db, scope, users, groups, pageSize);
    DirtySize(db, rd, plan);
    assert Named(report.issues) == Dirty(db, rd, plan);
    forall issue | issue in report.issues
      ensures issue.resource in plan && !Clean(db, rd, issue.resource)
    {
      var i :| 0 <= i < |report.issues| && report.issues[i] == issue;
      assert Named(report.issues)[i] == issue.resource;
      DirtyMembers(db, rd, plan, issue.resource);
    }
    if WalksComplete(db, pageSize, scope) {
      forall r: Resource | InScope(scope, r) && HasOwner(db, r)
        ensures r in plan && (r in Dirty(db, rd, plan) <==> !Clean(db, rd, r))
      {
        PlanComplete(db, scope, users, groups, r);
        DirtyMembers(db, rd, plan, r);
      }
      if report.mismatches != 0 {
        assert Dirty(db, rd, plan)[0] in Dirty(db, rd, plan);
        DirtyMembers(db, rd, plan, Dirty(db, rd, plan)[0]);
      }
    }
  }

  lemma {:induction false} DirtySize(db: Db, rd: Redis, plan: seq<Resource>)
    ensures |Dirty(db, rd, plan)| <= |plan|
    decreases |plan|
  {
    if plan != [] { DirtySize(db, rd, plan[1..]); }
  }

  lemma PlanComplete(db: Db, scope: Scope, users: seq<int>, groups: seq<int>, r: Resource)
    requires SeqSet(users) == if UsersInScope(scope) then db.users else {}
    requires SeqSet(groups) == if GroupsInScope(scope) then db.groups.Keys + db.tombstones.Keys else {}
    ensures r in UserPlan(scope, users) + GroupPlan(groups) <==> InScope(scope, r) && HasOwner(db, r)
  {
    UserPlanMembers(scope, users, r);
    GroupPlanMembers(groups, r);
    assert r.Members? ==> (r.group in groups <==> r.group in SeqSet(groups));
    assert !r.Members? ==> (r.owner in users <==> r.owner in SeqSet(users));
  }

  // ---- what an audit reports ----

  /** The resources of a walk that are not clean, in order. */
  function Dirty(db: Db, rd: Redis, plan: seq<Resource>): seq<Resource>
    decreases |plan|
  {
    if plan == [] then []
    else (if Clean(db, rd, plan[0]) then [] else [plan[0]]) + Dirty(db, rd, plan[1..])
  }

  lemma {:induction false} DirtySplits(db: Db, rd: Redis, first: seq<Resource>, second: seq<Resource>)
    ensures Dirty(db, rd, first + second) == Dirty(db, rd, first) + Dirty(db, rd, second)
    decreases |first|
  {
    if first == [] {
      assert first + second == second;
    } else {
      assert (first + second)[1..] == first[1..] + second;
      DirtySplits(db, rd, first[1..], second);
    }
  }

  lemma {:induction false} DirtyMembers(db: Db, rd: Redis, plan: seq<Resource>, r: Resource)
    ensures r in Dirty(db, rd, plan) <==> r in plan && !Clean(db, rd, r)
    decreases |plan|
  {
    if plan != [] { DirtyMembers(db, rd, plan[1..], r); }
  }

  function Named(issues: seq<Issue>): (names: seq<Resource>)
    ensures |names| == |issues|
  {
    seq(|issues|, i requires 0 <= i < |issues| => issues[i].resource)
  }

  /** A report extended by the walk over `plan`. */
  predicate Follows(db: Db, rd: Redis, before: AuditReport, after: AuditReport, plan: seq<Resource>) {
    && after.checked == before.checked + |plan|
    && after.mismatches - before.mismatches == |Dirty(db, rd, plan)|
    && Named(after.issues) == Named(before.issues) + Dirty(db, rd, plan)
  }

  lemma FollowsTrans(db: Db, rd: Redis, a: AuditReport, b: AuditReport, c: AuditReport, first: seq<Resource>, second: seq<Resource>)
    requires Follows(db, rd, a, b, first) && Follows(db, rd, b, c, second)
    ensures Follows(db, rd, a, c, first + second)
  {
    DirtySplits(db, rd, first, second);
  }

  lemma InstalledIsParsable(db: Db, rd: Redis, resource: Resource)
    requires PositiveIds(db) && WellFormed(rd)
    requires Installed(rd, resource, Project(db, resource))
    ensures Parsable(rd, resource)
  {
    if resource.Members? { assert RowsOf(rd.memberInfo, resource.group).Keys == Of(rd.memberInfo.Keys, resource.group); }
  }

  /** No cached id that an audit of the resource would parse is malformed. */
  predicate Parsable(rd: Redis, resource: Resource) {
    match resource
    case Friends(o) => forall f :: f in Of(rd.friendKeys, o) ==> f > 0
    case Blacklist(o) => forall b :: b in Of(rd.blocked, o) ==> b > 0
    case Members(g) =>
      && (forall u :: u in Of(rd.groupMembers, g) ==> u > 0)
      && (forall u :: u in Of(rd.memberInfo.Keys, g) ==> u > 0)
      && (forall p :: p in rd.userGroups ==> p.1 > 0)
  }

  predicate SnapshotOf(rd: Redis, group: int, snapshot: GroupSnapshot) {
    var inSet, inHash := Of(rd.groupMembers, group), Of(rd.memberInfo.Keys, group);
    && snapshot.loaded == MembersLoaded(rd, group)
    && snapshot.members.Keys == inSet + inHash
    && (forall u :: u in snapshot.members ==>
          snapshot.members[u] == if u in inHash then Decode(rd.memberInfo[(group, u)]) else Member(0, None))
    && SeqSet(snapshot.missingSet) == inHash - inSet && (snapshot.missingSet == [] <==> inHash <= inSet)
    && SeqSet(snapshot.missingInfo) == inSet - inHash && (snapshot.missingInfo == [] <==> inSet <= inHash)
    && SeqSet(snapshot.missingReverse) == inSet + inHash - Of(rd.userGroups, group)
    && (snapshot.missingReverse == [] <==> inSet + inHash <= Of(rd.userGroups, group))
    && SeqSet(snapshot.unexpectedReverse) == Of(rd.userGroups, group) - (inSet + inHash)
    && (snapshot.unexpectedReverse == [] <==> Of(rd.userGroups, group) <= inSet + inHash)
  }

  /** The users a group's Set or Hash names. */
  function CachedUsers(rd: Redis, group: int): set<int> {
    Of(rd.groupMembers, group) + Of(rd.memberInfo.Keys, group)
  }

  /** What the cache says of one of them: a user without Hash field has role 0 and no deadline. */
  function CachedMember(rd: Redis, group: int, user: int): Member {
    if (group, user) in rd.memberInfo then Decode(rd.memberInfo[(group, user)]) else Member(0, None)
  }

  /** Ids and details as the audit compares them, in terms of the rows and the keys. */
  lemma DetailsDiffer(db: Db, rd: Redis, group: int, snapshot: GroupSnapshot)
    requires SnapshotOf(rd, group, snapshot)
    ensures snapshot.members.Keys == CachedUsers(rd, group) && RowsOf(db.members, group).Keys == Of(db.members.Keys, group)
    ensures Of(db.members.Keys, group) == CachedUsers(rd, group) ==>
              (snapshot.members != RowsOf(db.members, group) <==>
                 exists u :: (group, u) in db.members && CachedMember(rd, group, u) != db.members[(group, u)])
  {
    var rows := RowsOf(db.members, group);
    SameSet(rows.Keys, Of(db.members.Keys, group));
    if rows.Keys == snapshot.members.Keys && forall u :: (group, u) in db.members ==> CachedMember(rd, group, u) == db.members[(group, u)] {
      assert forall u :: u in rows ==> (group, u) in db.members;
      SameMap(snapshot.members, rows);
    }
  }

  lemma NoReasonMeansClean(db: Db, rd: Redis, group: int, snapshot: GroupSnapshot)
    requires SnapshotOf(rd, group, snapshot)
    ensures Clean(db, rd, Members(group)) <==>
              && snapshot.loaded && snapshot.members == RowsOf(db.members, group)
              && snapshot.missingSet == [] && snapshot.missingInfo == []
              && snapshot.missingReverse == [] && snapshot.unexpectedReverse == []
  {
    if Clean(db, rd, Members(group)) { CleanMembers(db, rd, group, snapshot); }
    if snapshot.members == RowsOf(db.members, group) { MembersClean(db, rd, group, snapshot); }
  }

  lemma CleanMembers(db: Db, rd: Redis, group: int, snapshot: GroupSnapshot)
    requires SnapshotOf(rd, group, snapshot) && GroupClean(db, rd, group)
    ensures snapshot.members == RowsOf(db.members, group)
  {
    var rows := RowsOf(db.members, group);
    assert rows.Keys == Of(db.members.Keys, group);
    assert forall u :: u in snapshot.members ==> snapshot.members[u] == rows[u];
    SameMap(snapshot.members, rows);
  }

  lemma MembersClean(db: Db, rd: Redis, group: int, snapshot: GroupSnapshot)
    requires SnapshotOf(rd, group, snapshot) && snapshot.members == RowsOf(db.members, group)
    ensures Of(db.members.Keys, group) == snapshot.members.Keys
    ensures forall u :: u in Of(db.members.Keys, group) ==> snapshot.members[u] == db.members[(group, u)]
  {
    assert RowsOf(db.members, group).Keys == Of(db.members.Keys, group);
  }

  method AllPositive(ids: set<int>) returns (all: bool)
    ensures all <==> forall x :: x in ids ==> x > 0
  {
    var left := ids;
    while left != {}
      invariant left <= ids
      invariant forall x :: x in ids && x !in left ==> x > 0
      decreases left
    {
      NonEmpty(left);
      var x :| x in left;
      if x <= 0 { return false; }
      left := left - {x};
    }
    return true;
  }

  method SameIds(left: seq<int>, right: seq<int>) returns (same: bool)
    ensures same <==> left == right
  {
    if |left| != |right| { return false; }
    for i := 0 to |left|
      invariant left[..i] == right[..i]
    {
      if left[i] != right[i] { return false; }
    }
    return true;
  }

  method SameDetails(left: map<int, Member>, right: map<int, Member>) returns (same: bool)
    ensures same <==> left == right
  {
    if |left| != |right| { return false; }
    var todo := left.Keys;
    while todo != {}
      invariant todo <= left.Keys
      invariant forall u :: u in left && u !in todo ==> u in right && left[u] == right[u]
      decreases todo
    {
      NonEmpty(todo);
      var u :| u in todo;
      if u !in right || left[u] != right[u] { return false; }
      todo := todo - {u};
    }
    assert |left.Keys| == |right.Keys|;
    NonEmpty(left.Keys - right.Keys);
    SubsetSize(left.Keys, right.Keys);
    SameMap(left, right);
    return true;
  }

  lemma NoIds(ids: seq<int>)
    ensures SeqSet(ids) == {} <==> ids == []
  {
    if ids != [] { assert ids[0] in SeqSet(ids); }
  }

  /** Sorted lists without repetition are equal exactly when they hold the same ids. */
  lemma {:induction false} AscendingUnique(a: seq<int>, b: seq<int>)
    requires Ascending(a) && Ascending(b)
    ensures a == b <==> SeqSet(a) == SeqSet(b)
    decreases |a|
  {
    NoIds(a);
    NoIds(b);
    if SeqSet(a) == SeqSet(b) && a != [] && b != [] {
      var x, y := a[|a| - 1], b[|b| - 1];
      assert x in SeqSet(b) && y in SeqSet(a);
      assert x == y;
      var a', b' := a[..|a| - 1], b[..|b| - 1];
      assert SeqSet(a') == SeqSet(a) - {x} && SeqSet(b') == SeqSet(b) - {x};
      AscendingUnique(a', b');
      assert a == a' + [x] && b == b' + [x];
    }
  }

  lemma WalkCounts(all: set<int>, visited: seq<int>, pageSize: int)
    requires Walked(all, visited, pageSize)
    ensures |visited| <= |all|
    ensures |visited| == |all| <==> pageSize <= PAGE_LIMIT || |all| <= PAGE_LIMIT
  {
    AscendingSize(visited);
    SubsetSize(SeqSet(visited), all);
  }

  /** Everything in scope shows truth; nothing else was touched. */
  ghost predicate Rebuilt(db: Db, start: Redis, rd: Redis, scope: Scope) {
    forall r: Resource ::
      if InScope(scope, r) && HasOwner(db, r) then Installed(rd, r, Project(db, r)) else SameFor(start, rd, r)
  }

  lemma {:induction false} UserPlanMembers(scope: Scope, users: seq<int>, r: Resource)
    ensures r in UserPlan(scope, users) <==> !r.Members? && InScope(scope, r) && r.owner in users
    decreases |users|
  {
    if users != [] { UserPlanMembers(scope, users[1..], r); }
  }

  lemma GroupPlanMembers(groups: seq<int>, r: Resource)
    ensures r in GroupPlan(groups) <==> r.Members? && r.group in groups
  {
    var plan := GroupPlan(groups);
    if r.Members? && r.group in groups {
      var i :| 0 <= i < |groups| && groups[i] == r.group;
      assert plan[i] == r;
    }
  }

  lemma SweepRebuilds(db: Db, start: Redis, scope: Scope, users: seq<int>, groups: seq<int>, strict: bool)
    requires SeqSet(users) == if UsersInScope(scope) then db.users else {}
    requires SeqSet(groups) == if GroupsInScope(scope) then db.groups.Keys + db.tombstones.Keys else {}
    requires strict || IndexesCover(start)
    requires Sweep(db, start, UserPlan(scope, users) + GroupPlan(groups), strict).1
    ensures Rebuilt(db, start, Sweep(db, start, UserPlan(scope, users) + GroupPlan(groups), strict).0, scope)
  {
    var plan := UserPlan(scope, users) + GroupPlan(groups);
    SweepRepairs(db, start, plan, strict);
    forall r: Resource
      ensures r in plan <==> InScope(scope, r) && HasOwner(db, r)
    {
      PlanComplete(db, scope, users, groups, r);
    }
  }
}

/** What one reconciliation leaves in Redis, when it repairs arbitrary content, and what an audit sees. */
module Repair {
  import opened Common
  import opened Tables
  import opened FriendPairs
  import opened GroupLifecycle
  import opened Business
  import opened RedisKeys
  import opened MessageChecks

  /** Redis after reconcileCurrent: the projection replaced, a missing group's runtime deleted. */
  function Reconciled(db: Db, rd: Redis, resource: Resource): Redis {
    var after := Replace(rd, resource, Legacy(rd, resource), Project(db, resource));
    if resource.Members? && resource.group !in db.groups then DeleteRuntime(after, resource.group) else after
  }

  /** Redis just before a bulk reconciliation: the strict one drops the markers first. */
  function Prepared(rd: Redis, resource: Resource, strict: bool): Redis {
    if strict then Invalidate(rd, resource) else rd
  }

  /** The compatibility scan, if one is needed, meets no key whose suffix is not a positive number. */
  predicate Scannable(rd: Redis, resource: Resource) {
    IndexMarked(rd, resource) ||
    match resource
    case Friends(o) => forall f :: f in Of(rd.friendKeys, o) ==> f > 0
    case Blacklist(_) => true
    case Members(_) => forall p :: p in rd.userGroups ==> p.1 > 0
  }

  /** No key of the database has a malformed suffix. */
  predicate WellFormed(rd: Redis) {
    && (forall p :: p in rd.friendKeys ==> p.1 > 0)
    && (forall p :: p in rd.userGroups ==> p.1 > 0)
  }

  lemma ReconciledInstalls(db: Db, rd: Redis, resource: Resource)
    requires CoveredBy(rd, resource, Legacy(rd, resource))
    ensures Installed(Reconciled(db, rd, resource), resource, Project(db, resource))
  {
    var legacy, value := Legacy(rd, resource), Project(db, resource);
    ReplaceInstalls(rd, resource, legacy, value);
    var after := Replace(rd, resource, legacy, value);
    if resource.Members? { RuntimeFrame(after, resource.group, resource); }
  }

  /** Every key the resource owns is in its index, or handed over by the scan. */
  predicate Covered(rd: Redis, resource: Resource) {
    CoveredBy(rd, resource, Legacy(rd, resource))
  }

  /** No stale key escapes a load of the resource: each key is swept, handed over by the scan, or true. Groups
      need no such condition, for nothing reads their reverse edges to decide. */
  predicate LoadIsExact(db: Db, rd: Redis, resource: Resource) {
    resource.Members? ||
    OwnedKeys(rd, resource) <= SweptKeys(rd, resource) + Legacy(rd, resource) + ValueKeys(Project(db, resource))
  }

  /** Exactly when a reconciliation leaves the scripts with what MySQL says; it is always loaded afterwards. */
  lemma ReconciledShowsIff(db: Db, rd: Redis, resource: Resource)
    ensures var after := Reconciled(db, rd, resource);
            && IsLoaded(after, resource)
            && (Shows(after, resource, Project(db, resource)) <==> LoadIsExact(db, rd, resource))
  {
    var legacy, value := Legacy(rd, resource), Project(db, resource);
    if resource.Members? {
      ReplaceShows(rd, resource, legacy, value);
      RuntimeFrame(Replace(rd, resource, legacy, value), resource.group, resource);
    } else {
      ReplaceIsExactIff(rd, resource, legacy, value);
    }
  }

  /** A covered resource is loaded exactly, and its index is complete afterwards. */
  lemma CoveredIsExact(db: Db, rd: Redis, resource: Resource)
    requires Covered(rd, resource)
    ensures LoadIsExact(db, rd, resource)
  {
  }

  /** A blacklist is one Set that each load replaces as a whole. */
  lemma BlacklistIsExact(db: Db, rd: Redis, owner: int)
    ensures Covered(rd, Blacklist(owner)) && LoadIsExact(db, rd, Blacklist(owner))
  {
  }

  /** Both depend on the resource's own keys only. */
  lemma ExactFrame(db: Db, rd: Redis, after: Redis, resource: Resource)
    requires SameFor(rd, after, resource)
    ensures Covered(after, resource) == Covered(rd, resource)
    ensures LoadIsExact(db, after, resource) == LoadIsExact(db, rd, resource)
  {
  }

  /** Whatever Redis held, a strict reconciliation installs the projection of truth; a normal one does
      if the marked indexes are complete. */
  lemma BulkInstalls(db: Db, rd: Redis, resource: Resource, strict: bool)
    requires strict || IndexesCover(rd)
    ensures Installed(Reconciled(db, Prepared(rd, resource, strict), resource), resource, Project(db, resource))
  {
    if !strict { LegacyCovers(rd, resource); }
    ReconciledInstalls(db, Prepared(rd, resource, strict), resource);
  }

  lemma RuntimeFrame(rd: Redis, group: int, resource: Resource)
    ensures SameFor(rd, DeleteRuntime(rd, group), resource)
    ensures forall value :: Fits(resource, value) && Installed(rd, resource, value) ==>
              Installed(DeleteRuntime(rd, group), resource, value)
  {
  }

  /** Reconciling one resource leaves every other one as it was. */
  lemma BulkFrame(db: Db, rd: Redis, resource: Resource, strict: bool, other: Resource)
    requires other != resource
    ensures SameFor(rd, Reconciled(db, Prepared(rd, resource, strict), resource), other)
  {
    var prepared := Prepared(rd, resource, strict);
    var legacy, value := Legacy(prepared, resource), Project(db, resource);
    if strict { InvalidateFrame(rd, resource, other); }
    ReplaceFrame(prepared, resource, legacy, value, other);
    if resource.Members? { RuntimeFrame(Replace(prepared, resource, legacy, value), resource.group, other); }
  }

  /** A reconciliation spares the keys of the message scripts, save the runtime of a group that has no row. */
  lemma ReconciledSparesMessages(db: Db, rd: Redis, resource: Resource, strict: bool)
    ensures var after := Reconciled(db, Prepared(rd, resource, strict), resource);
            && after.dedup == rd.dedup && after.online == rd.online
            && (forall g :: !(resource == Members(g) && g !in db.groups) ==>
                  && (g in after.groupSeq <==> g in rd.groupSeq)
                  && (g in rd.groupSeq && g in after.groupSeq ==> after.groupSeq[g] == rd.groupSeq[g])
                  && (forall m :: (g, m) in after.outbox <==> (g, m) in rd.outbox))
            && (resource.Members? && resource.group !in db.groups ==>
                  resource.group !in after.groupSeq && forall m :: (resource.group, m) !in after.outbox)
  {
    var prepared := Prepared(rd, resource, strict);
    if strict { InvalidateSparesMessages(rd, resource); }
    ReplaceSparesMessages(prepared, resource, Legacy(prepared, resource), Project(db, resource));
  }

  lemma InstalledFrame(rd: Redis, after: Redis, resource: Resource, value: Projection)
    requires SameFor(rd, after, resource)
    ensures Installed(after, resource, value) == Installed(rd, resource, value)
  {
  }

  lemma BulkKeepsIndexes(db: Db, rd: Redis, resource: Resource)
    requires IndexesCover(rd)
    ensures IndexesCover(Reconciled(db, rd, resource))
  {
    LegacyCovers(rd, resource);
    ReplaceKeepsIndexes(rd, resource, Legacy(rd, resource), Project(db, resource));
    var after := Replace(rd, resource, Legacy(rd, resource), Project(db, resource));
    if resource.Members? { RuntimeKeepsIndexes(after, resource.group); }
  }

  lemma RuntimeKeepsIndexes(rd: Redis, group: int)
    requires IndexesCover(rd)
    ensures IndexesCover(DeleteRuntime(rd, group))
  {
    forall r: Resource | IndexMarked(DeleteRuntime(rd, group), r)
      ensures CoveredBy(DeleteRuntime(rd, group), r, {})
    {
      assert CoveredBy(rd, r, {});
    }
  }

  lemma BulkKeepsWellFormed(db: Db, rd: Redis, resource: Resource, strict: bool)
    requires PositiveIds(db) && WellFormed(rd)
    ensures WellFormed(Prepared(rd, resource, strict)) && Scannable(Prepared(rd, resource, strict), resource)
    ensures WellFormed(Reconciled(db, Prepared(rd, resource, strict), resource))
  {
  }

  // ---- sweeps ----

  /** Bulk reconciliation of one resource after another; it stops at the first failure. */
  function Sweep(db: Db, rd: Redis, resources: seq<Resource>, strict: bool): (Redis, bool)
    decreases |resources|
  {
    if resources == [] then (rd, true)
    else
      var prepared := Prepared(rd, resources[0], strict);
      if !Scannable(prepared, resources[0]) then (prepared, false)
      else Sweep(db, Reconciled(db, prepared, resources[0]), resources[1..], strict)
  }

  lemma SweepFirst(db: Db, rd: Redis, first: Resource, rest: seq<Resource>, strict: bool)
    ensures var prepared := Prepared(rd, first, strict);
            Sweep(db, rd, [first] + rest, strict) ==
              if Scannable(prepared, first) then Sweep(db, Reconciled(db, prepared, first), rest, strict) else (prepared, false)
  {
    assert ([first] + rest)[1..] == rest;
  }

  lemma SweepOne(db: Db, rd: Redis, resource: Resource, strict: bool)
    ensures var prepared := Prepared(rd, resource, strict);
            Sweep(db, rd, [resource], strict) ==
              if Scannable(prepared, resource) then (Reconciled(db, prepared, resource), true) else (prepared, false)
  {
    assert [resource][1..] == [];
  }

  lemma {:induction false} SweepJoins(db: Db, rd: Redis, first: seq<Resource>, second: seq<Resource>, strict: bool)
    ensures var (mid, ok) := Sweep(db, rd, first, strict);
            Sweep(db, rd, first + second, strict) == if ok then Sweep(db, mid, second, strict) else (mid, false)
    decreases |first|
  {
    if first == [] {
      assert first + second == second;
    } else {
      var r := first[0];
      assert (first + second)[1..] == first[1..] + second;
      var prepared := Prepared(rd, r, strict);
      if Scannable(prepared, r) { SweepJoins(db, Reconciled(db, prepared, r), first[1..], second, strict); }
    }
  }

  /** A set of resources with those of a list. */
  function NamedToo(done: set<Resource>, resources: seq<Resource>): (all: set<Resource>)
    ensures forall r :: r in all <==> r in done || r in resources
  {
    done + set r | r in resources
  }

  lemma NamedFirst(done: set<Resource>, resources: seq<Resource>)
    ensures resources == [] ==> NamedToo(done, resources) == done
    ensures resources != [] ==> NamedToo(done, resources) == NamedToo(done + {resources[0]}, resources[1..])
  {
    if resources != [] { assert resources == [resources[0]] + resources[1..]; }
  }

  /** The resources done so far show truth; the others are as they were. */
  ghost predicate Progress(db: Db, start: Redis, rd: Redis, done: set<Resource>) {
    && (forall r :: r in done ==> Installed(rd, r, Project(db, r)))
    && (forall r: Resource :: r !in done ==> SameFor(start, rd, r))
  }

  lemma SameForTrans(a: Redis, b: Redis, c: Redis, resource: Resource)
    requires SameFor(a, b, resource) && SameFor(b, c, resource)
    ensures SameFor(a, c, resource)
  {
  }

  /** One more resource installed, with every other one left alone. */
  lemma ProgressJoins(db: Db, start: Redis, rd: Redis, after: Redis, done: set<Resource>, resource: Resource)
    requires Progress(db, start, rd, done)
    requires Installed(after, resource, Project(db, resource))
    requires forall r: Resource :: r != resource ==> SameFor(rd, after, r)
    ensures Progress(db, start, after, done + {resource})
  {
    forall r | r in done && r != resource
      ensures Installed(after, r, Project(db, r))
    {
      InstalledFrame(rd, after, r, Project(db, r));
    }
    forall r: Resource | r !in done + {resource}
      ensures SameFor(start, after, r)
    {
      SameForTrans(start, rd, after, r);
    }
  }

  lemma ProgressStep(db: Db, start: Redis, rd: Redis, done: set<Resource>, resource: Resource, strict: bool)
    requires Progress(db, start, rd, done)
    requires strict || IndexesCover(rd)
    ensures Progress(db, start, Reconciled(db, Prepared(rd, resource, strict), resource), done + {resource})
  {
    var after := Reconciled(db, Prepared(rd, resource, strict), resource);
    BulkInstalls(db, rd, resource, strict);
    forall r: Resource | r != resource
      ensures SameFor(rd, after, r)
    {
      BulkFrame(db, rd, resource, strict, r);
    }
    ProgressJoins(db, start, rd, after, done, resource);
  }

  lemma {:induction false} SweepProgress(db: Db, start: Redis, rd: Redis, done: set<Resource>, resources: seq<Resource>, strict: bool)
    requires Progress(db, start, rd, done)
    requires strict || IndexesCover(rd)
    requires Sweep(db, rd, resources, strict).1
    ensures Progress(db, start, Sweep(db, rd, resources, strict).0, NamedToo(done, resources))
    decreases |resources|
  {
    if resources == [] {
      NamedFirst(done, resources);
    } else {
      var r := resources[0];
      ProgressStep(db, start, rd, done, r, strict);
      if !strict { BulkKeepsIndexes(db, rd, r); }
      NamedFirst(done, resources);
      SweepProgress(db, start, Reconciled(db, Prepared(rd, r, strict), r), done + {r}, resources[1..], strict);
    }
  }

  /** A completed sweep leaves every resource it names showing truth, and every other one as it was: from
      arbitrary content when strict, from complete indexes otherwise. */
  lemma SweepRepairs(db: Db, rd: Redis, resources: seq<Resource>, strict: bool)
    requires strict || IndexesCover(rd)
    requires Sweep(db, rd, resources, strict).1
    ensures Progress(db, rd, Sweep(db, rd, resources, strict).0, NamedToo({}, resources))
  {
    assert Progress(db, rd, rd, {});
    SweepProgress(db, rd, rd, {}, resources, strict);
  }

  /** From well-formed content no sweep fails. */
  lemma {:induction false} SweepSucceeds(db: Db, rd: Redis, resources: seq<Resource>, strict: bool)
    requires PositiveIds(db) && WellFormed(rd)
    ensures Sweep(db, rd, resources, strict).1 && WellFormed(Sweep(db, rd, resources, strict).0)
    decreases |resources|
  {
    if resources != [] {
      var r := resources[0];
      BulkKeepsWellFormed(db, rd, r, strict);
      SweepSucceeds(db, Reconciled(db, Prepared(rd, r, strict), r), resources[1..], strict);
    }
  }

  // ---- audit ----

  /** modelMutedUntil reads every non-positive deadline as "not muted". */
  function Decode(info: Info): Member {
    Member(info.role, if info.mutedUntil <= 0 then None else Some(info.mutedUntil))
  }

  /** What an audit without findings says: marker, Set, Hash and reverse edges against the rows. */
  predicate Clean(db: Db, rd: Redis, resource: Resource) {
    IsLoaded(rd, resource) &&
    match resource
    case Friends(o) => Of(rd.friendKeys, o) == Of(db.friendships, o)
    case Blacklist(o) => Of(rd.blocked, o) == Of(db.blacklist, o)
    case Members(g) => GroupClean(db, rd, g)
  }

  predicate GroupClean(db: Db, rd: Redis, group: int) {
    var users := Of(db.members.Keys, group);
    && Of(rd.groupMembers, group) == users
    && Of(rd.memberInfo.Keys, group) == users
    && Of(rd.userGroups, group) == users
    && forall u :: u in users ==> Decode(rd.memberInfo[(group, u)]) == db.members[(group, u)]
  }

  /** No deadline cached for the group is negative; a replacement writes 0 for "not muted". */
  ghost predicate DeadlinesNonNegative(rd: Redis, group: int) {
    forall u :: (group, u) in rd.memberInfo ==> rd.memberInfo[(group, u)].mutedUntil >= 0
  }

  /** Marker, Set, Hash and reverse edges, or a user's keys, equal what a replacement from truth would write. */
  ghost predicate AsWritten(db: Db, rd: Redis, resource: Resource) {
    && IsLoaded(rd, resource)
    && Shows(rd, resource, Project(db, resource))
    && OwnedKeys(rd, resource) == ValueKeys(Project(db, resource))
  }

  /** Audit exactness, over any Redis at all: the cache is as a replacement would write it if and only if the
      audit finds nothing and, for a group, no cached deadline is negative. */
  lemma CleanMeansAsWritten(db: Db, rd: Redis, resource: Resource)
    requires GroupInv(db)
    ensures AsWritten(db, rd, resource) <==>
              Clean(db, rd, resource) && (resource.Members? ==> DeadlinesNonNegative(rd, resource.group))
  {
    if resource.Members? { GroupCleanMeansAsWritten(db, rd, resource.group); }
  }

  lemma GroupCleanMeansAsWritten(db: Db, rd: Redis, group: int)
    requires GroupInv(db)
    ensures GroupClean(db, rd, group) && DeadlinesNonNegative(rd, group) <==>
              && RowsOf(rd.memberInfo, group) == RosterOf(db, group)
              && Of(rd.groupMembers, group) == Of(rd.memberInfo.Keys, group)
              && Of(rd.userGroups, group) == RosterOf(db, group).Keys
  {
    if GroupClean(db, rd, group) && DeadlinesNonNegative(rd, group) { CleanIsWritten(db, rd, group); }
    if RowsOf(rd.memberInfo, group) == RosterOf(db, group) {
      WrittenIsClean(db, rd, group);
      WrittenIsNonNegative(db, rd, group);
    }
  }

  lemma WrittenIsNonNegative(db: Db, rd: Redis, group: int)
    requires GroupInv(db) && RowsOf(rd.memberInfo, group) == RosterOf(db, group)
    ensures DeadlinesNonNegative(rd, group)
  {
    forall u | (group, u) in rd.memberInfo
      ensures rd.memberInfo[(group, u)].mutedUntil >= 0
    {
      assert u in RowsOf(rd.memberInfo, group) && (group, u) in db.members;
      assert RowsOf(rd.memberInfo, group)[u] == Encode(db.members[(group, u)]);
      assert MemberOk(db, group, u);
    }
  }

  /** The input that needs the second half: give an unmuted member of an installed group the deadline -1, and
      the audit still finds nothing although the Hash is not what a replacement writes. */
  lemma NegativeDeadlineAuditsClean(db: Db, rd: Redis, group: int, user: int)
    requires GroupInv(db)
    requires Installed(rd, Members(group), Project(db, Members(group)))
    requires (group, user) in db.members && db.members[(group, user)].mutedUntil == None
    ensures var odd := rd.(memberInfo := rd.memberInfo[(group, user) := Info(db.members[(group, user)].role, -1)]);
            Clean(db, odd, Members(group)) && !AsWritten(db, odd, Members(group))
  {
    var odd := rd.(memberInfo := rd.memberInfo[(group, user) := Info(db.members[(group, user)].role, -1)]);
    WrittenIsClean(db, rd, group);
    assert user in Of(rd.memberInfo.Keys, group);
    SameSet(Of(odd.memberInfo.Keys, group), Of(rd.memberInfo.Keys, group));
    assert (group, user) in odd.memberInfo && !DeadlinesNonNegative(odd, group);
    CleanMeansAsWritten(db, odd, Members(group));
  }

  /** What a clean audit does guarantee in every case: the message scripts decide as MySQL does. */
  lemma CleanGroupDecidesAsTruth(db: Db, rd: Redis, group: int, user: int, now: int)
    requires Clean(db, rd, Members(group)) && 0 <= now
    ensures GroupVerdict(rd, group, user, now) == GroupTruth(db, group, user, now)
  {
    assert user in Of(rd.groupMembers, group) <==> user in Of(db.members.Keys, group);
    assert user in Of(rd.memberInfo.Keys, group) <==> user in Of(db.members.Keys, group);
  }

  lemma CleanPairDecidesAsTruth(db: Db, rd: Redis, sender: int, receiver: int)
    requires Clean(db, rd, Friends(sender)) && Clean(db, rd, Friends(receiver))
    requires Clean(db, rd, Blacklist(sender)) && Clean(db, rd, Blacklist(receiver))
    ensures PrivateVerdict(rd, sender, receiver) == PrivateTruth(db, sender, receiver)
  {
    PrivateAgrees(rd, db, sender, receiver);
  }

  lemma CleanIsWritten(db: Db, rd: Redis, group: int)
    requires GroupInv(db) && DeadlinesNonNegative(rd, group) && GroupClean(db, rd, group)
    ensures RowsOf(rd.memberInfo, group) == RosterOf(db, group)
    ensures RosterOf(db, group).Keys == Of(db.members.Keys, group)
  {
    var rows, roster := RowsOf(rd.memberInfo, group), RosterOf(db, group);
    assert roster.Keys == Of(db.members.Keys, group) && rows.Keys == Of(rd.memberInfo.Keys, group);
    forall u | u in roster
      ensures rows[u] == roster[u]
    {
      assert u in Of(db.members.Keys, group) && u in rows;
      assert Decode(rd.memberInfo[(group, u)]) == db.members[(group, u)];
      assert MemberOk(db, group, u);
    }
  }

  lemma WrittenIsClean(db: Db, rd: Redis, group: int)
    requires GroupInv(db)
    requires RowsOf(rd.memberInfo, group) == RosterOf(db, group)
    ensures Of(rd.memberInfo.Keys, group) == Of(db.members.Keys, group) == RosterOf(db, group).Keys
    ensures forall u :: u in Of(db.members.Keys, group) ==> Decode(rd.memberInfo[(group, u)]) == db.members[(group, u)]
  {
    var rows := RowsOf(rd.memberInfo, group);
    assert rows.Keys == Of(rd.memberInfo.Keys, group);
    assert RosterOf(db, group).Keys == Of(db.members.Keys, group);
    forall u | u in Of(db.members.Keys, group)
      ensures Decode(rd.memberInfo[(group, u)]) == db.members[(group, u)]
    {
      assert u in rows && rows[u] == Encode(db.members[(group, u)]);
      assert MemberOk(db, group, u);
    }
  }

  /** Installed truth audits clean. */
  lemma InstalledIsClean(db: Db, rd: Redis, resource: Resource)
    requires DbInv(db)
    requires Installed(rd, resource, Project(db, resource))
    ensures Clean(db, rd, resource)
  {
    if resource.Members? { WrittenIsClean(db, rd, resource.group); }
  }

  /** An audit never looks at the owner index: under a standing index marker, a clean user's next bounded
      replacement is exact for every future truth if and only if its friend index is complete. */
  lemma AuditIgnoresIndex(db: Db, rd: Redis, owner: int)
    requires Clean(db, rd, Friends(owner)) && IndexMarked(rd, Friends(owner))
    ensures (forall ids: set<int> ::
               OwnedKeys(Replace(rd, Friends(owner), Legacy(rd, Friends(owner)), Ids(ids)), Friends(owner)) == ids)
       <==> Of(rd.friendKeys, owner) <= Of(rd.friendIndex, owner)
  {
    forall ids: set<int>
      ensures OwnedKeys(Replace(rd, Friends(owner), {}, Ids(ids)), Friends(owner)) == ids <==>
              Of(rd.friendKeys, owner) <= Of(rd.friendIndex, owner) + {} + ids
    {
      ReplaceIsExactIff(rd, Friends(owner), {}, Ids(ids));
      assert ValueKeys(Ids(ids)) == ids;
    }
    var none: set<int> := {};
    assert Of(rd.friendIndex, owner) + {} + none == Of(rd.friendIndex, owner);
    assert OwnedKeys(Replace(rd, Friends(owner), {}, Ids(none)), Friends(owner)) == none <==>
           Of(rd.friendKeys, owner) <= Of(rd.friendIndex, owner) + {} + none;
  }

  /** A clean group needs no index: its edges are those of the member Set, which the script sweeps anyway, so
      the next bounded replacement is exact for every future truth, whatever became of the index. */
  lemma CleanGroupNeedsNoIndex(db: Db, rd: Redis, group: int, roster: map<int, Info>)
    requires Clean(db, rd, Members(group))
    ensures OwnedKeys(Replace(rd, Members(group), Legacy(rd, Members(group)), Roster(roster)), Members(group)) == roster.Keys
  {
    ReplaceIsExactIff(rd, Members(group), Legacy(rd, Members(group)), Roster(roster));
  }
}

/** What every step of the cache protocol keeps. */
module ProtocolInvariant {
  import opened Common
  import opened Tables
  import opened Business
  import opened Locks
  import opened RedisKeys
  import opened MessageChecks
  import opened CacheProtocol

  /** If the projection is loaded it shows exactly what these tables say. */
  ghost predicate Fresh(db: Db, rd: Redis, resource: Resource) {
    IsLoaded(rd, resource) ==> Shows(rd, resource, Project(db, resource))
  }

  /** An event that still owes a repair: not done, and its current claim holder has not reconciled yet. */
  predicate Owes(s: State, id: int, resource: Resource) {
    && id in s.events
    && s.events[id].resource == resource
    && s.events[id].status != Done
    && (s.events[id].status.Claimed? ==> (id, s.events[id].status.token) !in s.finished)
  }

  ghost predicate NoRepairLost(s: State) {
    forall r: Resource :: !Fresh(s.db, s.redis, r) ==> exists id :: Owes(s, id, r)
  }

  /** A group's marker counts the last written roster, and Set and Hash hold at most that roster. */
  ghost predicate RosterBounded(rd: Redis, written: map<int, map<int, Info>>, group: int)
    requires group in rd.membersLoaded
  {
    && group in written
    && rd.membersLoaded[group] == |written[group]|
    && Of(rd.groupMembers, group) <= written[group].Keys
    && RowsOf(rd.memberInfo, group).Items <= written[group].Items
  }

  ghost predicate RostersBounded(s: State) {
    forall g :: g in s.redis.membersLoaded ==> RosterBounded(s.redis, s.written, g)
  }

  predicate HoldsRow(progress: Progress) {
    !progress.Waiting? && !progress.Admitted? && !progress.Ready?
  }

  predicate KnowsTruth(progress: Progress) {
    progress.Read? || progress.Unmarked? || progress.Scanned?
  }

  /** What a job may rely on at its point of progress. */
  ghost predicate JobOk(s: State, id: int)
    requires id in s.jobs
  {
    var j := s.jobs[id];
    var r := j.resource;
    && (HoldsRow(j.progress) <==> j.row.Some?)
    && (j.row.Some? ==> j.row.value in s.rows && s.rows[j.row.value] == id && Guards(s.db, r, j.row.value))
    && (KnowsTruth(j.progress) ==>
          j.progress.value == Project(s.db, r) && j.progress.alive == GroupLives(s.db, r))
    && (j.progress.Scanned? && !r.Members? ==> CoveredBy(s.redis, r, j.progress.legacy))
    && (j.progress.Replaced? ==> Fresh(s.db, s.redis, r) && j.progress.alive == GroupLives(s.db, r))
    && (j.progress.Replaced? && r.Members? && !j.progress.alive ==> Of(s.redis.groupMembers, r.group) == {})
    && (j.progress.Cleared? ==> Fresh(s.db, s.redis, r) && r.Members? && Dissolved(s, r.group))
    && (j.reason.ForEvent? ==>
          && j.reason.event in s.events && s.events[j.reason.event].resource == r
          && j.reason.token in s.tokens)
  }

  /** No member, no sequence, and a tombstone in MySQL. */
  ghost predicate Dissolved(s: State, group: int) {
    && group in s.db.tombstones
    && Of(s.redis.groupMembers, group) == {}
    && group !in s.redis.groupSeq
  }

  ghost predicate JobsOk(s: State) {
    forall id :: id in s.jobs ==> JobOk(s, id)
  }

  ghost predicate RowsOk(s: State) {
    forall row :: row in s.rows ==> s.rows[row] in s.jobs && s.jobs[s.rows[row]].row == Some(row)
  }

  ghost predicate EventsOk(s: State) {
    && (forall id :: id in s.events ==> id < s.nextEvent)
    && (forall id :: id in s.events && s.events[id].status.Claimed? ==> s.events[id].status.token in s.tokens)
    && (forall f :: f in s.finished ==> f.0 in s.events && f.1 in s.tokens)
  }

  ghost predicate CleanedOk(s: State) {
    forall g :: g in s.cleaned ==> Dissolved(s, g)
  }

  /** Wherever a user's index marker stands, the index misses no key. Groups need no such promise: their
      scripts sweep the member Set, and authorisation never reads the reverse edges. */
  ghost predicate UsersCovered(rd: Redis) {
    forall r: Resource :: !r.Members? && IndexMarked(rd, r) ==> CoveredBy(rd, r, {})
  }

  ghost predicate Inv(s: State) {
    && DbInv(s.db)
    && UsersCovered(s.redis)
    && RostersBounded(s)
    && JobsOk(s)
    && RowsOk(s)
    && EventsOk(s)
    && CleanedOk(s)
    && NoRepairLost(s)
  }

  lemma InitHolds(s: State)
    requires Init(s)
    ensures Inv(s)
  {
  }

  // ---- steps that only weaken Redis ----

  /** Redis may have lost keys, markers or loaded state, but nothing a standing marker promises. */
  ghost predicate Weakens(rd: Redis, after: Redis) {
    && (forall r: Resource :: IsLoaded(after, r) ==> IsLoaded(rd, r) && SameContent(rd, after, r))
    && (forall r: Resource :: IndexMarked(after, r) ==> IndexMarked(rd, r))
    && (forall r: Resource :: !r.Members? ==> Uncovered(after, r) <= Uncovered(rd, r))
    && after.groupMembers <= rd.groupMembers
    && (forall g :: g in after.groupSeq ==> g in rd.groupSeq || Of(rd.groupMembers, g) != {})
  }

  ghost predicate SameContent(rd: Redis, after: Redis, resource: Resource) {
    && Content(after, resource) == Content(rd, resource)
    && (resource.Members? ==>
          && Of(after.groupMembers, resource.group) == Of(rd.groupMembers, resource.group)
          && Of(after.memberInfo.Keys, resource.group) == Of(rd.memberInfo.Keys, resource.group))
  }

  lemma CoverFromUncovered(rd: Redis, resource: Resource, legacy: set<int>)
    ensures CoveredBy(rd, resource, legacy) <==> Uncovered(rd, resource) <= legacy
  {
  }

  lemma FreshWeakens(db: Db, rd: Redis, after: Redis, resource: Resource)
    requires Weakens(rd, after)
    requires Fresh(db, rd, resource)
    ensures Fresh(db, after, resource)
  {
    if IsLoaded(after, resource) {
      assert SameContent(rd, after, resource);
    }
  }

  /** A weaker Redis under the same bookkeeping is as good as before. */
  lemma WeakeningKeeps(s: State, after: State)
    requires Inv(s)
    requires Weakens(s.redis, after.redis)
    requires after == s.(redis := after.redis)
    requires RostersBounded(after)
    ensures Inv(after)
  {
    forall r: Resource | !r.Members? && IndexMarked(after.redis, r)
      ensures CoveredBy(after.redis, r, {})
    {
      CoverFromUncovered(s.redis, r, {});
      CoverFromUncovered(after.redis, r, {});
    }
    forall g | g in s.cleaned
      ensures Dissolved(after, g)
    {
      DissolvedWeakens(s, after, g);
    }
    forall id | id in after.jobs
      ensures JobOk(after, id)
    {
      JobWeakens(s, after, id);
    }
    forall r: Resource | !Fresh(after.db, after.redis, r)
      ensures exists id :: Owes(after, id, r)
    {
      if Fresh(s.db, s.redis, r) { FreshWeakens(s.db, s.redis, after.redis, r); }
      var id :| Owes(s, id, r);
      assert Owes(after, id, r);
    }
  }

  lemma DissolvedWeakens(s: State, after: State, group: int)
    requires Weakens(s.redis, after.redis) && after == s.(redis := after.redis)
    requires Dissolved(s, group)
    ensures Dissolved(after, group)
  {
    assert Of(after.redis.groupMembers, group) <= Of(s.redis.groupMembers, group);
  }

  lemma JobWeakens(s: State, after: State, id: int)
    requires Weakens(s.redis, after.redis) && after == s.(redis := after.redis)
    requires id in s.jobs && JobOk(s, id)
    ensures JobOk(after, id)
  {
    var j := s.jobs[id];
    if j.progress.Scanned? && !j.resource.Members? {
      CoverFromUncovered(s.redis, j.resource, j.progress.legacy);
      CoverFromUncovered(after.redis, j.resource, j.progress.legacy);
    }
    if j.progress.Replaced? || j.progress.Cleared? {
      FreshWeakens(s.db, s.redis, after.redis, j.resource);
      if j.resource.Members? {
        assert Of(after.redis.groupMembers, j.resource.group) <= Of(s.redis.groupMembers, j.resource.group);
      }
    }
    if j.progress.Cleared? { DissolvedWeakens(s, after, j.resource.group); }
  }
}

/** Every enabled step keeps the protocol invariant. */
module ProtocolSteps {
  import opened Common
  import opened Tables
  import opened FriendPairs
  import opened GroupLifecycle
  import opened Business
  import opened Locks
  import opened RedisKeys
  import opened MessageChecks
  import opened CacheProtocol
  import opened ProtocolInvariant

  // ---- events ----

  lemma {:induction false} EnqueueFacts(events: map<int, Event>, next: int, resources: seq<Resource>)
    requires forall id :: id in events ==> id < next
    ensures var after := Enqueue(events, next, resources);
            && (forall id :: id in events ==> id in after && after[id] == events[id])
            && (forall id :: id in after ==> id < next + |resources|)
            && (forall id :: id in after && id !in events ==> after[id].status == Queued)
            && (forall r :: r in resources ==> exists id :: id in after && id !in events && after[id] == Event(r, Queued))
    decreases |resources|
  {
    if resources != [] {
      var first := events[next := Event(resources[0], Queued)];
      EnqueueFacts(first, next + 1, resources[1..]);
      var after := Enqueue(events, next, resources);
      forall r | r in resources
        ensures exists id :: id in after && id !in events && after[id] == Event(r, Queued)
      {
        if r == resources[0] {
          assert next in first && first[next] == Event(r, Queued);
          assert next in after && next !in events && after[next] == Event(r, Queued);
        } else {
          assert r in resources[1..];
        }
      }
    }
  }

  lemma CommitLosesNoRepair(s: State, command: Command, resource: Resource)
    requires Inv(s)
    requires !Fresh(Apply(s.db, command).db, s.redis, resource)
    ensures exists id :: Owes(DoCommit(s, command), id, resource)
  {
    var after, events := DoCommit(s, command), Apply(s.db, command).events;
    OutboxComplete(s.db, command, resource);
    EnqueueFacts(s.events, s.nextEvent, events);
    if resource in events {
      var id :| id in after.events && id !in s.events && after.events[id] == Event(resource, Queued);
      assert Owes(after, id, resource);
    } else {
      assert Project(Apply(s.db, command).db, resource) == Project(s.db, resource);
      assert !Fresh(s.db, s.redis, resource);
      var id :| Owes(s, id, resource);
      assert Owes(after, id, resource);
    }
  }

  lemma CommitKeepsEvents(s: State, command: Command)
    requires EventsOk(s)
    ensures EventsOk(DoCommit(s, command))
  {
    EnqueueFacts(s.events, s.nextEvent, Apply(s.db, command).events);
  }

  lemma CommitKeeps(s: State, command: Command)
    requires Inv(s) && Enabled(s, Commit(command))
    ensures Inv(DoCommit(s, command))
  {
    var after := DoCommit(s, command);
    CommandKeeps(s.db, command);
    CommitKeepsEvents(s, command);
    forall g | g in s.cleaned
      ensures Dissolved(after, g)
    {
      TombstoneStep(s.db, command, g);
    }
    forall id | id in after.jobs
      ensures JobOk(after, id)
    {
      JobSurvivesCommit(s, command, id);
    }
    forall r: Resource | !Fresh(after.db, after.redis, r)
      ensures exists id :: Owes(after, id, r)
    {
      CommitLosesNoRepair(s, command, r);
    }
  }

  /** A job that holds its owner row knows truth that no commit can change under it. */
  lemma JobSurvivesCommit(s: State, command: Command, id: int)
    requires Inv(s) && Enabled(s, Commit(command)) && id in s.jobs
    ensures JobOk(DoCommit(s, command), id)
  {
    EnqueueFacts(s.events, s.nextEvent, Apply(s.db, command).events);
    assert JobOk(s, id);
    var j := s.jobs[id];
    if j.row.Some? {
      HeldRowFreezes(s.db, command, j.resource, j.row.value);
    }
    if j.progress.Cleared? {
      TombstoneStep(s.db, command, j.resource.group);
    }
  }

  lemma ClaimKeeps(s: State, ids: set<int>, token: int)
    requires Inv(s) && Enabled(s, Claim(ids, token))
    ensures Inv(DoClaim(s, ids, token))
  {
    var after := DoClaim(s, ids, token);
    forall r: Resource | !Fresh(after.db, after.redis, r)
      ensures exists id :: Owes(after, id, r)
    {
      var id :| Owes(s, id, r);
      assert Owes(after, id, r);
    }
    assert forall id :: id in s.jobs ==> JobOk(s, id);
    assert forall g :: g in s.cleaned ==> Dissolved(s, g);
    assert forall g :: g in s.redis.membersLoaded ==> RosterBounded(s.redis, s.written, g);
  }

  /** What a claim and the two marks do to an event, by its status alone. */
  lemma EventSteps(s: State, ids: set<int>, token: int, id: int)
    requires id in s.events
    ensures Enabled(s, Action.Claim(ids, token)) ==>
              var after := Do(s, Action.Claim(ids, token));
              && id in after.events
              && after.events[id] == (if id in ids then Event(s.events[id].resource, Claimed(token)) else s.events[id])
              && token in after.tokens && after.db == s.db && after.redis == s.redis
    ensures Enabled(s, MarkSuccess(id, token)) ==>
              var after := Do(s, MarkSuccess(id, token));
              && id in after.events
              && after.events[id] ==
                   (if s.events[id].status == Claimed(token) then Event(s.events[id].resource, Done) else s.events[id])
              && after.db == s.db && after.redis == s.redis
    ensures Enabled(s, MarkFailure(id, token)) ==>
              var after := Do(s, MarkFailure(id, token));
              && id in after.events
              && after.events[id] ==
                   (if s.events[id].status == Claimed(token) then Event(s.events[id].resource, Queued) else s.events[id])
              && after.db == s.db && after.redis == s.redis
  {
  }

  /** Success is marked only by a holder that reconciled, so it never takes away the event that owes. */
  lemma MarkKeeps(s: State, id: int, token: int, status: EventStatus)
    requires Inv(s)
    requires status == Queued || (status == Done && (id, token) in s.finished)
    ensures Inv(DoMark(s, id, token, status))
  {
    var after := DoMark(s, id, token, status);
    forall r: Resource | !Fresh(after.db, after.redis, r)
      ensures exists k :: Owes(after, k, r)
    {
      var k :| Owes(s, k, r);
      assert Owes(after, k, r);
    }
    MarkFrame(s, id, token, status);
  }

  lemma MarkKeepsJobs(s: State, id: int, token: int, status: EventStatus)
    requires JobsOk(s)
    ensures JobsOk(DoMark(s, id, token, status))
  {
    assert forall k :: k in s.jobs ==> JobOk(s, k);
  }

  lemma MarkFrame(s: State, id: int, token: int, status: EventStatus)
    requires Inv(s)
    requires !status.Claimed?
    ensures var after := DoMark(s, id, token, status);
            JobsOk(after) && RowsOk(after) && EventsOk(after) && CleanedOk(after) && RostersBounded(after)
  {
    MarkKeepsJobs(s, id, token, status);
    assert forall g :: g in s.cleaned ==> Dissolved(s, g);
    assert forall g :: g in s.redis.membersLoaded ==> RosterBounded(s.redis, s.written, g);
  }

  // ---- jobs ----

  /** Changing one job, its row and the warm locks keeps the rest of the invariant. */
  lemma JobChangeKeeps(s: State, after: State, id: int)
    requires Inv(s)
    requires after == s.(jobs := after.jobs, rows := after.rows, warm := after.warm)
    requires forall k :: k != id ==> (k in after.jobs <==> k in s.jobs)
    requires forall k :: k != id && k in s.jobs ==> after.jobs[k] == s.jobs[k]
    requires forall row :: row in s.rows && s.rows[row] != id ==> row in after.rows && after.rows[row] == s.rows[row]
    requires forall row :: row in after.rows ==>
               if after.rows[row] == id then id in after.jobs && after.jobs[id].row == Some(row)
               else row in s.rows && s.rows[row] == after.rows[row]
    requires id in after.jobs ==> JobOk(after, id)
    ensures Inv(after)
  {
    forall k | k in after.jobs
      ensures JobOk(after, k)
    {
      if k != id { assert JobOk(s, k); }
    }
    assert forall g :: g in s.cleaned ==> Dissolved(s, g);
    assert forall g :: g in s.redis.membersLoaded ==> RosterBounded(s.redis, s.written, g);
    forall r: Resource | !Fresh(after.db, after.redis, r)
      ensures exists k :: Owes(after, k, r)
    {
      var k :| Owes(s, k, r);
      assert Owes(after, k, r);
    }
  }

  lemma MoveKeeps(s: State, id: int, progress: Progress)
    requires Inv(s) && id in s.jobs
    requires JobOk(Move(s, id, progress), id)
    ensures Inv(Move(s, id, progress))
  {
    assert JobOk(s, id);
    JobChangeKeeps(s, Move(s, id, progress), id);
  }

  lemma StartKeeps(s: State, id: int, resource: Resource, reason: Reason)
    requires Inv(s) && Enabled(s, Start(id, resource, reason))
    ensures Inv(Do(s, Start(id, resource, reason)))
  {
    var after := Do(s, Start(id, resource, reason));
    assert JobOk(after, id);
    JobChangeKeeps(s, after, id);
  }

  lemma AbortKeeps(s: State, id: int)
    requires Inv(s) && id in s.jobs
    ensures Inv(DoAbort(s, id))
  {
    assert JobOk(s, id);
    JobChangeKeeps(s, DoAbort(s, id), id);
  }

  lemma FindLoadedKeeps(s: State, id: int)
    requires Inv(s) && Enabled(s, FindLoaded(id))
    ensures Inv(Do(s, FindLoaded(id)))
  {
    assert JobOk(s, id);
    JobChangeKeeps(s, Do(s, FindLoaded(id)), id);
  }

  lemma TakeWarmLockKeeps(s: State, id: int)
    requires Inv(s) && Enabled(s, TakeWarmLock(id))
    ensures Inv(Do(s, TakeWarmLock(id)))
  {
    assert JobOk(s, id);
    JobChangeKeeps(s, Do(s, TakeWarmLock(id)), id);
  }

  lemma ExpireWarmLockKeeps(s: State, resource: Resource)
    requires Inv(s) && Enabled(s, ExpireWarmLock(resource))
    ensures Inv(Do(s, ExpireWarmLock(resource)))
  {
    assert 0 in s.jobs ==> JobOk(s, 0);
    JobChangeKeeps(s, Do(s, ExpireWarmLock(resource)), 0);
  }

  lemma LockOwnerKeeps(s: State, id: int)
    requires Inv(s) && Enabled(s, LockOwner(id))
    ensures Inv(Do(s, LockOwner(id)))
  {
    var after := Do(s, LockOwner(id));
    assert JobOk(s, id);
    assert JobOk(after, id);
    JobChangeKeeps(s, after, id);
  }

  lemma PrepareKeeps(s: State, id: int)
    requires Inv(s) && Enabled(s, Prepare(id))
    ensures Inv(Do(s, Prepare(id)))
  {
    assert JobOk(s, id);
    MoveKeeps(s, id, Ready);
    var moved, after := Move(s, id, Ready), Do(s, Prepare(id));
    if s.jobs[id].reason == StrictRebuild {
      InvalidateWeakens(s.redis, s.jobs[id].resource);
      assert forall g :: g in moved.redis.membersLoaded ==> RosterBounded(moved.redis, moved.written, g);
      assert forall g :: g in after.redis.membersLoaded ==> RosterBounded(after.redis, after.written, g);
      WeakeningKeeps(moved, after);
    } else {
      assert after == moved;
    }
  }

  lemma ReadTruthKeeps(s: State, id: int)
    requires Inv(s) && Enabled(s, ReadTruth(id))
    ensures Inv(Do(s, ReadTruth(id)))
  {
    assert JobOk(s, id);
    var r := s.jobs[id].resource;
    MoveKeeps(s, id, Read(Project(s.db, r), GroupLives(s.db, r)));
  }

  lemma ReadMarkerKeeps(s: State, id: int)
    requires Inv(s) && Enabled(s, ReadMarker(id))
    ensures Inv(Do(s, ReadMarker(id)))
  {
    assert JobOk(s, id);
    var p := s.jobs[id].progress;
    if IndexMarked(s.redis, s.jobs[id].resource) {
      MarkedNeedsNoScan(s, id);
      MoveKeeps(s, id, Scanned(p.value, p.alive, {}));
    } else {
      MoveKeeps(s, id, Unmarked(p.value, p.alive));
    }
  }

  lemma MarkedNeedsNoScan(s: State, id: int)
    requires UsersCovered(s.redis) && id in s.jobs && JobOk(s, id)
    requires s.jobs[id].progress.Read? && IndexMarked(s.redis, s.jobs[id].resource)
    ensures JobOk(Move(s, id, Scanned(s.jobs[id].progress.value, s.jobs[id].progress.alive, {})), id)
  {
  }

  lemma ScanKeeps(s: State, id: int)
    requires Inv(s) && Enabled(s, Scan(id))
    ensures Inv(Do(s, Scan(id)))
  {
    assert JobOk(s, id);
    var p := s.jobs[id].progress;
    MoveKeeps(s, id, Scanned(p.value, p.alive, FullScan(s.redis, s.jobs[id].resource)));
  }

  // ---- Redis steps ----

  lemma InvalidateWeakens(rd: Redis, resource: Resource)
    ensures Weakens(rd, Invalidate(rd, resource))
  {
  }

  lemma DeleteRuntimeWeakens(rd: Redis, group: int)
    ensures Weakens(rd, DeleteRuntime(rd, group))
  {
  }

  lemma MessageWeakens(rd: Redis, attempt: Attempt)
    requires attempt.ToUser? || attempt.ToGroup?
    ensures Weakens(rd, Play(rd, attempt).1)
  {
    if attempt.ToGroup? {
      GroupCheckWeakens(rd, attempt.group, attempt.sender, attempt.clientId, attempt.messageId, attempt.now);
    } else {
      PrivateCheckWeakens(rd, attempt.sender, attempt.receiver, attempt.clientId, attempt.messageId, attempt.now);
    }
  }

  lemma PrivateCheckWeakens(rd: Redis, sender: int, receiver: int, clientId: string, messageId: int, now: int)
    ensures Weakens(rd, PrivateCheck(rd, sender, receiver, clientId, messageId, now).1)
  {
    SameProjectionsWeaken(rd, PrivateCheck(rd, sender, receiver, clientId, messageId, now).1);
  }

  lemma GroupCheckWeakens(rd: Redis, group: int, sender: int, clientId: string, messageId: int, now: int)
    ensures Weakens(rd, GroupCheck(rd, group, sender, clientId, messageId, now).1)
  {
    var (reply, after) := GroupCheck(rd, group, sender, clientId, messageId, now);
    if reply.verdict == Sent { assert sender in Of(rd.groupMembers, group); }
    SameProjectionsWeaken(rd, after);
  }

  /** Only dedup keys, and a sequence of a group that has members, may differ. */
  lemma SameProjectionsWeaken(rd: Redis, after: Redis)
    requires after == rd.(dedup := after.dedup, groupSeq := after.groupSeq)
    requires forall g :: g in after.groupSeq ==> g in rd.groupSeq || Of(rd.groupMembers, g) != {}
    ensures Weakens(rd, after)
  {
  }

  lemma MessageKeeps(s: State, attempt: Attempt)
    requires Inv(s) && Enabled(s, Message(attempt))
    ensures Inv(Do(s, Message(attempt)))
  {
    var after := Do(s, Message(attempt));
    MessageWeakens(s.redis, attempt);
    assert forall g :: g in s.redis.membersLoaded ==> RosterBounded(s.redis, s.written, g);
    assert forall g :: g in after.redis.membersLoaded ==> RosterBounded(after.redis, after.written, g);
    WeakeningKeeps(s, after);
  }

  lemma LossKeepsBound(rd: Redis, left: Redis, written: map<int, map<int, Info>>, group: int)
    requires SafeLoss(rd, left)
    requires group in left.membersLoaded
    requires group in rd.membersLoaded && RosterBounded(rd, written, group)
    ensures RosterBounded(left, written, group)
    ensures left.membersLoaded[group] == rd.membersLoaded[group]
    ensures Of(left.groupMembers, group) <= Of(rd.groupMembers, group)
    ensures RowsOf(left.memberInfo, group).Items <= RowsOf(rd.memberInfo, group).Items
  {
    assert (group, left.membersLoaded[group]) in left.membersLoaded.Items;
    var before, rows := RowsOf(rd.memberInfo, group), RowsOf(left.memberInfo, group);
    forall item | item in rows.Items
      ensures item in before.Items
    {
      var key := (group, item.0);
      assert (key, left.memberInfo[key]) in left.memberInfo.Items;
      assert item.0 in before && before[item.0] == item.1;
    }
  }

  /** A group that still counts as loaded after a loss lost nothing. */
  lemma LoadedMeansIntact(rd: Redis, left: Redis, written: map<int, map<int, Info>>, group: int)
    requires SafeLoss(rd, left)
    requires group in rd.membersLoaded && RosterBounded(rd, written, group)
    requires MembersLoaded(left, group)
    ensures MembersLoaded(rd, group) && SameContent(rd, left, Members(group))
  {
    LossKeepsBound(rd, left, written, group);
    CardinalityMarkerSound(left, group, written[group]);
    var before, rows, full := RowsOf(rd.memberInfo, group), RowsOf(left.memberInfo, group), written[group];
    assert rows == full;
    forall u
      ensures u in before <==> u in full
      ensures u in before && u in full ==> before[u] == full[u]
    {
      if u in before { assert (u, before[u]) in before.Items; }
      if u in full { assert (u, full[u]) in rows.Items; }
    }
    assert before == full;
    assert before.Keys == Of(rd.memberInfo.Keys, group) && rows.Keys == Of(left.memberInfo.Keys, group);
    CardinalityMarkerSound(rd, group, full);
  }

  lemma SafeLossWeakens(s: State, left: Redis)
    requires RostersBounded(s) && SafeLoss(s.redis, left)
    ensures Weakens(s.redis, left)
  {
    forall g | g in left.groupSeq
      ensures g in s.redis.groupSeq
    {
      assert (g, left.groupSeq[g]) in left.groupSeq.Items;
    }
    forall r: Resource | IsLoaded(left, r)
      ensures IsLoaded(s.redis, r) && SameContent(s.redis, left, r)
    {
      if r.Members? {
        assert (r.group, left.membersLoaded[r.group]) in left.membersLoaded.Items;
        assert RosterBounded(s.redis, s.written, r.group);
        LoadedMeansIntact(s.redis, left, s.written, r.group);
      }
    }
  }

  lemma LoseKeeps(s: State, left: Redis)
    requires Inv(s) && Enabled(s, Lose(left))
    ensures Inv(Do(s, Lose(left)))
  {
    SafeLossWeakens(s, left);
    forall g | g in left.membersLoaded
      ensures RosterBounded(left, s.written, g)
    {
      assert (g, left.membersLoaded[g]) in left.membersLoaded.Items;
      assert RosterBounded(s.redis, s.written, g);
      LossKeepsBound(s.redis, left, s.written, g);
    }
    WeakeningKeeps(s, Do(s, Lose(left)));
  }

  lemma DeleteRuntimeKeeps(s: State, group: int)
    requires Inv(s)
    ensures Inv(s.(redis := DeleteRuntime(s.redis, group)))
  {
    var after := s.(redis := DeleteRuntime(s.redis, group));
    DeleteRuntimeWeakens(s.redis, group);
    assert forall v :: v in s.redis.membersLoaded ==> RosterBounded(s.redis, s.written, v);
    assert forall v :: v in after.redis.membersLoaded ==> RosterBounded(after.redis, after.written, v);
    WeakeningKeeps(s, after);
  }

  lemma ClearRuntimeKeeps(s: State, id: int)
    requires Inv(s) && Enabled(s, ClearRuntime(id))
    ensures Inv(Do(s, ClearRuntime(id)))
  {
    var g := s.jobs[id].resource.group;
    var cleared := s.(redis := DeleteRuntime(s.redis, g));
    DeleteRuntimeKeeps(s, g);
    ClearedJobOk(cleared, id);
    MoveKeeps(cleared, id, Cleared);
  }

  /** Once the Set is empty and the sequence gone, a job on a dissolved group may count as cleared. */
  lemma ClearedJobOk(s: State, id: int)
    requires id in s.jobs && JobOk(s, id)
    requires s.jobs[id].progress == Replaced(false) && s.jobs[id].resource.Members?
    requires s.jobs[id].resource.group !in s.redis.groupSeq
    ensures JobOk(Move(s, id, Cleared), id)
  {
  }

  // ---- the script ----

  /** Two jobs that hold rows for one resource are the same job. */
  lemma OneHolderPerResource(s: State, a: int, b: int)
    requires Inv(s) && a in s.jobs && b in s.jobs
    requires s.jobs[a].resource == s.jobs[b].resource
    requires s.jobs[a].row.Some? && s.jobs[b].row.Some?
    ensures a == b
  {
    assert JobOk(s, a) && JobOk(s, b);
  }

  lemma FreshFrame(db: Db, rd: Redis, after: Redis, resource: Resource)
    requires SameFor(rd, after, resource)
    ensures Fresh(db, after, resource) == Fresh(db, rd, resource)
  {
  }

  /** The running job holds the owner row, so what it writes is what MySQL says at that moment; and what a
      full scan would have written, for a user always, for a group if its edges were covered. */
  lemma ScriptWritesTruth(s: State, id: int)
    requires Inv(s) && Enabled(s, RunScript(id))
    ensures var r, legacy := s.jobs[id].resource, s.jobs[id].progress.legacy;
            && Do(s, RunScript(id)).redis == Replace(s.redis, r, legacy, Project(s.db, r))
            && (!r.Members? || CoveredBy(s.redis, r, legacy) ==>
                  Do(s, RunScript(id)).redis == Replace(s.redis, r, FullScan(s.redis, r), Project(s.db, r)))
  {
    assert JobOk(s, id);
    var j := s.jobs[id];
    if !j.resource.Members? || CoveredBy(s.redis, j.resource, j.progress.legacy) {
      BoundedEqualsFullScan(s.redis, j.resource, j.progress.legacy, j.progress.value);
    }
  }

  lemma ScriptKeepsRosters(s: State, id: int)
    requires Inv(s) && Enabled(s, RunScript(id))
    ensures RostersBounded(DoScript(s, id))
  {
    var j, after := s.jobs[id], DoScript(s, id);
    assert JobOk(s, id);
    forall g | g in after.redis.membersLoaded
      ensures RosterBounded(after.redis, after.written, g)
    {
      if j.resource == Members(g) {
        ReplaceShows(s.redis, j.resource, j.progress.legacy, j.progress.value);
      } else {
        ReplaceFrame(s.redis, j.resource, j.progress.legacy, j.progress.value, Members(g));
        assert RosterBounded(s.redis, s.written, g);
      }
    }
  }

  lemma ScriptKeepsDissolved(s: State, id: int, group: int)
    requires Inv(s) && Enabled(s, RunScript(id))
    requires Dissolved(s, group)
    ensures Dissolved(DoScript(s, id), group)
  {
    var j := s.jobs[id];
    assert JobOk(s, id);
    if j.resource == Members(group) {
      ReplaceShows(s.redis, j.resource, j.progress.legacy, j.progress.value);
      ShownIsFresh(s.db, DoScript(s, id).redis, j.resource);
    } else {
      ReplaceFrame(s.redis, j.resource, j.progress.legacy, j.progress.value, Members(group));
    }
  }

  lemma ScriptKeepsOtherJob(s: State, id: int, other: int)
    requires Inv(s) && Enabled(s, RunScript(id))
    requires other in s.jobs && other != id
    ensures JobOk(DoScript(s, id), other)
  {
    var j, k := s.jobs[id], s.jobs[other];
    assert JobOk(s, id) && JobOk(s, other);
    if k.row.Some? {
      if k.resource == j.resource { OneHolderPerResource(s, id, other); }
      ReplaceFrame(s.redis, j.resource, j.progress.legacy, j.progress.value, k.resource);
      FreshFrame(s.db, s.redis, DoScript(s, id).redis, k.resource);
      if k.progress.Cleared? { ScriptKeepsDissolved(s, id, k.resource.group); }
    }
  }

  /** A projection that shows truth is fresh, and a dissolved group's Set is then empty. */
  lemma ShownIsFresh(db: Db, after: Redis, resource: Resource)
    requires GroupInv(db)
    requires Shows(after, resource, Project(db, resource))
    ensures Fresh(db, after, resource)
    ensures resource.Members? && resource.group in db.tombstones ==> Of(after.groupMembers, resource.group) == {}
  {
    if resource.Members? && resource.group in db.tombstones {
      TombstoneIsFinal(db, resource.group);
      assert RowsOf(after.memberInfo, resource.group).Keys == Of(after.memberInfo.Keys, resource.group);
    }
  }

  /** After its script a job leaves its projection fresh, and a dissolved group's Set empty. */
  lemma ScriptIsFresh(s: State, id: int)
    requires Inv(s) && Enabled(s, RunScript(id))
    ensures var r, rd := s.jobs[id].resource, DoScript(s, id).redis;
            && Fresh(s.db, rd, r)
            && (r.Members? && !GroupLives(s.db, r) ==> Of(rd.groupMembers, r.group) == {})
  {
    var j := s.jobs[id];
    assert JobOk(s, id);
    ReplaceShows(s.redis, j.resource, j.progress.legacy, j.progress.value);
    ShownIsFresh(s.db, DoScript(s, id).redis, j.resource);
  }

  lemma ScriptedJobOk(s: State, after: State, id: int)
    requires id in s.jobs && JobOk(s, id) && KnowsTruth(s.jobs[id].progress)
    requires after.db == s.db && after.rows == s.rows && after.events == s.events && after.tokens == s.tokens
    requires after.jobs == s.jobs[id := s.jobs[id].(progress := Replaced(s.jobs[id].progress.alive))]
    requires var r := s.jobs[id].resource;
             && Fresh(s.db, after.redis, r)
             && (r.Members? && !GroupLives(s.db, r) ==> Of(after.redis.groupMembers, r.group) == {})
    ensures JobOk(after, id)
  {
  }

  lemma ScriptKeepsOwnJob(s: State, id: int)
    requires Inv(s) && Enabled(s, RunScript(id))
    ensures JobOk(DoScript(s, id), id)
    ensures Fresh(s.db, DoScript(s, id).redis, s.jobs[id].resource)
  {
    assert JobOk(s, id);
    ScriptIsFresh(s, id);
    ScriptedJobOk(s, DoScript(s, id), id);
  }

  lemma ReplaceKeepsUsers(rd: Redis, resource: Resource, legacy: set<int>, value: Projection)
    requires UsersCovered(rd)
    requires Fits(resource, value) && (resource.Members? || CoveredBy(rd, resource, legacy))
    ensures UsersCovered(Replace(rd, resource, legacy, value))
  {
    var after := Replace(rd, resource, legacy, value);
    forall r: Resource | !r.Members? && IndexMarked(after, r)
      ensures CoveredBy(after, r, {})
    {
      if r == resource { ReplaceInstalls(rd, resource, legacy, value); }
      else { ReplaceFrame(rd, resource, legacy, value, r); }
    }
  }

  lemma ScriptKeeps(s: State, id: int)
    requires Inv(s) && Enabled(s, RunScript(id))
    ensures Inv(DoScript(s, id))
  {
    var j, after := s.jobs[id], DoScript(s, id);
    assert JobOk(s, id);
    ReplaceKeepsUsers(s.redis, j.resource, j.progress.legacy, j.progress.value);
    ScriptKeepsRosters(s, id);
    forall k | k in after.jobs
      ensures JobOk(after, k)
    {
      if k == id { ScriptKeepsOwnJob(s, id); } else { ScriptKeepsOtherJob(s, id, k); }
    }
    forall g | g in after.cleaned
      ensures Dissolved(after, g)
    {
      ScriptKeepsDissolved(s, id, g);
    }
    forall r: Resource | !Fresh(after.db, after.redis, r)
      ensures exists e :: Owes(after, e, r)
    {
      ScriptKeepsOwnJob(s, id);
      ReplaceFrame(s.redis, j.resource, j.progress.legacy, j.progress.value, r);
      FreshFrame(s.db, s.redis, after.redis, r);
      var e :| Owes(s, e, r);
      assert Owes(after, e, r);
    }
  }

  // ---- the snapshot commit ----

  lemma FinishedJobIsFresh(s: State, id: int)
    requires Inv(s) && Enabled(s, CommitSnapshot(id))
    ensures Fresh(s.db, s.redis, s.jobs[id].resource)
    ensures forall g :: g in DoFinish(s, id).cleaned ==> Dissolved(s, g)
    ensures EventsOk(DoFinish(s, id))
  {
    assert JobOk(s, id);
  }

  lemma FinishKeepsJobs(s: State, id: int)
    requires Inv(s) && Enabled(s, CommitSnapshot(id))
    ensures JobsOk(DoFinish(s, id)) && RowsOk(DoFinish(s, id))
  {
    assert JobOk(s, id);
    forall k | k in DoFinish(s, id).jobs
      ensures JobOk(DoFinish(s, id), k)
    {
      assert JobOk(s, k);
    }
  }

  /** A job finishes only while its projection is fresh, so no owing event is struck off. */
  lemma FinishKeeps(s: State, id: int)
    requires Inv(s) && Enabled(s, CommitSnapshot(id))
    ensures Inv(DoFinish(s, id))
  {
    var j, after := s.jobs[id], DoFinish(s, id);
    FinishedJobIsFresh(s, id);
    FinishKeepsJobs(s, id);
    assert forall g :: g in after.cleaned ==> Dissolved(after, g);
    assert forall g :: g in s.redis.membersLoaded ==> RosterBounded(s.redis, s.written, g);
    forall r: Resource | !Fresh(after.db, after.redis, r)
      ensures exists e :: Owes(after, e, r)
    {
      var e :| Owes(s, e, r);
      assert JobOk(s, id);
      assert Owes(after, e, r);
    }
  }

  /** Every step keeps the invariant. */
  lemma StepKeeps(s: State, action: Action)
    requires Inv(s) && Enabled(s, action)
    ensures Inv(Do(s, action))
  {
    match action
    case Commit(command) => CommitKeeps(s, command);
    case Claim(ids, token) => ClaimKeeps(s, ids, token);
    case MarkSuccess(id, token) => MarkKeeps(s, id, token, Done);
    case MarkFailure(id, token) => MarkKeeps(s, id, token, Queued);
    case Start(id, resource, reason) => StartKeeps(s, id, resource, reason);
    case TakeWarmLock(id) => TakeWarmLockKeeps(s, id);
    case ExpireWarmLock(resource) => ExpireWarmLockKeeps(s, resource);
    case FindLoaded(id) => FindLoadedKeeps(s, id);
    case Prepare(id) => PrepareKeeps(s, id);
    case LockOwner(id) => LockOwnerKeeps(s, id);
    case ReadTruth(id) => ReadTruthKeeps(s, id);
    case ReadMarker(id) => ReadMarkerKeeps(s, id);
    case Scan(id) => ScanKeeps(s, id);
    case RunScript(id) => ScriptKeeps(s, id);
    case ClearRuntime(id) => ClearRuntimeKeeps(s, id);
    case CommitSnapshot(id) => FinishKeeps(s, id);
    case Abort(id) => AbortKeeps(s, id);
    case Lose(left) => LoseKeeps(s, left);
    case Message(attempt) => MessageKeeps(s, attempt);
  }
}

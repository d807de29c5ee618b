/** An undisturbed job always finishes, and does what the service's reconcileCurrent does. */
module ProtocolProgress {
  import opened Common
  import opened Tables
  import opened Business
  import opened Locks
  import opened RedisKeys
  import opened CacheProtocol
  import opened ProtocolInvariant
  import opened Repair

  ghost predicate Runs(s: State, actions: seq<Action>, t: State)
    decreases |actions|
  {
    if actions == [] then t == s
    else Enabled(s, actions[0]) && Runs(Do(s, actions[0]), actions[1..], t)
  }

  /** Some enabled steps lead from s to t. */
  ghost predicate Leads(s: State, t: State) {
    exists actions :: Runs(s, actions, t)
  }

  lemma {:induction false} RunsJoin(s: State, first: seq<Action>, t: State, second: seq<Action>, u: State)
    requires Runs(s, first, t) && Runs(t, second, u)
    ensures Runs(s, first + second, u)
    decreases |first|
  {
    if first == [] {
      assert first + second == second;
    } else {
      assert (first + second)[1..] == first[1..] + second;
      RunsJoin(Do(s, first[0]), first[1..], t, second, u);
    }
  }

  lemma LeadsOn(s: State, t: State, u: State)
    requires Leads(s, t) && Leads(t, u)
    ensures Leads(s, u)
  {
    var first :| Runs(s, first, t);
    var second :| Runs(t, second, u);
    RunsJoin(s, first, t, second, u);
  }

  lemma LeadsByOne(s: State, action: Action, t: State)
    requires Enabled(s, action) && t == Do(s, action)
    ensures Leads(s, t)
  {
    assert Runs(t, [action][1..], t);
    assert Runs(s, [action], t);
  }

  predicate MayLock(s: State, id: int) {
    && At(s, id, Ready)
    && OwnerRow(s.db, s.jobs[id].resource).Some?
    && OwnerRow(s.db, s.jobs[id].resource).value !in s.rows
  }

  /** s with the job at another point of progress; a job that holds a row holds it in `rows`. */
  function Holding(s: State, id: int, progress: Progress): State
    requires MayLock(s, id)
  {
    var j := s.jobs[id];
    var row := OwnerRow(s.db, j.resource).value;
    s.(jobs := s.jobs[id := Job(j.resource, j.reason, progress, Some(row))], rows := s.rows[row := id])
  }

  lemma LockStep(s: State, id: int)
    requires MayLock(s, id)
    ensures Leads(s, Holding(s, id, Locked))
  {
    LeadsByOne(s, LockOwner(id), Holding(s, id, Locked));
  }

  lemma ReadStep(s: State, id: int)
    requires MayLock(s, id)
    ensures var r := s.jobs[id].resource;
            Leads(Holding(s, id, Locked), Holding(s, id, Read(Project(s.db, r), GroupLives(s.db, r))))
  {
    var r, locked := s.jobs[id].resource, Holding(s, id, Locked);
    var read := Holding(s, id, Read(Project(s.db, r), GroupLives(s.db, r)));
    UpdatedTwice(s.jobs, id, locked.jobs[id], read.jobs[id]);
    LeadsByOne(locked, ReadTruth(id), read);
  }

  lemma MarkerStep(s: State, id: int, value: Projection, alive: bool)
    requires MayLock(s, id)
    ensures var next := if IndexMarked(s.redis, s.jobs[id].resource) then Scanned(value, alive, {}) else Unmarked(value, alive);
            Leads(Holding(s, id, Read(value, alive)), Holding(s, id, next))
  {
    var next := if IndexMarked(s.redis, s.jobs[id].resource) then Scanned(value, alive, {}) else Unmarked(value, alive);
    var read := Holding(s, id, Read(value, alive));
    UpdatedTwice(s.jobs, id, read.jobs[id], read.jobs[id].(progress := next));
    LeadsByOne(read, ReadMarker(id), Holding(s, id, next));
  }

  lemma ScanStep(s: State, id: int, value: Projection, alive: bool)
    requires MayLock(s, id)
    ensures Leads(Holding(s, id, Unmarked(value, alive)),
                  Holding(s, id, Scanned(value, alive, FullScan(s.redis, s.jobs[id].resource))))
  {
    LeadsByOne(Holding(s, id, Unmarked(value, alive)), Scan(id),
               Holding(s, id, Scanned(value, alive, FullScan(s.redis, s.jobs[id].resource))));
  }

  /** Everything read: truth, and the legacy ids that the script needs. */
  lemma ReadingRuns(s: State, id: int)
    requires MayLock(s, id)
    ensures var r := s.jobs[id].resource;
            Leads(s, Holding(s, id, Scanned(Project(s.db, r), GroupLives(s.db, r), Legacy(s.redis, r))))
  {
    var r := s.jobs[id].resource;
    var value, alive := Project(s.db, r), GroupLives(s.db, r);
    var locked, read := Holding(s, id, Locked), Holding(s, id, Read(value, alive));
    LockStep(s, id);
    ReadStep(s, id);
    LeadsOn(s, locked, read);
    MarkerStep(s, id, value, alive);
    if IndexMarked(s.redis, r) {
      LeadsOn(s, read, Holding(s, id, Scanned(value, alive, {})));
    } else {
      LeadsOn(s, read, Holding(s, id, Unmarked(value, alive)));
      ScanStep(s, id, value, alive);
      LeadsOn(s, Holding(s, id, Unmarked(value, alive)), Holding(s, id, Scanned(value, alive, FullScan(s.redis, r))));
    }
  }

  /** `written` has the replacement done; `cleared` also lacks a missing group's runtime. */
  lemma ScriptStep(s: State, id: int)
    requires id in s.jobs && s.jobs[id].progress.Scanned? && Fits(s.jobs[id].resource, s.jobs[id].progress.value)
    ensures Leads(s, DoScript(s, id))
  {
    LeadsByOne(s, RunScript(id), DoScript(s, id));
  }

  lemma ClearStep(s: State, id: int)
    requires At(s, id, Replaced(false)) && s.jobs[id].resource.Members?
    ensures Leads(s, Move(s, id, Cleared).(redis := DeleteRuntime(s.redis, s.jobs[id].resource.group)))
  {
    LeadsByOne(s, ClearRuntime(id), Move(s, id, Cleared).(redis := DeleteRuntime(s.redis, s.jobs[id].resource.group)));
  }

  lemma CommitStep(s: State, id: int)
    requires id in s.jobs
    requires s.jobs[id].progress == Cleared || s.jobs[id].progress == Replaced(true)
             || (s.jobs[id].progress == Replaced(false) && !s.jobs[id].resource.Members?)
    ensures Leads(s, DoFinish(s, id))
  {
    LeadsByOne(s, CommitSnapshot(id), DoFinish(s, id));
  }

  /** What a finished job leaves: Redis reconciled, its row and its lock free, its claim recorded, a dissolved
      group recorded as cleaned, all else as before. */
  predicate Finishes(s: State, id: int, after: State)
    requires id in s.jobs
  {
    var j := s.jobs[id];
    && after.redis == Reconciled(s.db, s.redis, j.resource)
    && after.db == s.db && after.events == s.events && after.tokens == s.tokens
    && after.jobs == s.jobs - {id}
    && (j.reason.ForEvent? ==> (j.reason.event, j.reason.token) in after.finished)
    && (j.resource.Members? && j.resource.group !in s.db.groups ==> j.resource.group in after.cleaned)
    && after.warm == if j.resource in s.warm && s.warm[j.resource] == id then s.warm - {j.resource} else s.warm
  }

  lemma UpdatedAway(jobs: map<int, Job>, id: int, job: Job)
    ensures jobs[id := job] - {id} == jobs - {id}
  {
    SameMap(jobs[id := job] - {id}, jobs - {id});
  }

  lemma FinishOf(s: State, id: int, last: State)
    requires id in s.jobs && id in last.jobs
    requires last.redis == Reconciled(s.db, s.redis, s.jobs[id].resource)
    requires last.db == s.db && last.events == s.events && last.tokens == s.tokens && last.rows == s.rows
    requires last.jobs == s.jobs[id := last.jobs[id]]
    requires last.jobs[id].reason == s.jobs[id].reason && last.jobs[id].row == s.jobs[id].row
    requires last.warm == s.warm && last.jobs[id].resource == s.jobs[id].resource
    requires s.jobs[id].resource.Members? && s.jobs[id].resource.group !in s.db.groups ==> last.jobs[id].progress == Cleared
    ensures Finishes(s, id, DoFinish(last, id)) && DoFinish(last, id).rows == FreeRow(s.rows, s.jobs[id].row)
  {
    UpdatedAway(s.jobs, id, last.jobs[id]);
  }

  /** `written` is s after the script of its job. */
  predicate Wrote(s: State, id: int, written: State)
    requires id in s.jobs
  {
    var j := s.jobs[id];
    && written.redis == Replace(s.redis, j.resource, Legacy(s.redis, j.resource), Project(s.db, j.resource))
    && written.db == s.db && written.events == s.events && written.tokens == s.tokens && written.rows == s.rows
    && written.warm == s.warm
    && written.jobs == s.jobs[id := j.(progress := Replaced(GroupLives(s.db, j.resource)))]
  }

  lemma ScriptWrites(s: State, id: int)
    requires id in s.jobs
    requires var j := s.jobs[id];
             j.progress == Scanned(Project(s.db, j.resource), GroupLives(s.db, j.resource), Legacy(s.redis, j.resource))
    ensures Leads(s, DoScript(s, id)) && Wrote(s, id, DoScript(s, id))
  {
    ScriptStep(s, id);
  }

  /** The end of a job whose owner still exists. */
  lemma LiveEnds(s: State, id: int, written: State)
    requires id in s.jobs && Wrote(s, id, written)
    requires s.jobs[id].resource.Members? ==> GroupLives(s.db, s.jobs[id].resource)
    ensures Leads(written, DoFinish(written, id))
    ensures Finishes(s, id, DoFinish(written, id)) && DoFinish(written, id).rows == FreeRow(s.rows, s.jobs[id].row)
  {
    CommitStep(written, id);
    FinishOf(s, id, written);
  }

  /** `written` after the runtime of its dissolved group was deleted. */
  predicate Cleaned(written: State, id: int, cleared: State)
    requires id in written.jobs && written.jobs[id].resource.Members?
  {
    && cleared.redis == DeleteRuntime(written.redis, written.jobs[id].resource.group)
    && cleared.db == written.db && cleared.events == written.events && cleared.tokens == written.tokens
    && cleared.warm == written.warm
    && cleared.rows == written.rows && cleared.jobs == written.jobs[id := written.jobs[id].(progress := Cleared)]
  }

  lemma ClearLeads(written: State, id: int) returns (cleared: State)
    requires At(written, id, Replaced(false)) && written.jobs[id].resource.Members?
    ensures Leads(written, cleared) && Cleaned(written, id, cleared)
  {
    cleared := Move(written, id, Cleared).(redis := DeleteRuntime(written.redis, written.jobs[id].resource.group));
    ClearStep(written, id);
  }

  lemma UpdatedTwice(jobs: map<int, Job>, id: int, first: Job, second: Job)
    ensures jobs[id := first][id := second] == jobs[id := second]
  {
    SameMap(jobs[id := first][id := second], jobs[id := second]);
  }

  lemma CleanedFinish(s: State, id: int, written: State, cleared: State)
    requires id in s.jobs && Wrote(s, id, written)
    requires s.jobs[id].resource.Members? && !GroupLives(s.db, s.jobs[id].resource)
    requires Cleaned(written, id, cleared)
    ensures Finishes(s, id, DoFinish(cleared, id)) && DoFinish(cleared, id).rows == FreeRow(s.rows, s.jobs[id].row)
  {
    var j := s.jobs[id];
    UpdatedTwice(s.jobs, id, j.(progress := Replaced(false)), j.(progress := Cleared));
    FinishOf(s, id, cleared);
  }

  /** The end of a job for a dissolved group. */
  lemma GoneEnds(s: State, id: int, written: State) returns (after: State)
    requires id in s.jobs && Wrote(s, id, written)
    requires s.jobs[id].resource.Members? && !GroupLives(s.db, s.jobs[id].resource)
    ensures Leads(written, after)
    ensures Finishes(s, id, after) && after.rows == FreeRow(s.rows, s.jobs[id].row)
  {
    var cleared := ClearLeads(written, id);
    CleanedFinish(s, id, written, cleared);
    CommitStep(cleared, id);
    after := DoFinish(cleared, id);
    LeadsOn(written, cleared, after);
  }

  lemma WritingRuns(s: State, id: int) returns (after: State)
    requires id in s.jobs
    requires var j := s.jobs[id];
             j.progress == Scanned(Project(s.db, j.resource), GroupLives(s.db, j.resource), Legacy(s.redis, j.resource))
    ensures Leads(s, after) && Finishes(s, id, after) && after.rows == FreeRow(s.rows, s.jobs[id].row)
  {
    var written := DoScript(s, id);
    ScriptWrites(s, id);
    if s.jobs[id].resource.Members? && !GroupLives(s.db, s.jobs[id].resource) {
      after := GoneEnds(s, id, written);
    } else {
      LiveEnds(s, id, written);
      after := DoFinish(written, id);
    }
    LeadsOn(s, written, after);
  }

  lemma FinishesFrame(s: State, read: State, id: int, after: State)
    requires id in s.jobs && id in read.jobs && Finishes(read, id, after)
    requires read.redis == s.redis && read.db == s.db && read.events == s.events && read.tokens == s.tokens && read.warm == s.warm
    requires read.jobs == s.jobs[id := read.jobs[id]]
    requires read.jobs[id].resource == s.jobs[id].resource && read.jobs[id].reason == s.jobs[id].reason
    ensures Finishes(s, id, after)
  {
    UpdatedAway(s.jobs, id, read.jobs[id]);
  }

  lemma RowGivenBack(rows: map<Row, int>, row: Row, id: int)
    requires row !in rows
    ensures FreeRow(rows[row := id], Some(row)) == rows
  {
    assert rows[row := id] - {row} == rows;
  }

  /** Progress: whenever a job may lock its owner row it can run to its end, and then it has done to Redis
      exactly what reconcileCurrent does, freed its row, and may finish the event it worked for. */
  lemma JobCanFinish(s: State, id: int) returns (after: State)
    requires MayLock(s, id)
    ensures Leads(s, after) && Finishes(s, id, after) && after.rows == s.rows
  {
    var r, row := s.jobs[id].resource, OwnerRow(s.db, s.jobs[id].resource).value;
    var read := Holding(s, id, Scanned(Project(s.db, r), GroupLives(s.db, r), Legacy(s.redis, r)));
    ReadingRuns(s, id);
    after := WritingRuns(read, id);
    LeadsOn(s, read, after);
    RowGivenBack(s.rows, row, id);
    FinishesFrame(s, read, id, after);
  }

  // ---- a whole repair ----

  /** Nobody works on the resource of an unfinished event, and its owner exists. */
  predicate Idle(s: State, event: int) {
    && event in s.events && s.events[event].status != Done
    && s.events[event].resource !in s.warm
    && OwnerRow(s.db, s.events[event].resource).Some?
    && OwnerRow(s.db, s.events[event].resource).value !in s.rows
  }

  function WithJob(s: State, id: int, event: int, token: int, progress: Progress): State
    requires event in s.events
  {
    s.(jobs := s.jobs[id := Job(s.events[event].resource, ForEvent(event, token), progress, None)])
  }

  /** The event claimed and a job for it waiting. */
  lemma ClaimLeads(s: State, event: int, token: int, id: int)
    requires Idle(s, event) && token !in s.tokens && id !in s.jobs
    ensures Leads(s, WithJob(DoClaim(s, {event}, token), id, event, token, Waiting))
  {
    var claimed := DoClaim(s, {event}, token);
    var r := s.events[event].resource;
    LeadsByOne(s, Claim({event}, token), claimed);
    LeadsByOne(claimed, Start(id, r, ForEvent(event, token)), WithJob(claimed, id, event, token, Waiting));
    LeadsOn(s, claimed, WithJob(claimed, id, event, token, Waiting));
  }

  lemma AdmitLeads(s: State, id: int, event: int, token: int)
    requires event in s.events && s.events[event].resource !in s.warm
    ensures var r := s.events[event].resource;
            Leads(WithJob(s, id, event, token, Waiting), WithJob(s, id, event, token, Admitted).(warm := s.warm[r := id]))
  {
    var r, waiting := s.events[event].resource, WithJob(s, id, event, token, Waiting);
    var admitted := WithJob(s, id, event, token, Admitted).(warm := s.warm[r := id]);
    var j := waiting.jobs[id];
    UpdatedTwice(s.jobs, id, j, j.(progress := Admitted));
    LeadsByOne(waiting, TakeWarmLock(id), admitted);
  }

  lemma PrepareLeads(s: State, id: int, event: int, token: int)
    requires event in s.events
    ensures Leads(WithJob(s, id, event, token, Admitted), WithJob(s, id, event, token, Ready))
  {
    var admitted, ready := WithJob(s, id, event, token, Admitted), WithJob(s, id, event, token, Ready);
    var j := admitted.jobs[id];
    UpdatedTwice(s.jobs, id, j, j.(progress := Ready));
    LeadsByOne(admitted, Prepare(id), ready);
  }

  /** s with the event claimed and its job ready to lock the owner row. */
  function Launched(s: State, event: int, token: int, id: int): State
    requires event in s.events
  {
    WithJob(DoClaim(s, {event}, token).(warm := s.warm[s.events[event].resource := id]), id, event, token, Ready)
  }

  lemma LaunchLeads(s: State, event: int, token: int, id: int)
    requires Idle(s, event) && token !in s.tokens && id !in s.jobs
    ensures Leads(s, Launched(s, event, token, id))
  {
    var claimed := DoClaim(s, {event}, token);
    var locked := claimed.(warm := s.warm[s.events[event].resource := id]);
    var waiting, admitted := WithJob(claimed, id, event, token, Waiting), WithJob(locked, id, event, token, Admitted);
    ClaimLeads(s, event, token, id);
    AdmitLeads(claimed, id, event, token);
    LeadsOn(s, waiting, admitted);
    PrepareLeads(locked, id, event, token);
    LeadsOn(s, admitted, Launched(s, event, token, id));
  }

  lemma MarkLeads(s: State, event: int, token: int)
    requires event in s.events && s.events[event].status == Claimed(token) && (event, token) in s.finished
    ensures Leads(s, DoMark(s, event, token, Done))
  {
    LeadsByOne(s, MarkSuccess(event, token), DoMark(s, event, token, Done));
  }

  lemma IdleRepairCanFinish(s: State, event: int, token: int, id: int) returns (after: State)
    requires UsersCovered(s.redis)
    requires Idle(s, event) && token !in s.tokens && id !in s.jobs
    ensures Leads(s, after)
    ensures event in after.events && after.events[event] == s.events[event].(status := Done)
    ensures after.db == s.db && after.jobs == s.jobs && after.rows == s.rows
    ensures Repaired(after, s.events[event].resource)
  {
    var r := s.events[event].resource;
    var ready := Launched(s, event, token, id);
    LaunchLeads(s, event, token, id);
    var worked := JobCanFinish(ready, id);
    LeadsOn(s, ready, worked);
    LaunchedEnds(s, event, token, id, worked);
    MarkLeads(worked, event, token);
    after := DoMark(worked, event, token, Done);
    LeadsOn(s, worked, after);
  }

  /** Loaded, and showing exactly what MySQL says. */
  ghost predicate Repaired(s: State, resource: Resource) {
    IsLoaded(s.redis, resource) && Shows(s.redis, resource, Project(s.db, resource))
  }

  lemma LaunchedEnds(s: State, event: int, token: int, id: int, worked: State)
    requires UsersCovered(s.redis)
    requires event in s.events && id !in s.jobs
    requires Finishes(Launched(s, event, token, id), id, worked)
    ensures worked.db == s.db && Repaired(worked, s.events[event].resource)
    ensures worked.jobs == s.jobs
    ensures event in worked.events && worked.events[event] == s.events[event].(status := Claimed(token))
    ensures (event, token) in worked.finished
  {
    var r, ready := s.events[event].resource, Launched(s, event, token, id);
    WorkShowsTruth(s.db, s.redis, r, false);
    SameMap(s.jobs[id := ready.jobs[id]] - {id}, s.jobs);
  }

  // ---- clearing the way ----

  /** s with at most the job that holds the event's owner row crashed, and at most the resource's Redis lock
      expired. */
  predicate WayIsClear(s: State, event: int, idle: State) {
    && Idle(idle, event)
    && idle.db == s.db && idle.redis == s.redis && idle.events == s.events && idle.tokens == s.tokens
    && idle.jobs.Keys <= s.jobs.Keys
  }

  lemma RowCanBeFreed(s: State, row: Row) returns (freed: State)
    requires RowsOk(s)
    ensures Leads(s, freed) && row !in freed.rows
    ensures freed == s.(jobs := freed.jobs, rows := freed.rows)
    ensures freed.jobs.Keys <= s.jobs.Keys
  {
    if row in s.rows {
      var holder := s.rows[row];
      freed := DoAbort(s, holder);
      LeadsByOne(s, Abort(holder), freed);
    } else {
      freed := s;
      assert Runs(s, [], s);
    }
  }

  lemma LockCanExpire(s: State, resource: Resource) returns (expired: State)
    ensures Leads(s, expired) && resource !in expired.warm
    ensures expired == s.(warm := expired.warm)
  {
    if resource in s.warm {
      expired := s.(warm := s.warm - {resource});
      LeadsByOne(s, ExpireWarmLock(resource), expired);
    } else {
      expired := s;
      assert Runs(s, [], s);
    }
  }

  lemma WayCanBeCleared(s: State, event: int) returns (idle: State)
    requires RowsOk(s)
    requires event in s.events && s.events[event].status != Done
    requires OwnerRow(s.db, s.events[event].resource).Some?
    ensures Leads(s, idle) && WayIsClear(s, event, idle)
  {
    var r := s.events[event].resource;
    var freed := RowCanBeFreed(s, OwnerRow(s.db, r).value);
    idle := LockCanExpire(freed, r);
    LeadsOn(s, freed, idle);
  }

  /** s with a waiting job for a resource, admitted, and ready to lock the owner row. */
  function Joined(s: State, resource: Resource, reason: Reason, id: int, progress: Progress): State {
    s.(jobs := s.jobs[id := Job(resource, reason, progress, None)])
  }

  lemma JoinLeads(s: State, resource: Resource, reason: Reason, id: int)
    requires id !in s.jobs && resource !in s.warm && !reason.ForEvent?
    ensures Leads(s, Joined(s, resource, reason, id, Admitted).(warm := s.warm[resource := id]))
  {
    var waiting := Joined(s, resource, reason, id, Waiting);
    var j := waiting.jobs[id];
    UpdatedTwice(s.jobs, id, j, j.(progress := Admitted));
    LeadsByOne(s, Start(id, resource, reason), waiting);
    LeadsByOne(waiting, TakeWarmLock(id), Joined(s, resource, reason, id, Admitted).(warm := s.warm[resource := id]));
    LeadsOn(s, waiting, Joined(s, resource, reason, id, Admitted).(warm := s.warm[resource := id]));
  }

  lemma ReadyLeads(s: State, resource: Resource, reason: Reason, id: int)
    requires reason == OnDemand ==> !IsLoaded(s.redis, resource)
    ensures Leads(Joined(s, resource, reason, id, Admitted),
                  Joined(s, resource, reason, id, Ready).(redis := Prepared(s.redis, resource, reason == StrictRebuild)))
  {
    var admitted := Joined(s, resource, reason, id, Admitted);
    var j := admitted.jobs[id];
    UpdatedTwice(s.jobs, id, j, j.(progress := Ready));
    LeadsByOne(admitted, Prepare(id), Joined(s, resource, reason, id, Ready).(redis := Prepared(s.redis, resource, reason == StrictRebuild)));
  }

  /** s with at most one job crashed and at most the resource's Redis lock expired. */
  lemma OwnerCanBeFreed(s: State, resource: Resource) returns (idle: State)
    requires RowsOk(s) && OwnerRow(s.db, resource).Some?
    ensures Leads(s, idle) && resource !in idle.warm && OwnerRow(s.db, resource).value !in idle.rows
    ensures idle.db == s.db && idle.redis == s.redis && idle.events == s.events && idle.jobs.Keys <= s.jobs.Keys
  {
    var freed := RowCanBeFreed(s, OwnerRow(s.db, resource).value);
    idle := LockCanExpire(freed, resource);
    LeadsOn(s, freed, idle);
  }

  /** The fast path, an on-demand load of what is not loaded and a strict rebuild can run to their end from every
      reachable state in which the owner exists. Redis is then what the sequential service makes of it; after a
      strict rebuild the truth is installed whatever Redis held. No event is touched. */
  lemma WorkCanFinish(s: State, resource: Resource, reason: Reason, id: int) returns (after: State)
    requires Inv(s) && OwnerRow(s.db, resource).Some? && id !in s.jobs
    requires !reason.ForEvent? && (reason == OnDemand ==> !IsLoaded(s.redis, resource))
    ensures Leads(s, after) && after.db == s.db && after.events == s.events && id !in after.jobs
    ensures after.redis == Reconciled(s.db, Prepared(s.redis, resource, reason == StrictRebuild), resource)
    ensures Repaired(after, resource)
    ensures reason == StrictRebuild ==> Installed(after.redis, resource, Project(s.db, resource))
  {
    var idle := OwnerCanBeFreed(s, resource);
    var locked := idle.(warm := idle.warm[resource := id]);
    var ready := Joined(locked, resource, reason, id, Ready).(redis := Prepared(s.redis, resource, reason == StrictRebuild));
    JoinLeads(idle, resource, reason, id);
    ReadyLeads(locked, resource, reason, id);
    LeadsOn(idle, Joined(locked, resource, reason, id, Admitted), ready);
    LeadsOn(s, idle, ready);
    after := JobCanFinish(ready, id);
    LeadsOn(s, ready, after);
    WorkShowsTruth(s.db, s.redis, resource, reason == StrictRebuild);
  }

  lemma WorkShowsTruth(db: Db, rd: Redis, resource: Resource, strict: bool)
    requires UsersCovered(rd)
    ensures var after := Reconciled(db, Prepared(rd, resource, strict), resource);
            && IsLoaded(after, resource) && Shows(after, resource, Project(db, resource))
            && (strict ==> Installed(after, resource, Project(db, resource)))
  {
    if strict {
      BulkInstalls(db, rd, resource, true);
    } else {
      if !resource.Members? && IndexMarked(rd, resource) { assert CoveredBy(rd, resource, {}); }
      ReconciledShowsIff(db, rd, resource);
    }
  }

  /** A repair that is owed can always be made: from every reachable state with an unfinished event whose owner
      exists, some steps finish that event and leave its projection loaded and equal to MySQL, whoever holds
      the lock or the row now. */
  lemma RepairCanFinish(s: State, event: int, token: int, id: int) returns (after: State)
    requires Inv(s)
    requires event in s.events && s.events[event].status != Done
    requires OwnerRow(s.db, s.events[event].resource).Some?
    requires token !in s.tokens && id !in s.jobs
    ensures Leads(s, after)
    ensures event in after.events && after.events[event] == s.events[event].(status := Done)
    ensures after.db == s.db && Repaired(after, s.events[event].resource)
  {
    var idle := WayCanBeCleared(s, event);
    after := IdleRepairCanFinish(idle, event, token, id);
    LeadsOn(s, idle, after);
  }
}

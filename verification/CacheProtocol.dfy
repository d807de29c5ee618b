/** MySQL is the truth and Redis a projection of it: the interleaving of business commits, event
    claims, reconciling jobs, crashes, lock expiry and loss of Redis keys, one small step at a time. */
module CacheProtocol {
  import opened Common
  import opened Tables
  import opened Business
  import opened Locks
  import opened RedisKeys
  import opened MessageChecks

  datatype EventStatus = Queued | Claimed(token: int) | Done

  datatype Event = Event(resource: Resource, status: EventStatus)

  /** What a reconciling job runs for. */
  datatype Reason = FastPath | OnDemand | StrictRebuild | ForEvent(event: int, token: int)

  /** How far a job has come inside withResourceLock and WithinCacheSnapshot. */
  datatype Progress =
    | Waiting                                        // polling for the warm lock
    | Admitted                                       // holds (or held) the warm lock
    | Ready                                          // loaded recheck or invalidation done
    | Locked                                         // holds the owner row
    | Read(value: Projection, alive: bool)           // truth read
    | Unmarked(value: Projection, alive: bool)       // index marker missing, SCAN still to do
    | Scanned(value: Projection, alive: bool, legacy: set<int>)
    | Replaced(alive: bool)                          // script ran
    | Cleared                                        // a dissolved group's runtime deleted

  datatype Job = Job(resource: Resource, reason: Reason, progress: Progress, row: Option<Row>)

  /** `finished`, `written` and `cleaned` are history: the claims whose job committed, the roster last
      written for each group, and the dissolved groups that were fully reconciled. */
  datatype State = State(
    db: Db,
    redis: Redis,
    events: map<int, Event>,
    nextEvent: int,
    tokens: set<int>,
    jobs: map<int, Job>,
    rows: map<Row, int>,
    warm: map<Resource, int>,
    finished: set<(int, int)>,
    written: map<int, map<int, Info>>,
    cleaned: set<int>)

  datatype Action =
    | Commit(command: Command)
    | Claim(ids: set<int>, token: int)
    | MarkSuccess(id: int, token: int)
    | MarkFailure(id: int, token: int)
    | Start(job: int, resource: Resource, reason: Reason)
    | TakeWarmLock(job: int)
    | ExpireWarmLock(resource: Resource)
    | FindLoaded(job: int)
    | Prepare(job: int)
    | LockOwner(job: int)
    | ReadTruth(job: int)
    | ReadMarker(job: int)
    | Scan(job: int)
    | RunScript(job: int)
    | ClearRuntime(job: int)
    | CommitSnapshot(job: int)
    | Abort(job: int)
    | Lose(left: Redis)
    | Message(attempt: Attempt)

  // ---- steps ----

  /** One queued event per named resource. */
  function Enqueue(events: map<int, Event>, next: int, resources: seq<Resource>): map<int, Event>
    decreases |resources|
  {
    if resources == [] then events
    else Enqueue(events[next := Event(resources[0], Queued)], next + 1, resources[1..])
  }

  function DoCommit(s: State, command: Command): State {
    var out := Apply(s.db, command);
    s.(db := out.db,
       events := Enqueue(s.events, s.nextEvent, out.events),
       nextEvent := s.nextEvent + |out.events|)
  }

  function ClaimEvents(events: map<int, Event>, ids: set<int>, token: int): map<int, Event> {
    map id | id in events :: if id in ids then events[id].(status := Claimed(token)) else events[id]
  }

  function DoClaim(s: State, ids: set<int>, token: int): State {
    s.(events := ClaimEvents(s.events, ids, token), tokens := s.tokens + {token})
  }

  /** The UPDATE is guarded by status = 1 AND lock_token = token; any other row is left alone. */
  function MarkEvent(events: map<int, Event>, id: int, token: int, status: EventStatus): map<int, Event> {
    if id in events && events[id].status == Claimed(token) then events[id := events[id].(status := status)]
    else events
  }

  function DoMark(s: State, id: int, token: int, status: EventStatus): State {
    s.(events := MarkEvent(s.events, id, token, status))
  }

  function Move(s: State, job: int, progress: Progress): State
    requires job in s.jobs
  {
    s.(jobs := s.jobs[job := s.jobs[job].(progress := progress)])
  }

  function Release(warm: map<Resource, int>, resource: Resource, job: int): map<Resource, int> {
    if resource in warm && warm[resource] == job then warm - {resource} else warm
  }

  function FreeRow(rows: map<Row, int>, row: Option<Row>): map<Row, int> {
    match row case None => rows case Some(r) => rows - {r}
  }

  function DoLockOwner(s: State, job: int, row: Row): State
    requires job in s.jobs
  {
    s.(jobs := s.jobs[job := s.jobs[job].(progress := Locked, row := Some(row))], rows := s.rows[row := job])
  }

  function DoScript(s: State, job: int): State
    requires job in s.jobs && s.jobs[job].progress.Scanned?
    requires Fits(s.jobs[job].resource, s.jobs[job].progress.value)
  {
    var j := s.jobs[job];
    var p := j.progress;
    Move(s, job, Replaced(p.alive)).(
      redis := Replace(s.redis, j.resource, p.legacy, p.value),
      written := if j.resource.Members? then s.written[j.resource.group := p.value.roster] else s.written)
  }

  /** COMMIT of the snapshot transaction, release of the warm lock, return to the caller. */
  function DoFinish(s: State, job: int): State
    requires job in s.jobs
  {
    var j := s.jobs[job];
    s.(jobs := s.jobs - {job},
       rows := FreeRow(s.rows, j.row),
       warm := Release(s.warm, j.resource, job),
       finished := s.finished + (if j.reason.ForEvent? then {(j.reason.event, j.reason.token)} else {}),
       cleaned := s.cleaned + (if j.progress.Cleared? && j.resource.Members? then {j.resource.group} else {}))
  }

  /** An error or a crash: the transaction rolls back, the warm lock is left to its TTL. */
  function DoAbort(s: State, job: int): State
    requires job in s.jobs
  {
    s.(jobs := s.jobs - {job}, rows := FreeRow(s.rows, s.jobs[job].row))
  }

  predicate At(s: State, job: int, progress: Progress) {
    job in s.jobs && s.jobs[job].progress == progress
  }

  /** Keys may vanish, but not a friend or blocked entry under a standing loaded marker, and not a friend
      index entry without the key it names. Groups may lose any member, field, edge or index entry. The online
      keys come and go as the presence scripts please. */
  ghost predicate SafeLoss(rd: Redis, left: Redis) {
    && left.friendKeys <= rd.friendKeys && left.friendLoaded <= rd.friendLoaded
    && left.friendIndex <= rd.friendIndex && left.friendIndexLoaded <= rd.friendIndexLoaded
    && left.blocked <= rd.blocked && left.blacklistLoaded <= rd.blacklistLoaded
    && left.groupMembers <= rd.groupMembers
    && left.memberInfo.Items <= rd.memberInfo.Items
    && left.membersLoaded.Items <= rd.membersLoaded.Items
    && left.userGroups <= rd.userGroups
    && left.reverseIndex <= rd.reverseIndex && left.reverseIndexLoaded <= rd.reverseIndexLoaded
    && left.groupSeq.Items <= rd.groupSeq.Items
    && left.outbox <= rd.outbox && left.dedup.Items <= rd.dedup.Items
    && (forall o :: o in left.friendLoaded ==> Of(left.friendKeys, o) == Of(rd.friendKeys, o))
    && (forall o :: o in left.blacklistLoaded ==> Of(left.blocked, o) == Of(rd.blocked, o))
    && (forall o :: Uncovered(left, Friends(o)) <= Uncovered(rd, Friends(o)))
  }

  function Uncovered(rd: Redis, resource: Resource): set<int> {
    OwnedKeys(rd, resource) - IndexedKeys(rd, resource)
  }

  ghost predicate Enabled(s: State, action: Action) {
    match action
    case Commit(command) => forall row :: row in Plan(s.db, command) ==> row !in s.rows
    case Claim(ids, token) =>
      && token !in s.tokens
      && (forall id :: id in ids ==> id in s.events && s.events[id].status != Done)
    case MarkSuccess(id, token) => (id, token) in s.finished
    case MarkFailure(id, token) => token in s.tokens
    case Start(job, resource, reason) =>
      && job !in s.jobs
      && (reason.ForEvent? ==>
            reason.event in s.events && s.events[reason.event].resource == resource && reason.token in s.tokens)
    case TakeWarmLock(job) => At(s, job, Waiting) && s.jobs[job].resource !in s.warm
    case ExpireWarmLock(resource) => resource in s.warm
    case FindLoaded(job) =>
      At(s, job, Admitted) && s.jobs[job].reason == OnDemand && IsLoaded(s.redis, s.jobs[job].resource)
    case Prepare(job) =>
      At(s, job, Admitted) && (s.jobs[job].reason == OnDemand ==> !IsLoaded(s.redis, s.jobs[job].resource))
    case LockOwner(job) =>
      && At(s, job, Ready)
      && OwnerRow(s.db, s.jobs[job].resource).Some?
      && OwnerRow(s.db, s.jobs[job].resource).value !in s.rows
    case ReadTruth(job) => At(s, job, Locked)
    case ReadMarker(job) => job in s.jobs && s.jobs[job].progress.Read?
    case Scan(job) => job in s.jobs && s.jobs[job].progress.Unmarked?
    case RunScript(job) =>
      job in s.jobs && s.jobs[job].progress.Scanned? && Fits(s.jobs[job].resource, s.jobs[job].progress.value)
    case ClearRuntime(job) =>
      job in s.jobs && s.jobs[job].progress == Replaced(false) && s.jobs[job].resource.Members?
    case CommitSnapshot(job) =>
      && job in s.jobs
      && (|| s.jobs[job].progress == Cleared
          || s.jobs[job].progress == Replaced(true)
          || (s.jobs[job].progress == Replaced(false) && !s.jobs[job].resource.Members?))
    case Abort(job) => job in s.jobs
    case Lose(left) => SafeLoss(s.redis, left)
    case Message(attempt) => attempt.ToUser? || attempt.ToGroup?
  }

  function Do(s: State, action: Action): State
    requires Enabled(s, action)
  {
    match action
    case Commit(command) => DoCommit(s, command)
    case Claim(ids, token) => DoClaim(s, ids, token)
    case MarkSuccess(id, token) => DoMark(s, id, token, Done)
    case MarkFailure(id, token) => DoMark(s, id, token, Queued)
    case Start(job, resource, reason) => s.(jobs := s.jobs[job := Job(resource, reason, Waiting, None)])
    case TakeWarmLock(job) => Move(s, job, Admitted).(warm := s.warm[s.jobs[job].resource := job])
    case ExpireWarmLock(resource) => s.(warm := s.warm - {resource})
    case FindLoaded(job) =>
      s.(jobs := s.jobs - {job}, warm := Release(s.warm, s.jobs[job].resource, job))
    case Prepare(job) =>
      var r := s.jobs[job].resource;
      Move(s, job, Ready).(redis := if s.jobs[job].reason == StrictRebuild then Invalidate(s.redis, r) else s.redis)
    case LockOwner(job) => DoLockOwner(s, job, OwnerRow(s.db, s.jobs[job].resource).value)
    case ReadTruth(job) =>
      var r := s.jobs[job].resource;
      Move(s, job, Read(Project(s.db, r), GroupLives(s.db, r)))
    case ReadMarker(job) =>
      var p := s.jobs[job].progress;
      Move(s, job, if IndexMarked(s.redis, s.jobs[job].resource) then Scanned(p.value, p.alive, {})
                   else Unmarked(p.value, p.alive))
    case Scan(job) =>
      var p := s.jobs[job].progress;
      Move(s, job, Scanned(p.value, p.alive, FullScan(s.redis, s.jobs[job].resource)))
    case RunScript(job) => DoScript(s, job)
    case ClearRuntime(job) =>
      Move(s, job, Cleared).(redis := DeleteRuntime(s.redis, s.jobs[job].resource.group))
    case CommitSnapshot(job) => DoFinish(s, job)
    case Abort(job) => DoAbort(s, job)
    case Lose(left) => s.(redis := left)
    case Message(attempt) => s.(redis := Play(s.redis, attempt).1)
  }

  /** Any valid tables, and any Redis left by an older release that has no markers yet. */
  ghost predicate Init(s: State) {
    && DbInv(s.db)
    && s.redis.friendLoaded == {} && s.redis.friendIndexLoaded == {} && s.redis.blacklistLoaded == {}
    && s.redis.membersLoaded == map[] && s.redis.reverseIndexLoaded == {}
    && s.events == map[] && s.tokens == {} && s.jobs == map[] && s.rows == map[]
    && s.finished == {} && s.written == map[] && s.cleaned == {}
  }

  ghost predicate Step(s: State, after: State) {
    exists action :: Enabled(s, action) && after == Do(s, action)
  }

  ghost predicate IsRun(run: seq<State>) {
    && |run| > 0
    && Init(run[0])
    && forall i :: 0 <= i < |run| - 1 ==> Step(run[i], run[i + 1])
  }
}

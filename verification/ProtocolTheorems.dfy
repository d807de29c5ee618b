/** What holds in every reachable state of the cache protocol. */
module ProtocolTheorems {
  import opened Common
  import opened Tables
  import opened FriendPairs
  import opened GroupLifecycle
  import opened Business
  import opened Locks
  import opened RedisKeys
  import opened MessageChecks
  import opened CacheProtocol
  import opened ProtocolInvariant
  import opened ProtocolSteps

  lemma {:induction false} RunHolds(run: seq<State>, i: nat)
    requires IsRun(run) && i < |run|
    ensures Inv(run[i])
  {
    if i == 0 {
      InitHolds(run[0]);
    } else {
      RunHolds(run, i - 1);
      assert Step(run[i - 1], run[i - 1 + 1]);
      var action :| Enabled(run[i - 1], action) && run[i] == Do(run[i - 1], action);
      StepKeeps(run[i - 1], action);
    }
  }

  // ---- no repair is lost ----

  /** Every event that names the resource has been processed. */
  ghost predicate Settled(s: State, resource: Resource) {
    forall id :: id in s.events && s.events[id].resource == resource ==> s.events[id].status == Done
  }

  /** A loaded projection that differs from MySQL still has an unfinished event, through every crash, lease
      takeover, repeated reconcile and late mark. */
  lemma NoRepairIsLost(run: seq<State>, i: nat, resource: Resource)
    requires IsRun(run) && i < |run|
    requires IsLoaded(run[i].redis, resource)
    requires !Shows(run[i].redis, resource, Project(run[i].db, resource))
    ensures exists id :: id in run[i].events && run[i].events[id].resource == resource
                         && run[i].events[id].status != Done
  {
    RunHolds(run, i);
    var s := run[i];
    assert !Fresh(s.db, s.redis, resource);
    var id :| Owes(s, id, resource);
  }

  lemma StaleIsOwed(s: State, resource: Resource)
    requires NoRepairLost(s) && !Fresh(s.db, s.redis, resource)
    ensures exists id :: Owes(s, id, resource)
  {
  }

  lemma SettledIsFresh(run: seq<State>, i: nat, resource: Resource)
    requires IsRun(run) && i < |run|
    requires IsLoaded(run[i].redis, resource) && Settled(run[i], resource)
    ensures Shows(run[i].redis, resource, Project(run[i].db, resource))
  {
    RunHolds(run, i);
    var s := run[i];
    assert forall id :: !Owes(s, id, resource);
    if !Fresh(s.db, s.redis, resource) { StaleIsOwed(s, resource); }
  }

  /** A done event stays done and keeps its resource. */
  lemma DoneIsAbsorbing(s: State, action: Action, id: int)
    requires EventsOk(s) && Enabled(s, action)
    requires id in s.events && s.events[id].status == Done
    ensures id in Do(s, action).events && Do(s, action).events[id] == s.events[id]
  {
    if action.Commit? {
      EnqueueFacts(s.events, s.nextEvent, Apply(s.db, action.command).events);
    }
  }

  /** Only the current token holder, and only after it reconciled, can finish an event. */
  lemma DoneNeedsReconciledHolder(s: State, action: Action, id: int)
    requires EventsOk(s) && Enabled(s, action)
    requires id in s.events && s.events[id].status != Done
    requires id in Do(s, action).events && Do(s, action).events[id].status == Done
    ensures s.events[id].status.Claimed?
    ensures action == MarkSuccess(id, s.events[id].status.token)
    ensures (id, s.events[id].status.token) in s.finished
  {
    if action.Commit? {
      EnqueueFacts(s.events, s.nextEvent, Apply(s.db, action.command).events);
    }
  }

  /** A claim counts as reconciled only when its own job commits, at a moment when the projection of the
      event's resource agrees with MySQL. */
  lemma ReconciledMeansFresh(s: State, action: Action, id: int, token: int)
    requires Inv(s) && Enabled(s, action)
    requires (id, token) !in s.finished && (id, token) in Do(s, action).finished
    ensures action.CommitSnapshot? && s.jobs[action.job].reason == ForEvent(id, token)
    ensures id in s.events && Fresh(s.db, s.redis, s.events[id].resource)
  {
    assert action.CommitSnapshot?;
    assert JobOk(s, action.job);
    FinishedJobIsFresh(s, action.job);
  }

  // ---- the fine-grained reconcile refines an atomic one ----

  /** Reading truth and replacing the projection in one instant, with a full scan. */
  function Reconcile(db: Db, rd: Redis, resource: Resource): Redis {
    Replace(rd, resource, FullScan(rd, resource), Project(db, resource))
  }

  /** Nothing that a script reads to admit a message is added or rewritten, loaded or not. */
  ghost predicate LosesOnly(rd: Redis, after: Redis) {
    && after.friendKeys <= rd.friendKeys && after.blocked <= rd.blocked
    && after.groupMembers <= rd.groupMembers && after.memberInfo.Items <= rd.memberInfo.Items
  }

  /** The coarse machine: a commit, an instantaneous reconcile, or Redis losing or counting things. */
  ghost predicate CoarseStep(db: Db, rd: Redis, db': Db, rd': Redis) {
    || (rd' == rd && exists command :: db' == Apply(db, command).db)
    || (db' == db && exists resource :: rd' == Reconcile(db, rd, resource))
    || (db' == db && Weakens(rd, rd') && LosesOnly(rd, rd'))
  }

  predicate TouchesRedis(action: Action) {
    action.Prepare? || action.RunScript? || action.ClearRuntime? || action.Lose? || action.Message?
  }

  lemma QuietStep(s: State, action: Action)
    requires Enabled(s, action) && !TouchesRedis(action)
    ensures Do(s, action).redis == s.redis
  {
  }

  lemma SameWeakens(rd: Redis)
    ensures Weakens(rd, rd) && LosesOnly(rd, rd)
  {
  }

  /** An atomic reconcile of a group that left some of the group's own stale reverse edges behind. */
  ghost predicate ReconciledUpToEdges(db: Db, rd: Redis, rd': Redis, group: int) {
    var full := Reconcile(db, rd, Members(group));
    && rd' == full.(userGroups := rd'.userGroups)
    && full.userGroups <= rd'.userGroups
    && forall p :: p in rd'.userGroups && p !in full.userGroups ==> p.0 == group && p in rd.userGroups
  }

  /** A coarse step, except that a group whose index entries were lost may keep stale edges. */
  ghost predicate CoarseStepUpToEdges(db: Db, rd: Redis, db': Db, rd': Redis) {
    CoarseStep(db, rd, db', rd') || (db' == db && exists group :: ReconciledUpToEdges(db, rd, rd', group))
  }

  lemma GroupScriptUpToEdges(db: Db, rd: Redis, group: int, legacy: set<int>)
    ensures ReconciledUpToEdges(db, rd, Replace(rd, Members(group), legacy, Project(db, Members(group))), group)
  {
  }

  lemma ScriptIsCoarse(s: State, id: int)
    requires Inv(s) && Enabled(s, RunScript(id))
    ensures CoarseStepUpToEdges(s.db, s.redis, s.db, DoScript(s, id).redis)
    ensures !s.jobs[id].resource.Members? || CoveredBy(s.redis, s.jobs[id].resource, s.jobs[id].progress.legacy) ==>
              CoarseStep(s.db, s.redis, s.db, DoScript(s, id).redis)
  {
    var r, after := s.jobs[id].resource, DoScript(s, id).redis;
    ScriptWritesTruth(s, id);
    if !r.Members? || CoveredBy(s.redis, r, s.jobs[id].progress.legacy) {
      assert after == Reconcile(s.db, s.redis, r);
    } else {
      GroupScriptUpToEdges(s.db, s.redis, r.group, s.jobs[id].progress.legacy);
    }
  }

  lemma OtherStepIsCoarse(s: State, action: Action)
    requires Inv(s) && Enabled(s, action) && !action.RunScript?
    ensures CoarseStep(s.db, s.redis, Do(s, action).db, Do(s, action).redis)
  {
    var after := Do(s, action);
    OtherStepLosesOnly(s, action);
    match action
    case Commit(command) => assert after.db == Apply(s.db, command).db;
    case Prepare(id) =>
      InvalidateWeakens(s.redis, s.jobs[id].resource);
      SameWeakens(s.redis);
    case ClearRuntime(id) => DeleteRuntimeWeakens(s.redis, s.jobs[id].resource.group);
    case Lose(left) => SafeLossWeakens(s, left);
    case Message(attempt) => MessageWeakens(s.redis, attempt);
    case _ => SameWeakens(s.redis);
  }

  /** Seen through MySQL and Redis alone, every step of every interleaving is a coarse step: no older
      snapshot ever lands after a newer commit. Where group indexes are intact, stale edges are out too. */
  lemma EveryStepIsCoarse(s: State, action: Action)
    requires Inv(s) && Enabled(s, action)
    ensures CoarseStepUpToEdges(s.db, s.redis, Do(s, action).db, Do(s, action).redis)
    ensures GroupsCovered(s) ==> CoarseStep(s.db, s.redis, Do(s, action).db, Do(s, action).redis)
  {
    if action.RunScript? {
      ScriptIsCoarse(s, action.job);
    } else {
      OtherStepIsCoarse(s, action);
    }
  }

  lemma FineRunIsCoarse(run: seq<State>, i: nat)
    requires IsRun(run) && i + 1 < |run|
    ensures CoarseStepUpToEdges(run[i].db, run[i].redis, run[i + 1].db, run[i + 1].redis)
  {
    RunHolds(run, i);
    assert Step(run[i], run[i + 1]);
    var action :| Enabled(run[i], action) && run[i + 1] == Do(run[i], action);
    EveryStepIsCoarse(run[i], action);
  }

  /** What the scripts would read of a resource has at most shrunk. */
  ghost predicate ContentWithin(rd: Redis, after: Redis, resource: Resource) {
    match resource
    case Friends(o) => Of(after.friendKeys, o) <= Of(rd.friendKeys, o)
    case Blacklist(o) => Of(after.blocked, o) <= Of(rd.blocked, o)
    case Members(g) =>
      && Of(after.groupMembers, g) <= Of(rd.groupMembers, g)
      && (forall u :: (g, u) in after.memberInfo ==> (g, u) in rd.memberInfo && after.memberInfo[(g, u)] == rd.memberInfo[(g, u)])
  }

  lemma LosesOnlyIsWithin(rd: Redis, after: Redis, resource: Resource)
    requires LosesOnly(rd, after)
    ensures ContentWithin(rd, after, resource)
  {
    if resource.Members? {
      forall u | (resource.group, u) in after.memberInfo
        ensures (resource.group, u) in rd.memberInfo && after.memberInfo[(resource.group, u)] == rd.memberInfo[(resource.group, u)]
      {
        assert ((resource.group, u), after.memberInfo[(resource.group, u)]) in after.memberInfo.Items;
      }
    }
  }

  lemma OtherStepLosesOnly(s: State, action: Action)
    requires Enabled(s, action) && !action.RunScript?
    ensures LosesOnly(s.redis, Do(s, action).redis)
  {
    if TouchesRedis(action) {
      match action
      case Prepare(id) => InvalidateLosesOnly(s.redis, s.jobs[id].resource);
      case Message(attempt) => MessageLosesOnly(s.redis, attempt);
      case _ =>
    } else {
      QuietStep(s, action);
    }
  }

  lemma InvalidateLosesOnly(rd: Redis, resource: Resource)
    ensures LosesOnly(rd, Invalidate(rd, resource))
  {
  }

  lemma MessageLosesOnly(rd: Redis, attempt: Attempt)
    requires attempt.ToUser? || attempt.ToGroup?
    ensures LosesOnly(rd, Play(rd, attempt).1)
  {
    var after := Play(rd, attempt).1;
    assert after.friendKeys == rd.friendKeys && after.blocked == rd.blocked;
    assert after.groupMembers == rd.groupMembers && after.memberInfo == rd.memberInfo;
  }

  lemma SameContentIsWithin(rd: Redis, after: Redis, resource: Resource)
    requires SameFor(rd, after, resource)
    ensures ContentWithin(rd, after, resource)
  {
    if resource.Members? {
      assert RowsOf(after.memberInfo, resource.group) == RowsOf(rd.memberInfo, resource.group);
      forall u | (resource.group, u) in after.memberInfo
        ensures (resource.group, u) in rd.memberInfo && after.memberInfo[(resource.group, u)] == rd.memberInfo[(resource.group, u)]
      {
        assert u in RowsOf(after.memberInfo, resource.group);
      }
    }
  }

  /** Stated without any machine: from one moment to the next, what the scripts read of a resource, loaded or
      not, either shrinks or becomes exactly what MySQL says at that moment. Nothing older ever lands. */
  lemma NothingOldLands(s: State, action: Action, resource: Resource)
    requires Inv(s) && Enabled(s, action)
    ensures var after := Do(s, action);
            || ContentWithin(s.redis, after.redis, resource)
            || (after.db == s.db && Shows(after.redis, resource, Project(s.db, resource)))
  {
    if action.RunScript? {
      var j := s.jobs[action.job];
      assert JobOk(s, action.job);
      if j.resource == resource {
        ReplaceShows(s.redis, resource, j.progress.legacy, j.progress.value);
      } else {
        ReplaceFrame(s.redis, j.resource, j.progress.legacy, j.progress.value, resource);
        SameContentIsWithin(s.redis, Do(s, action).redis, resource);
      }
    } else {
      OtherStepLosesOnly(s, action);
      LosesOnlyIsWithin(s.redis, Do(s, action).redis, resource);
    }
  }

  // ---- runs that lose no group index entry ----

  /** Every group edge is in the index wherever a marker stands, and in the hands of every job about to write. */
  ghost predicate GroupsCovered(s: State) {
    && (forall g :: IndexMarked(s.redis, Members(g)) ==> CoveredBy(s.redis, Members(g), {}))
    && (forall id :: id in s.jobs && s.jobs[id].progress.Scanned? && s.jobs[id].resource.Members? ==>
          CoveredBy(s.redis, s.jobs[id].resource, s.jobs[id].progress.legacy))
  }

  ghost predicate SparesGroupIndexes(rd: Redis, left: Redis) {
    && (forall g :: IndexMarked(left, Members(g)) ==> IndexMarked(rd, Members(g)))
    && (forall g :: Uncovered(left, Members(g)) <= Uncovered(rd, Members(g)))
  }

  ghost predicate CarefulStep(s: State, after: State) {
    exists action :: Enabled(s, action) && after == Do(s, action) && (action.Lose? ==> SparesGroupIndexes(s.redis, action.left))
  }

  ghost predicate IsCarefulRun(run: seq<State>) {
    && |run| > 0
    && Init(run[0])
    && forall i :: 0 <= i < |run| - 1 ==> CarefulStep(run[i], run[i + 1])
  }

  /** Steps that change neither edges nor jobs' knowledge of them, or only weaken Redis. */
  lemma SparedStaysCovered(s: State, after: State)
    requires GroupsCovered(s) && SparesGroupIndexes(s.redis, after.redis)
    requires forall id :: id in after.jobs && after.jobs[id].progress.Scanned? && after.jobs[id].resource.Members? ==>
               (id in s.jobs && s.jobs[id] == after.jobs[id])
               || CoveredBy(after.redis, after.jobs[id].resource, after.jobs[id].progress.legacy)
    ensures GroupsCovered(after)
  {
    forall g | IndexMarked(after.redis, Members(g))
      ensures CoveredBy(after.redis, Members(g), {})
    {
      CoverFromUncovered(s.redis, Members(g), {});
      CoverFromUncovered(after.redis, Members(g), {});
    }
    forall id | id in after.jobs && after.jobs[id].progress.Scanned? && after.jobs[id].resource.Members?
      ensures CoveredBy(after.redis, after.jobs[id].resource, after.jobs[id].progress.legacy)
    {
      if !CoveredBy(after.redis, after.jobs[id].resource, after.jobs[id].progress.legacy) {
        CoverFromUncovered(s.redis, after.jobs[id].resource, after.jobs[id].progress.legacy);
        CoverFromUncovered(after.redis, after.jobs[id].resource, after.jobs[id].progress.legacy);
      }
    }
  }

  lemma ReplaceCoversGroup(rd: Redis, resource: Resource, legacy: set<int>, value: Projection, group: int)
    requires Fits(resource, value)
    requires resource == Members(group) ==> CoveredBy(rd, resource, legacy)
    requires IndexMarked(rd, Members(group)) ==> CoveredBy(rd, Members(group), {})
    ensures var after := Replace(rd, resource, legacy, value);
            IndexMarked(after, Members(group)) ==> CoveredBy(after, Members(group), {})
  {
    if resource == Members(group) {
      ReplaceInstalls(rd, resource, legacy, value);
    } else {
      ReplaceFrame(rd, resource, legacy, value, Members(group));
    }
  }

  lemma ReplaceKeepsCover(rd: Redis, resource: Resource, legacy: set<int>, value: Projection, other: Resource, held: set<int>)
    requires Fits(resource, value) && other != resource
    requires CoveredBy(rd, other, held)
    ensures CoveredBy(Replace(rd, resource, legacy, value), other, held)
  {
    ReplaceFrame(rd, resource, legacy, value, other);
  }

  lemma OtherHolderElsewhere(s: State, id: int, other: int)
    requires Inv(s) && Enabled(s, RunScript(id))
    requires other in s.jobs && other != id && HoldsRow(s.jobs[other].progress)
    ensures s.jobs[other].resource != s.jobs[id].resource
  {
    assert JobOk(s, id) && JobOk(s, other);
    if s.jobs[other].resource == s.jobs[id].resource { OneHolderPerResource(s, id, other); }
  }

  lemma ScriptStaysCovered(s: State, id: int)
    requires Inv(s) && GroupsCovered(s) && Enabled(s, RunScript(id))
    ensures GroupsCovered(DoScript(s, id))
  {
    var j, after := s.jobs[id], DoScript(s, id);
    var legacy, value := j.progress.legacy, j.progress.value;
    assert after.redis == Replace(s.redis, j.resource, legacy, value);
    forall g | IndexMarked(after.redis, Members(g))
      ensures CoveredBy(after.redis, Members(g), {})
    {
      ReplaceCoversGroup(s.redis, j.resource, legacy, value, g);
    }
    forall k | k in after.jobs && after.jobs[k].progress.Scanned? && after.jobs[k].resource.Members?
      ensures CoveredBy(after.redis, after.jobs[k].resource, after.jobs[k].progress.legacy)
    {
      OtherHolderElsewhere(s, id, k);
      ReplaceKeepsCover(s.redis, j.resource, legacy, value, s.jobs[k].resource, s.jobs[k].progress.legacy);
    }
  }

  lemma StepSparesIndexes(s: State, action: Action)
    requires Enabled(s, action) && !action.RunScript?
    requires action.Lose? ==> SparesGroupIndexes(s.redis, action.left)
    ensures SparesGroupIndexes(s.redis, Do(s, action).redis)
  {
    if TouchesRedis(action) {
      match action
      case Prepare(id) => InvalidateSparesIndexes(s.redis, s.jobs[id].resource);
      case Message(attempt) => MessageSparesIndexes(s.redis, attempt);
      case _ =>
    } else {
      QuietStep(s, action);
    }
  }

  lemma InvalidateSparesIndexes(rd: Redis, resource: Resource)
    ensures SparesGroupIndexes(rd, Invalidate(rd, resource))
  {
  }

  lemma MessageSparesIndexes(rd: Redis, attempt: Attempt)
    requires attempt.ToUser? || attempt.ToGroup?
    ensures SparesGroupIndexes(rd, Play(rd, attempt).1)
  {
    var after := Play(rd, attempt).1;
    assert after.userGroups == rd.userGroups && after.reverseIndex == rd.reverseIndex;
    assert after.reverseIndexLoaded == rd.reverseIndexLoaded;
  }

  /** A job newly about to write knows its group's edges: by the marker, or by its scan. */
  lemma NewlyScannedIsCovered(s: State, action: Action, id: int)
    requires GroupsCovered(s) && Enabled(s, action) && !action.RunScript?
    requires id in Do(s, action).jobs
    requires var j := Do(s, action).jobs[id];
             j.progress.Scanned? && j.resource.Members? && !(id in s.jobs && s.jobs[id] == j)
    ensures var j := Do(s, action).jobs[id]; CoveredBy(Do(s, action).redis, j.resource, j.progress.legacy)
  {
  }

  lemma CarefulStaysCovered(s: State, action: Action)
    requires Inv(s) && GroupsCovered(s) && Enabled(s, action)
    requires action.Lose? ==> SparesGroupIndexes(s.redis, action.left)
    ensures GroupsCovered(Do(s, action))
  {
    if action.RunScript? {
      ScriptStaysCovered(s, action.job);
    } else {
      var after := Do(s, action);
      StepSparesIndexes(s, action);
      forall id | id in after.jobs && after.jobs[id].progress.Scanned? && after.jobs[id].resource.Members?
                  && !(id in s.jobs && s.jobs[id] == after.jobs[id])
        ensures CoveredBy(after.redis, after.jobs[id].resource, after.jobs[id].progress.legacy)
      {
        NewlyScannedIsCovered(s, action, id);
      }
      SparedStaysCovered(s, after);
    }
  }

  lemma {:induction false} CarefulRunHolds(run: seq<State>, i: nat)
    requires IsCarefulRun(run) && i < |run|
    ensures Inv(run[i]) && GroupsCovered(run[i])
  {
    if i == 0 {
      InitHolds(run[0]);
    } else {
      CarefulRunHolds(run, i - 1);
      assert CarefulStep(run[i - 1], run[i - 1 + 1]);
      var action :| Enabled(run[i - 1], action) && run[i] == Do(run[i - 1], action)
                    && (action.Lose? ==> SparesGroupIndexes(run[i - 1].redis, action.left));
      StepKeeps(run[i - 1], action);
      CarefulStaysCovered(run[i - 1], action);
    }
  }

  /** In a run that loses no group index entry without its edge, every step is a coarse step to the letter. */
  lemma CarefulRunIsCoarse(run: seq<State>, i: nat)
    requires IsCarefulRun(run) && i + 1 < |run|
    ensures CoarseStep(run[i].db, run[i].redis, run[i + 1].db, run[i + 1].redis)
  {
    CarefulRunHolds(run, i);
    assert CarefulStep(run[i], run[i + 1]);
    var action :| Enabled(run[i], action) && run[i + 1] == Do(run[i], action);
    EveryStepIsCoarse(run[i], action);
  }

  // ---- end-to-end authorisation ----

  ghost predicate ReadyAndSettled(s: State, resource: Resource) {
    IsLoaded(s.redis, resource) && Settled(s, resource)
  }

  /** With the four projections loaded and their events processed, the private script refuses exactly as
      the MySQL rows say, and only deduplication remains as a further reason to refuse. */
  lemma PrivateAuthorisation(run: seq<State>, i: nat, sender: int, receiver: int, clientId: string, messageId: int, now: int)
    requires IsRun(run) && i < |run|
    requires ReadyAndSettled(run[i], Friends(sender)) && ReadyAndSettled(run[i], Friends(receiver))
    requires ReadyAndSettled(run[i], Blacklist(sender)) && ReadyAndSettled(run[i], Blacklist(receiver))
    requires ValidId(messageId)
    ensures var s := run[i];
            var truth := PrivateTruth(s.db, sender, receiver);
            PrivateCheck(s.redis, sender, receiver, clientId, messageId, now).0.verdict ==
              if truth != Sent then truth
              else if DedupLive(s.redis, sender, clientId, now) then Duplicate
              else Sent
  {
    SettledIsFresh(run, i, Friends(sender));
    SettledIsFresh(run, i, Friends(receiver));
    SettledIsFresh(run, i, Blacklist(sender));
    SettledIsFresh(run, i, Blacklist(receiver));
    PrivateAgrees(run[i].redis, run[i].db, sender, receiver);
  }

  /** The same for groups, mute deadlines included. */
  lemma GroupAuthorisation(run: seq<State>, i: nat, group: int, sender: int, clientId: string, messageId: int, now: nat)
    requires IsRun(run) && i < |run|
    requires ReadyAndSettled(run[i], Members(group))
    requires ValidId(messageId)
    ensures var s := run[i];
            var truth := GroupTruth(s.db, group, sender, now);
            GroupCheck(s.redis, group, sender, clientId, messageId, now).0.verdict ==
              if truth != Sent then truth
              else if DedupLive(s.redis, sender, clientId, now) then Duplicate
              else Sent
  {
    SettledIsFresh(run, i, Members(group));
    GroupAgrees(run[i].redis, run[i].db, group, sender, now);
  }

  // ---- dissolution is permanent ----

  lemma CleanedGrows(s: State, action: Action)
    requires Enabled(s, action)
    ensures s.cleaned <= Do(s, action).cleaned
  {
  }

  lemma StepGrows(s: State, after: State)
    requires Step(s, after)
    ensures s.cleaned <= after.cleaned
  {
    var action :| Enabled(s, action) && after == Do(s, action);
    CleanedGrows(s, action);
  }

  lemma {:induction false} CleanedStays(run: seq<State>, i: nat, k: nat, group: int)
    requires forall j :: 0 <= j < |run| - 1 ==> run[j].cleaned <= run[j + 1].cleaned
    requires i <= k < |run| && group in run[i].cleaned
    ensures group in run[k].cleaned
    decreases k
  {
    if i < k {
      CleanedStays(run, i, k - 1, group);
      assert run[k - 1].cleaned <= run[k - 1 + 1].cleaned;
    }
  }

  /** After one successful reconcile of a dissolved group, for the rest of the run its member Set stays
      empty, its sequence stays absent, and its script refuses everyone. */
  lemma DissolutionIsPermanent(run: seq<State>, i: nat, k: nat, group: int, user: int, now: int)
    requires IsRun(run) && i <= k < |run|
    requires group in run[i].cleaned
    ensures group in run[k].db.tombstones && group !in run[k].db.groups
    ensures Of(run[k].redis.groupMembers, group) == {}
    ensures group !in run[k].redis.groupSeq
    ensures GroupVerdict(run[k].redis, group, user, now) == NotMember
  {
    forall j | 0 <= j < |run| - 1
      ensures run[j].cleaned <= run[j + 1].cleaned
    {
      StepGrows(run[j], run[j + 1]);
    }
    CleanedStays(run, i, k, group);
    RunHolds(run, k);
    assert Dissolved(run[k], group);
    assert user !in Of(run[k].redis.groupMembers, group);
  }

  /** The order matters: deleting the runtime before replacing the members lets a message slip in between
      and leaves its sequence behind. */
  lemma RuntimeFirstLeavesSequence(rd: Redis, group: int, user: int, clientId: string, now: int)
    requires GroupVerdict(rd, group, user, now) == Sent && !DedupLive(rd, user, clientId, now)
    ensures var deleted := DeleteRuntime(rd, group);
            var sent := GroupCheck(deleted, group, user, clientId, 1, now).1;
            var replaced := Replace(sent, Members(group), {}, Roster(map[]));
            group in replaced.groupSeq
  {
  }

  // ---- what losses do ----

  /** left keeps a part of rd. */
  ghost predicate LossOnly(rd: Redis, left: Redis) {
    && left.friendKeys <= rd.friendKeys && left.friendLoaded <= rd.friendLoaded
    && left.blocked <= rd.blocked && left.blacklistLoaded <= rd.blacklistLoaded
  }

  /** Losing friend or blacklist entries leaves "loaded means true" standing exactly when the loaded marker goes
      too, or nothing under it was lost: unlike a group's, these markers carry no count. */
  lemma LossKeepsLoadedTrueIff(db: Db, rd: Redis, left: Redis, resource: Resource)
    requires LossOnly(rd, left)
    requires !resource.Members?
    requires IsLoaded(rd, resource) && Shows(rd, resource, Project(db, resource))
    ensures Fresh(db, left, resource) <==>
              !IsLoaded(left, resource) || OwnedKeys(left, resource) == OwnedKeys(rd, resource)
  {
  }

  /** Whatever is lost, markers or not, the private script now admits a pair exactly if both friend keys
      survived and it was admitted before, or it was blocked and neither blacklist entry survived. */
  lemma LossAdmitsPairIff(rd: Redis, left: Redis, sender: int, receiver: int)
    requires left.friendKeys <= rd.friendKeys && left.blocked <= rd.blocked
    ensures PrivateVerdict(left, sender, receiver) == Sent <==>
              && (sender, receiver) in left.friendKeys && (receiver, sender) in left.friendKeys
              && (|| PrivateVerdict(rd, sender, receiver) == Sent
                  || (PrivateVerdict(rd, sender, receiver) == Blocked
                      && (receiver, sender) !in left.blocked && (sender, receiver) !in left.blocked))
  {
  }

  /** For groups every loss fails closed: the verdict stays as it was while Set entry and Hash field survive,
      and otherwise nobody is admitted. */
  lemma LossNeverAdmitsMember(rd: Redis, left: Redis, group: int, user: int, now: int)
    requires left.groupMembers <= rd.groupMembers && left.memberInfo.Items <= rd.memberInfo.Items
    ensures GroupVerdict(left, group, user, now) ==
              if (group, user) in left.groupMembers && (group, user) in left.memberInfo then GroupVerdict(rd, group, user, now)
              else NotMember
  {
    if (group, user) in left.memberInfo {
      assert ((group, user), left.memberInfo[(group, user)]) in left.memberInfo.Items;
    }
  }

  /** A lost blacklist entry under a standing marker lets a blocked sender through. */
  lemma LostBlockEntryAdmits(rd: Redis, sender: int, receiver: int)
    requires PrivateVerdict(rd, sender, receiver) == Blocked
    ensures var left := rd.(blocked := rd.blocked - {(receiver, sender), (sender, receiver)});
            && IsLoaded(left, Blacklist(receiver)) == IsLoaded(rd, Blacklist(receiver))
            && PrivateVerdict(left, sender, receiver) == Sent
  {
  }

  /** The other input: user 2 blocks user 1, and the whole blacklist of 2 goes together with its marker after
      both users were checked to be loaded. That is one of the losses the protocol allows, and no result
      about loaded projections is hurt, but the script reads no marker and admits the blocked sender. */
  lemma EvictedBlacklistAdmits()
    ensures var rd := FLUSHED.(friendKeys := {(1, 2), (2, 1)}, friendLoaded := {1, 2},
                               friendIndex := {(1, 2), (2, 1)}, friendIndexLoaded := {1, 2},
                               blocked := {(2, 1)}, blacklistLoaded := {1, 2});
            var left := rd.(blocked := {}, blacklistLoaded := {1});
            && SafeLoss(rd, left)
            && PrivateVerdict(rd, 1, 2) == Blocked && PrivateVerdict(left, 1, 2) == Sent
            && !IsLoaded(left, Blacklist(2))
  {
    var rd := FLUSHED.(friendKeys := {(1, 2), (2, 1)}, friendLoaded := {1, 2},
                       friendIndex := {(1, 2), (2, 1)}, friendIndexLoaded := {1, 2},
                       blocked := {(2, 1)}, blacklistLoaded := {1, 2});
    var left := rd.(blocked := {}, blacklistLoaded := {1});
    assert forall x :: x !in Of(rd.blocked, 1) && x !in Of(left.blocked, 1);
    SameSet(Of(left.blocked, 1), Of(rd.blocked, 1));
  }

  /** A complete flush is one of the losses the protocol survives. */
  lemma FlushIsSafe(rd: Redis)
    ensures SafeLoss(rd, FLUSHED)
  {
    assert forall r: Resource :: OwnedKeys(FLUSHED, r) == {};
  }
}

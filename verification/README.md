# Relationship cache, lifecycles, message ids and presence: a verified model

The backend keeps friendships, blacklists and group members in MySQL and lets the message scripts in Redis
decide by projections of them. This project models that protocol and the machines around it, and proves what
they keep over every run.

- `Tables`, `FriendPairs`, `GroupLifecycle`, `Business`: the tables and every friend and group use case as a
  transaction with its answer, its new tables and the events it enqueues. `FriendEffects` and `GroupEffects` say
  what each one achieves and when, by the rows alone. `MySqlTables` and `Services` are the same use cases
  statement by statement, with rollback.
- `RedisKeys`, `RedisScripts`: the projection keys, the bounded replacement with its owner index and markers,
  and the scripts key by key. `MessageChecks`: the two authorisation scripts.
- `Locks`, `CacheProtocol`, `ProtocolInvariant`, `ProtocolSteps`, `ProtocolTheorems`, `ProtocolProgress`: the
  interleaving of commits, event claims, reconciling jobs, crashes, lock expiry, loss of Redis keys and messages,
  for any number of workers and resources. `WarmLocks`: the Redis lock. `Deadlock`: the same transactions taking
  one lock at a time.
- `Repair`, `CacheTruth`, `EventQueue`, `Backoff`: paging, warm-up, strict rebuild, audit, on-demand loading and
  the worker round, in the classes' own form.
- `MessageIds`, `SyncPaging`, `Presence`, `HubLifecycle`, `HubProgress`: id segments, cursor paging with
  revocation, the online lease and the in-process Hub.

`dafny verify dfyconfig.toml` checks everything.

## Assumptions

A Redis script is one atomic step and takes effect, if at all, before its call returns. A row lock is held until
its transaction ends. Tokens, connection ids and auto-increment ids are fresh; message ids are positive and
distinct within a box. Projections are reconciled for users that exist and for groups that are live or
tombstoned. Redis may lose any keys in the protocol theorems, except a friend or blocked entry whose loaded
marker survives (`LossKeepsLoadedTrueIff` says why) and a friend index entry whose key survives under its marker
(`LostIndexEntryLeavesStaleKey`). Groups may lose any member, field, edge or index entry.

## Where the code falls short of what one would expect

Each point names the result with its exact condition and, where one helps, an input that shows it.

- A page size above 5000 is cut to 5000 by the repository but not by the walk, which takes the first full page
  for the last: owners after the 5000th are never visited (`ForEachOwner`). The service's default is 500.
- The private script reads no loaded marker. If keys vanish after they were found loaded, with their marker or
  without it, the script answers from what is left, and when a blacklist entry is gone and both friend keys are
  not, it admits a blocked sender (`LossAdmitsPairIff`, with the inputs `LostBlockEntryAdmits` and
  `EvictedBlacklistAdmits`). A group loss never admits anybody (`LossNeverAdmitsMember`).
- The friend and blacklist markers are booleans: entries lost under a standing marker are not noticed by the next
  check of the marker either (`LossKeepsLoadedTrueIff`). The group marker counts (`CardinalityMarkerSound`).
- The dedup window and the gap-free numbers stand over every history of replacements, invalidations and losses
  in which the key itself is not lost; a lost dedup key reopens its window (`DedupWindow`, `LostKeyReopens`), and
  a number starts again only with its runtime (`SequenceIsGapFree`, `ForgetRestarts`).
- An audit does not look at the owner index, so a clean audit of a user's friends says nothing about the next
  bounded replacement (`AuditIgnoresIndex`). For groups it does (`CleanGroupNeedsNoIndex`).
- An audit takes a negative cached mute deadline for "not muted", which a replacement would write as 0
  (`CleanMeansAsWritten`, `NegativeDeadlineAuditsClean`). The scripts' verdict is the same
  (`CleanGroupDecidesAsTruth`).
- A repeated accept, a deletion of non-friends and unblocking somebody who is not blocked enqueue events although
  no projection changes (`OutboxExact`, `QuietRetryIsIdle`, `IdleUnblock`).
- A claim of the online lease that fails after taking effect leaves the Hub's client without its lease
  (`FailedClaimAgreesIff`); that client's next renewal closes it (`RenewalClosesTheDispossessed`).
- A later call of the Hub's Close returns at once, perhaps before the first one is done (`SecondCloseIsExact`,
  `SecondCloseMayBeEarly`). The server calls it once.

## Model

| member | source | states |
|---|---|---|
| ProtocolTheorems.RunHolds | backend/internal/service/cache_truth.go:217-318 | In every state of every interleaving of commits, claims, jobs, crashes, lock expiry, losses and messages, the protocol invariant holds |
| ProtocolTheorems.NoRepairIsLost | backend/internal/repository/cache_mysql.go:210-341 | A loaded projection that differs from MySQL always still has an event that is queued or claimed, through crashes, lease takeover, failed or repeated reconciles and late marks |
| ProtocolTheorems.SettledIsFresh | backend/internal/service/cache_truth.go:768-790 | Once every event of a resource is done, its loaded projection equals MySQL |
| ProtocolTheorems.DoneIsAbsorbing | backend/internal/repository/cache_mysql.go:308-341 | A done event never changes again |
| ProtocolTheorems.DoneNeedsReconciledHolder | backend/internal/repository/cache_mysql.go:308-317 | Only the present token holder, after its own reconcile committed, can make an event done |
| ProtocolTheorems.ReconciledMeansFresh | backend/internal/service/cache_truth.go:768-790 | A claim counts as reconciled only when its job commits, at a moment when the projection equals MySQL |
| ProtocolTheorems.EveryStepIsCoarse | backend/internal/service/cache_truth.go:226-318 | Seen through MySQL and Redis, every fine step is a commit, one instantaneous read-and-replace with a full scan, or something that only weakens Redis (a loss, an invalidation, a message) and adds nothing that a script reads, so an older snapshot never lands after a newer commit; only a group that lost index entries may keep stale reverse edges |
| ProtocolTheorems.FineRunIsCoarse | backend/internal/service/cache_truth.go:213-224 | Every run of the fine machine is, step by step, a run of the atomic one |
| ProtocolTheorems.CarefulRunIsCoarse | backend/internal/service/cache_truth.go:213-224 | In a run that loses no group index entry without its edge, every step is one of the atomic machine to the letter |
| ProtocolTheorems.PrivateAuthorisation | backend/internal/redis/lua_private_msg.go:63-82 | With the four projections loaded and their events done, the private check answers not-friend, blocked or sent exactly as the rows say; only dedup is left as a reason to refuse |
| ProtocolTheorems.GroupAuthorisation | backend/internal/redis/lua_group_msg.go:60-96 | The same for not-member and muted, at every moment of the clock, whatever group keys and index entries were lost |
| ProtocolTheorems.DissolutionIsPermanent | backend/internal/service/cache_truth.go:246-267 | After one finished reconcile of a dissolved group, for the rest of the run its member Set is empty, its sequence absent and every message refused |
| ProtocolTheorems.RuntimeFirstLeavesSequence | backend/internal/service/cache_truth.go:250-267 | Deleting the runtime before replacing the members would let a message leave a sequence behind |
| ProtocolTheorems.NothingOldLands | backend/internal/service/cache_truth.go:213-268 | In every step, what the scripts read of any resource, loaded or not, either shrinks or becomes exactly what MySQL says at that moment |
| ProtocolTheorems.LossKeepsLoadedTrueIff | backend/internal/repository/cache_redis.go:159-165 | After a loss of friend or blacklist entries "loaded means true" still stands exactly when the loaded marker went too or nothing under it was lost |
| ProtocolTheorems.LossAdmitsPairIff | backend/internal/redis/lua_private_msg.go:63-75 | After any loss, markers or not, the private script admits a pair exactly if both friend keys survived and it was admitted before, or it was blocked and neither blacklist entry survived |
| ProtocolTheorems.LossNeverAdmitsMember | backend/internal/redis/lua_group_msg.go:60-84 | After any loss the group verdict is as before while Set entry and Hash field survive, and otherwise not-member: groups fail closed |
| ProtocolTheorems.EvictedBlacklistAdmits | backend/internal/redis/lua_private_msg.go:70-75 | The input: a whole blacklist goes together with its marker, an allowed loss, and the script, which reads no marker, admits the blocked sender |
| ProtocolTheorems.LostBlockEntryAdmits | backend/internal/redis/lua_private_msg.go:70-75 | A lost blacklist entry under a standing marker lets a blocked sender through |
| ProtocolTheorems.FlushIsSafe | backend/internal/service/cache_truth.go:111-126 | A complete Redis flush is one of the losses that the protocol theorems allow |
| ProtocolSteps.StepKeeps | backend/internal/service/cache_truth.go:217-318 | Each single step keeps the protocol invariant |
| ProtocolSteps.CommitKeeps | backend/internal/service/friend.go:228-280 | A business commit, with its events, keeps it |
| ProtocolSteps.CommitLosesNoRepair | backend/internal/repository/cache_mysql.go:196-208 | A commit that makes a loaded projection stale leaves an event that owes the repair |
| ProtocolSteps.JobSurvivesCommit | backend/internal/repository/cache_mysql.go:45-65 | A job that holds its owner row still knows the truth after any commit |
| ProtocolSteps.ClaimKeeps | backend/internal/repository/cache_mysql.go:235-289 | Claiming or taking over events keeps it |
| ProtocolSteps.EventSteps | backend/internal/repository/cache_mysql.go:264-341 | A claim gives exactly the named events its token; a mark makes an event done or queued exactly when it still carries the token |
| ProtocolSteps.MarkKeeps | backend/internal/repository/cache_mysql.go:308-341 | Marks, early or late, keep it |
| ProtocolSteps.ScriptWritesTruth | backend/internal/service/cache_truth.go:226-268 | What a replacement script writes is what MySQL says at that moment, and what a full scan would have written |
| ProtocolSteps.ScriptKeeps | backend/internal/repository/cache_redis.go:35-91 | Running a replacement keeps it |
| ProtocolSteps.FinishKeeps | backend/internal/repository/cache_mysql.go:66-75 | Committing the snapshot keeps it |
| ProtocolSteps.AbortKeeps | backend/internal/repository/cache_mysql.go:57-65 | An error or a crash keeps it |
| ProtocolSteps.ExpireWarmLockKeeps | backend/internal/repository/cache_redis.go:195-216 | The warm lock may expire at any moment |
| ProtocolSteps.LoseKeeps | backend/internal/repository/cache_redis.go:85-105 | Losing keys keeps it |
| ProtocolSteps.LoadedMeansIntact | backend/internal/repository/cache_redis.go:93-105 | A group that still counts as loaded after losses lost nothing |
| ProtocolSteps.MessageKeeps | backend/internal/redis/lua_group_msg.go:91-102 | Message checks between the steps keep it |
| ProtocolSteps.OneHolderPerResource | backend/internal/repository/cache_mysql.go:18-65 | Two jobs that hold the owner row of one resource are the same job |
| ProtocolInvariant.InitHolds | backend/internal/service/cache_truth.go:375-392 | It holds at the start, over a Redis that has no markers yet |
| ProtocolInvariant.WeakeningKeeps | backend/internal/repository/cache_redis.go:85-105 | Any weakening of Redis that no standing marker contradicts keeps it |
| ProtocolProgress.RepairCanFinish | backend/internal/service/cache_truth.go:768-790 | An owed repair can always be made: from every reachable state with an unfinished event whose owner exists, whoever holds its lock or row, steps exist that finish the event and leave the projection loaded and equal to MySQL |
| ProtocolProgress.WorkCanFinish | backend/internal/service/cache_truth.go:113-126 | Fast path, on-demand load and strict rebuild can run to their end from every reachable state in which the owner exists: Redis is then what the sequential service makes of it, showing truth, and after a strict rebuild with every key and index installed, whatever Redis held |
| ProtocolProgress.JobCanFinish | backend/internal/service/cache_truth.go:226-279 | A job that may lock its owner row can run to its end: it has then done to Redis exactly what the sequential reconcileCurrent does, given back row and lock, and recorded its claim or a cleaned group |
| ProtocolProgress.ReadingRuns | backend/internal/repository/cache_mysql.go:45-66 | Its reading half: owner row, truth, index marker, and a scan only while the marker is missing |
| WarmLocks.HolderExcludes | backend/internal/repository/cache_redis.go:195-216 | Until its holder gives the lock back or its time runs out, nobody else gets it, whatever is called on any lock |
| WarmLocks.LateReleaseIsHarmless | backend/internal/repository/cache_redis.go:24-29 | A holder whose lock expired never frees a successor's |
| WarmLocks.TakenForItsTime | backend/internal/repository/cache_redis.go:195-216 | A try succeeds exactly when no lock stands, and the lock then stands for exactly its lifetime; a refused try changes nothing |
| WarmLocks.GivenBackIsFree | backend/internal/repository/cache_redis.go:218-236 | Giving back succeeds exactly under the standing token, and the next try then succeeds; otherwise nothing changes |
| WarmLocks.ExpiredIsFree | backend/internal/repository/cache_redis.go:195-216 | The lock is free again exactly after its time |
| WarmLocks.TakeIsProtocolStep | backend/internal/repository/cache_redis.go:195-216 | Taking the lock is the protocol machine's step: possible exactly when nobody holds it |
| WarmLocks.GiveIsProtocolStep | backend/internal/repository/cache_redis.go:218-236 | Giving it back is the protocol machine's release |
| WarmLocks.TimeOnlyExpires | backend/internal/repository/cache_redis.go:195-216 | Time alone takes locks away exactly after their expiry and gives none |
| WarmLocks.WarmLockStore.TryCacheWarmLock | backend/internal/repository/cache_redis.go:195-216 | SET NX with a lifetime; a lifetime that is not positive means five seconds |
| WarmLocks.WarmLockStore.ReleaseCacheWarmLock | backend/internal/repository/cache_redis.go:218-236 | Compare and delete; the empty token frees nothing |
| Business.PairAfterAnyRun | backend/internal/service/friend.go:102-473 | From empty tables, after any transactions: friendship is symmetric and holds exactly when an accepted request joins the pair; there is at most one pending or accepted request; a block either way excludes a pending one; a pair of strangers without a pending request has only rejected ones and the insert meets no row |
| Business.GroupAfterAnyRun | backend/internal/service/group.go:84-584 | From empty tables, after any transactions: the only role-2 member of a live group is its unmuted owner, size between 1 and the limit, no members without a live group or under a tombstone |
| Business.RunKeeps | backend/internal/service/friend.go:102-473 | Both lifecycles keep their invariants over every command sequence |
| Business.CommandKeeps | backend/internal/service/group.go:84-584 | Every single command keeps them |
| Business.IdsArePositive | backend/internal/repository/cache_mysql.go:127-146 | Every stored id is positive, so the positive-id filters of Redis lose nothing |
| Business.PhaseOnlyAdvances | backend/internal/repository/friend_repository.go:140-162 | Over any run a request id never moves back along pending, accepted, rejected, replaced, keeps its two users, and is never reused |
| Business.PreviewStaysAccurate | backend/internal/service/friend.go:208-238 | The unlocked read of a request names the right users to lock, whatever commits in between |
| Business.DeletionOutlivesOldRequests | backend/internal/repository/friend_repository.go:262-273 | After a deletion only a request issued later can make the two friends again; no delayed accept does |
| Business.OutboxComplete | backend/internal/service/friend.go:221-489 | A commit enqueues an event for every owner whose projection it changes, and none twice |
| Business.OutboxExact | backend/internal/service/friend.go:221-489 | A command, whatever it answers, names exactly the owners whose projection it changes, if and only if it is not one of three quiet retries, each recognisable from the tables beforehand |
| Business.QuietRetryIsIdle | backend/internal/service/friend.go:249-254 | A quiet retry (repeated accept, deletion of a non-friend, unblocking an unblocked user) commits, leaves every table as it was, and still enqueues |
| Business.IdleUnblock | backend/internal/service/friend.go:453-466 | The input: user 1 unblocks user 2, whom nobody blocked; an event is enqueued and no projection changes |
| Business.OneAnswerAtATime | backend/internal/repository/friend_repository.go:140-162 | One command takes a pending request to accepted or rejected at most, an accepted one to rejected, and only a rejected one can be replaced |
| Business.RefusalChangesNothing | backend/internal/repository/friend_repository.go:57-70 | A refused command changes neither tables nor queue |
| Business.GroupEventMeansChange | backend/internal/service/group.go:271-280 | A group event is never idle: the roster it names has changed |
| FriendPairs.FriendStepKeeps | backend/internal/service/friend.go:102-473 | Each friend use case, whatever it answers, keeps the pair invariant |
| FriendPairs.FriendshipSymmetric | backend/internal/repository/friend_repository.go:245-260 | Friendship rows come in both directions |
| FriendPairs.AskersHaveOnlyRejectedRows | backend/internal/repository/friend_repository.go:140-162 | A pair that may ask has only rejected rows, so the insert never meets one of its direction |
| FriendPairs.SendKeeps | backend/internal/service/friend.go:122-168 | SendRequest keeps the pair invariant |
| FriendPairs.AcceptKeeps | backend/internal/service/friend.go:221-280 | AcceptRequest keeps it |
| FriendPairs.DeleteKeeps | backend/internal/service/friend.go:385-399 | DeleteFriend keeps it |
| FriendPairs.BlockKeeps | backend/internal/service/friend.go:416-434 | Block keeps it, pending requests included |
| FriendPairs.FriendshipNeedsConsent | backend/internal/service/friend.go:255-280 | Two users become friends only when the target of a pending request accepts it while neither blocks the other |
| FriendEffects.SendEffect | backend/internal/service/friend.go:102-180 | Succeeds exactly for two different existing users, not friends, neither blocking the other, with nothing pending; a pending row from sender to target then stands under a new id, that direction's old row is gone, all else is as before |
| FriendEffects.SendRefusals | backend/internal/service/friend.go:108-168 | Each refusal says what is true of the tables: bad ids, self, a missing user, a block either way, friends already, something pending |
| FriendEffects.AcceptEffect | backend/internal/service/friend.go:204-293 | Succeeds exactly for the target of an accepted request, or of a pending one with no block between the two; the row is then accepted, the friendship stands both ways, both lists are announced, all else is as before |
| FriendEffects.RejectEffect | backend/internal/service/friend.go:295-339 | Succeeds exactly for the target of a pending or rejected request; that row is then rejected and all else is as before |
| FriendEffects.RejectedIsOver | backend/internal/service/friend.go:255-263 | A rejected request is accepted by nobody later, whatever commands run in between |
| FriendEffects.DeleteEffect | backend/internal/service/friend.go:378-407 | Both friendship rows are gone and the pair's accepted request is rejected; both lists are announced, all else is as before |
| FriendEffects.BlockEffect | backend/internal/service/friend.go:409-444 | The entry stands and what was pending between the two is rejected, the friendship stays; refused exactly when the entry stood already |
| FriendEffects.UnblockEffect | backend/internal/service/friend.go:446-473 | The one entry is gone and nothing else |
| FriendEffects.PairRefusals | backend/internal/service/friend.go:378-395 | Exactly when delete, block and unblock refuse bad ids, self and missing users |
| GroupLifecycle.GroupStepKeeps | backend/internal/service/group.go:84-584 | Each group use case keeps the group invariant |
| GroupLifecycle.GroupCommandScope | backend/internal/service/group.go:93-560 | A command touches one group only, and announces it exactly when it changed something |
| GroupLifecycle.TransferKeeps | backend/internal/service/group.go:381-435 | Ownership moves in both representations at once |
| GroupLifecycle.CreateKeeps | backend/internal/service/group.go:84-112 | A new group is well formed |
| GroupLifecycle.DisbandKeeps | backend/internal/service/group.go:502-562 | A dissolved id has neither group row nor members |
| GroupLifecycle.TombstoneIsFinal | backend/internal/repository/group_repository.go:45-54 | Nothing exists under a tombstoned id |
| GroupLifecycle.RowChangesNeedAuthority | backend/internal/service/group.go:666-669 | A member row changes only by its own user or by someone of strictly higher rank; it appears only for the creator or a friend of an owner or administrator |
| GroupLifecycle.DesiredStateRetries | backend/internal/service/group.go:267-280 | After a role, mute or disband request that succeeded, the same request changes and announces nothing, and succeeds again unless its mute deadline has passed |
| GroupEffects.CreateEffect | backend/internal/service/group.go:84-119 | Succeeds exactly for an existing user: a new id with room for 500 and one member, the unmuted owner with role 2 |
| GroupEffects.AddEffect | backend/internal/service/group.go:121-178 | Succeeds exactly when a manager invites an existing friend who is not a member while there is room; the guest is an unmuted ordinary member |
| GroupEffects.RemoveEffect | backend/internal/service/group.go:185-227 | Succeeds exactly when a manager may act on the member, and removes that row alone |
| GroupEffects.RoleEffect | backend/internal/service/group.go:232-287 | Succeeds exactly when the owner makes another member administrator or ordinary member; the mute stays |
| GroupEffects.MuteEffect | backend/internal/service/group.go:292-369 | With n the requested deadline d cut to whole seconds: accepted exactly when a manager may act on the member and n is after both clock readings and not after the year 9999; the row says n, and the member is muted at every moment before n and at none from n on |
| GroupEffects.UnmuteEffect | backend/internal/service/group.go:292-369 | Accepted with the same authority; the member is then unmuted at every moment |
| GroupEffects.TransferEffect | backend/internal/service/group.go:381-435 | Succeeds exactly when the owner names another member, who is then the unmuted owner by row and role; the old owner is an ordinary member |
| GroupEffects.LeaveEffect | backend/internal/service/group.go:452-477 | Succeeds exactly for a member who is not the owner, and removes that row alone |
| GroupEffects.DisbandEffect | backend/internal/service/group.go:502-566 | OK to the owner, and to anybody where no group lives; the group's rows are gone, a tombstone names the owner, no other id is touched |
| Locks.HeldRowFreezes | backend/internal/repository/cache_mysql.go:18-65 | While the owner row or tombstone is held, no other transaction can change the projection, the liveness or the guarding row |
| Locks.TombstonesStay | backend/internal/repository/group_repository.go:45-54 | No later run revives a tombstoned group |
| Locks.TombstoneRefuses | backend/internal/service/group.go:514-526 | No command changes anything under a tombstoned id |
| Services.FriendService.SendRequest | backend/internal/service/friend.go:102-180 | Statement by statement, with rollback: the transaction leaves exactly the specified answer, tables and events, and asks for its locks in the order of its plan, for all of them if it changes anything |
| Services.FriendService.AcceptRequest | backend/internal/service/friend.go:204-293 | The same for accepting |
| Services.FriendService.RejectRequest | backend/internal/service/friend.go:295-339 | The same for rejecting; RejectEffect says what that achieves |
| Services.FriendService.DeleteFriend | backend/internal/service/friend.go:378-407 | The same for deleting |
| Services.FriendService.Block | backend/internal/service/friend.go:409-444 | The same for blocking; the unique key answers "already blocked" after the insert |
| Services.FriendService.Unblock | backend/internal/service/friend.go:446-473 | The same for unblocking |
| Services.GroupService.Create | backend/internal/service/group.go:84-119 | The same for creating a group, with its new id |
| Services.GroupService.AddMember | backend/internal/service/group.go:121-178 | The same for adding a member |
| Services.GroupService.RemoveMember | backend/internal/service/group.go:185-227 | The same for removing a member |
| Services.GroupService.UpdateRole | backend/internal/service/group.go:232-287 | The same for changing a role; a no-op enqueues nothing |
| Services.GroupService.MuteMember | backend/internal/service/group.go:292-369 | The same for muting, with the clock read before and after the locks; MuteEffect and UnmuteEffect say what that achieves |
| Services.GroupService.TransferOwnership | backend/internal/service/group.go:381-435 | The same for transferring ownership |
| Services.GroupService.Leave | backend/internal/service/group.go:452-477 | The same for leaving |
| Services.GroupService.Disband | backend/internal/service/group.go:502-566 | The same for disbanding, and Redis cleanup is asked for exactly when a tombstone exists |
| MySqlTables.MySqlRepository.LockUsers | backend/internal/repository/friend_repository.go:73-92 | Finds two rows exactly when the ids differ and both users exist, and asks for them in ascending order |
| MySqlTables.MySqlRepository.FindPending | backend/internal/repository/friend_repository.go:131-138 | Finds a pending request of either direction |
| MySqlTables.MySqlRepository.SaveFriendRequest | backend/internal/repository/friend_repository.go:140-162 | Drops the terminal rows of the direction and inserts under a fresh id, unless the unique key refuses |
| FriendPairs.RejectionEndsStatus | backend/internal/repository/friend_repository.go:262-273 | After the bulk update no row of the pair has the updated status, each such row is rejected, and every other row is untouched |
| MySqlTables.MySqlRepository.CountGroupMembers | backend/internal/repository/group_repository.go:196-204 | Counts the group's member rows |
| RedisKeys.ReplaceInstalls | backend/internal/repository/cache_redis.go:35-91 | A replacement whose old keys are indexed or handed over as legacy leaves exactly the desired keys, index and markers |
| RedisKeys.ReplaceIsExactIff | backend/internal/repository/cache_redis.go:35-91 | A replacement is exact if and only if every old key is swept by the script, handed over as legacy or wanted |
| RedisKeys.ReplaceShows | backend/internal/repository/cache_redis.go:60-91 | What the scripts see after a group replacement is the wanted roster, whatever the index knew |
| RedisKeys.ReplaceFrame | backend/internal/repository/cache_redis.go:246-250 | It never touches what another resource shows, its keys or its index |
| RedisKeys.ReplaceKeepsIndexes | backend/internal/repository/cache_redis.go:250-282 | Every marked index stays complete |
| RedisKeys.BoundedEqualsFullScan | backend/internal/repository/cache_redis.go:325-378 | The bounded path and the scanning path leave the same Redis |
| RedisKeys.LegacyCovers | backend/internal/repository/cache_redis.go:250-270 | With complete marked indexes, index and legacy ids together cover every key |
| RedisKeys.CardinalityMarkerSound | backend/internal/repository/cache_redis.go:76-105 | If Set and Hash only lost entries since the replacement, the loaded check passes exactly when they lost nothing |
| RedisKeys.LostIndexEntryLeavesStaleKey | backend/internal/repository/cache_redis.go:35-53 | A lost index entry under a standing index marker makes the bounded path leave a stale key |
| RedisKeys.FriendsKeyByKey | backend/internal/repository/cache_redis.go:35-54 | For any key: of the owner's friend keys those that the index or the scan knew go, the wanted ones come; index and both markers follow; every other key is as before |
| RedisKeys.BlacklistKeyByKey | backend/internal/repository/cache_redis.go:284-302 | The same for the one Set of a blacklist and its marker |
| RedisKeys.MembersKeyByKey | backend/internal/repository/cache_redis.go:60-91 | The same for a group's Set, Hash, reverse edges, index and both markers, the loaded one holding the number of members |
| RedisKeys.ReplaceSparesMessages | backend/internal/repository/cache_redis.go:35-91 | A replacement of any resource leaves every dedup key, sequence, outbox and online key as it was |
| RedisKeys.InvalidateSparesMessages | backend/internal/repository/cache_redis.go:173-193 | So does dropping its markers |
| RedisScripts.RedisStore.RunReplaceFriendOwner | backend/internal/repository/cache_redis.go:35-54 | The script, key by key, is the specified replacement and so spares every message key; it returns the number of deletions |
| RedisScripts.RedisStore.ReplaceFriendOwner | backend/internal/repository/cache_redis.go:250-282 | With the scan when the index marker is missing; a malformed key stops it before any write |
| RedisScripts.RedisStore.ReplaceBlacklistOwner | backend/internal/repository/cache_redis.go:284-302 | Replaces one Set and sets its marker, also when empty |
| RedisScripts.RedisStore.RunReplaceGroupMembers | backend/internal/repository/cache_redis.go:60-91 | The script, key by key, is the specified replacement of Set, Hash, reverse edges, index and both markers |
| RedisScripts.RedisStore.WriteMembers | backend/internal/repository/cache_redis.go:76-84 | The write loop counts the distinct users that it writes to all four keys |
| RedisScripts.RedisStore.ReplaceGroupMembersOwner | backend/internal/repository/cache_redis.go:325-378 | First row of each positive user, with the scan when the index marker is missing |
| RedisScripts.RedisStore.ReadReverseGroupMembers | backend/internal/repository/cache_redis.go:529-568 | The scan of every user_groups key finds exactly the group's edges, or fails at a malformed key |
| RedisScripts.RedisStore.ScanNumericSuffixes | backend/internal/repository/cache_redis.go:589-610 | The scan of one prefix finds every id, or fails at a malformed one |
| RedisKeys.RuntimeDeletionIsConfined | backend/internal/repository/cache_redis.go:391-402 | Ends the group's numbering and empties its outbox; every other group keeps both, and no projection, index, marker, dedup or online key changes |
| RedisKeys.InvalidationForcesFullScan | backend/internal/repository/cache_redis.go:167-193 | Content stays, but the next replacement scans and is therefore exact for any value from any content; no other resource notices |
| RedisScripts.RedisStore.PrivateMsgCheck | backend/internal/redis/lua_private_msg.go:51-92 | The script's answer and effect |
| RedisScripts.RedisStore.GroupMsgCheck | backend/internal/redis/lua_group_msg.go:50-103 | The script's answer and effect |
| RedisScripts.SortedUniquePositive | backend/internal/repository/cache_redis.go:624-637 | Ascending, exactly the positive ids |
| RedisScripts.DesiredRows | backend/internal/repository/cache_redis.go:339-362 | One pair per positive user, carrying the first row's role and deadline |
| RedisScripts.ReplaceAssembled | backend/internal/repository/cache_redis.go:60-91 | Clearing and refilling the keys one by one amounts to the atomic replacement |
| MessageChecks.PrivateAgrees | backend/internal/redis/lua_private_msg.go:63-75 | Agreeing projections give the verdict of the rows |
| MessageChecks.GroupAgrees | backend/internal/redis/lua_group_msg.go:60-84 | An agreeing roster gives the verdict of the rows at every moment |
| MessageChecks.TruthMeans | backend/internal/redis/lua_private_msg.go:63-75 | The verdicts of the rows spelled out: friendship both ways, no block either way; a member is muted before the deadline of the row and not from then on |
| MessageChecks.PrivateAcceptance | backend/internal/redis/lua_private_msg.go:51-92 | Each answer exactly when, in terms of the keys; an acceptance echoes id and time, says whether the receiver is online, and sets the dedup key for 300000 ms and nothing else; a refusal changes nothing |
| MessageChecks.GroupAcceptance | backend/internal/redis/lua_group_msg.go:50-103 | The same for groups, with the next sequence number |
| MessageChecks.RefusalIsPure | backend/internal/redis/lua_group_msg.go:60-96 | A refused check changes nothing |
| MessageChecks.DedupWindow | backend/internal/redis/lua_private_msg.go:77-82 | Two acceptances of one sender and client id are more than 300 seconds apart, over any mix of private and group checks, projection replacements, marker invalidations, runtime deletions and losses that spare that key |
| MessageChecks.KeyStands | backend/internal/redis/lua_private_msg.go:77-92 | Every step but its loss leaves a standing dedup key alone or moves its expiry on, replacements, invalidations and runtime deletions included |
| MessageChecks.LostKeyReopens | backend/internal/redis/lua_private_msg.go:77-82 | The condition on losses is needed: after any acceptance the same message is a duplicate, and with its dedup key lost it is accepted again at once |
| MessageChecks.AcceptedAfterExpiry | backend/internal/redis/lua_group_msg.go:91-96 | Nothing with a standing dedup key is accepted before it expires |
| MessageChecks.SequenceIsGapFree | backend/internal/redis/lua_group_msg.go:98-102 | Over histories with replacements, invalidations, deletions of other groups and losses that spare the number, a group's accepted messages carry consecutive numbers |
| MessageChecks.ForgetRestarts | backend/internal/repository/cache_redis.go:391-402 | After the runtime is deleted the numbers start at 1 again |
| Repair.BulkInstalls | backend/internal/service/cache_truth.go:436-451 | A strict reconciliation installs the projection whatever Redis held; a normal one from complete indexes |
| Repair.ReconciledShowsIff | backend/internal/service/cache_truth.go:226-268 | After a reconciliation the projection is loaded, and it is what MySQL says exactly when no stale key escaped the script: for groups always |
| CacheTruth.CompleteIndexesLoadExactly | backend/internal/service/cache_truth.go:113-126 | With complete marked indexes no stale key of any pair escapes |
| Repair.BulkFrame | backend/internal/service/cache_truth.go:436-451 | It leaves every other resource alone |
| Repair.ReconciledSparesMessages | backend/internal/service/cache_truth.go:226-268 | A reconciliation leaves every dedup and online key, sequence and outbox as it was, save the sequence and outbox of a group without a row, which it ends |
| Repair.SweepRepairs | backend/internal/service/cache_truth.go:394-434 | A completed sweep leaves every resource it names showing truth and every other one as it was |
| Repair.SweepSucceeds | backend/internal/service/cache_truth.go:394-434 | From well-formed content no sweep fails |
| Repair.CleanMeansAsWritten | backend/internal/service/cache_truth.go:565-608 | Over any Redis: marker, Set, Hash and reverse edges equal what a replacement would write if and only if the audit finds nothing and no cached deadline of the group is negative |
| Repair.NegativeDeadlineAuditsClean | backend/internal/repository/cache_redis.go:317-323 | The input: an unmuted member cached with deadline -1 audits clean although a replacement would write 0 |
| Repair.CleanGroupDecidesAsTruth | backend/internal/redis/lua_group_msg.go:60-89 | A clean audit always means that the group script decides as the rows do |
| Repair.CleanPairDecidesAsTruth | backend/internal/redis/lua_private_msg.go:63-75 | Four clean audits mean that the private script decides as the rows do |
| Repair.CleanGroupNeedsNoIndex | backend/internal/repository/cache_redis.go:60-91 | A clean group's next bounded replacement is exact for every later truth, whatever became of its index |
| Repair.InstalledIsClean | backend/internal/service/cache_truth.go:523-608 | Installed truth audits clean |
| Repair.AuditIgnoresIndex | backend/internal/service/cache_truth.go:523-563 | Under a standing index marker, a clean user's next bounded replacements are exact for every later truth if and only if the friend index, which no audit reads, is complete |
| CacheTruth.ListOwnerIds | backend/internal/repository/cache_mysql.go:78-125 | A page: the smallest ids above the cursor, at most the normalised limit |
| CacheTruth.ForEachOwner | backend/internal/service/cache_truth.go:610-652 | Terminates and meets owners in ascending order, once; all of them if and only if the page size is at most 5000 or at most 5000 owners exist |
| CacheTruth.CacheTruthService.ReconcileCurrent | backend/internal/service/cache_truth.go:226-279 | Reads truth and replaces the projection; fails, changing nothing, exactly at a malformed scanned key |
| CacheTruth.CacheTruthService.ReconcileForBulk | backend/internal/service/cache_truth.go:436-451 | Strict work first drops the markers |
| CacheTruth.CacheTruthService.Rebuild | backend/internal/service/cache_truth.go:394-434 | Warm from complete indexes, or Rebuild from any well-formed Redis: everything in scope ends up installed, nothing else is touched, and the report is complete exactly when the page size allows |
| CacheTruth.CacheTruthService.RebuildUsers | backend/internal/service/cache_truth.go:399-418 | The user half, in order |
| CacheTruth.CacheTruthService.RebuildGroups | backend/internal/service/cache_truth.go:420-432 | The group half, live and dissolved |
| CacheTruth.CacheTruthService.AuditRelationship | backend/internal/service/cache_truth.go:523-563 | No issue exactly when marker and ids agree with the rows; the issue names what differs |
| CacheTruth.CacheTruthService.ReadGroupMemberSnapshot | backend/internal/repository/cache_redis.go:433-527 | Set and Hash merged by user, with what each side lacks |
| CacheTruth.CacheTruthService.AuditGroup | backend/internal/service/cache_truth.go:565-608 | No issue exactly when marker, Set, Hash and reverse edges agree with the rows; an issue says exactly which users Set, Hash or reverse edges lack or have too many, and whether ids or details differ |
| CacheTruth.CacheTruthService.Audit | backend/internal/service/cache_truth.go:472-513 | Counts exactly the resources that are not clean; zero on a complete walk if and only if all are clean |
| CacheTruth.CacheTruthService.RebuildThenAudit | backend/cmd/cachectl/main.go:56-64 | From any well-formed Redis both runs succeed; on complete walks the cache then shows truth all over the scope and is untouched elsewhere, and the audit checked every resource of the scope and found nothing |
| CacheTruth.CacheTruthService.EnsurePrivateAccess | backend/internal/service/cache_truth.go:113-190 | Leaves what is loaded and, if no stale friend key of the two users escapes their loads (true of complete indexes), loads what is missing from truth; if the loaded ones agreed with MySQL the private verdict is then that of the rows |
| CacheTruth.CacheTruthService.EnsureGroupAccess | backend/internal/service/cache_truth.go:130-190 | A tombstone refuses whatever Redis holds; an unknown id loads nothing; otherwise, whatever the indexes know, the roster is loaded, and if it agreed with MySQL when it was loaded already the verdicts for all users and times are those of the rows |
| CacheTruth.NoReasonMeansClean | backend/internal/service/cache_truth.go:577-600 | The listed reasons are empty exactly when the group is clean |
| CacheTruth.SameDetails | backend/internal/service/cache_truth.go:689-708 | Role and mute details agree user by user |
| CacheTruth.AscendingUnique | backend/internal/service/cache_truth.go:654-679 | Canonical id lists are equal exactly when they hold the same ids |
| EventQueue.EventTable.Claim | backend/internal/repository/cache_mysql.go:210-294 | Every event that is queued and due, or claimed longer ago than the lease, is taken unless the page is full of smaller ids; an event whose backoff or lease still runs is not; taken rows carry the token, one more attempt and the time, others are untouched; in the protocol it is a Claim step |
| EventQueue.PageTakesTheDue | backend/internal/repository/cache_mysql.go:235-262 | The page of claimable ids is that, in terms of the row fields alone |
| EventQueue.ClaimableMeans | backend/internal/repository/cache_mysql.go:246-247 | Queued with its time come, or claimed before now minus the lease |
| EventQueue.EventTable.MarkSuccess | backend/internal/repository/cache_mysql.go:308-317 | Succeeds exactly for the present token holder |
| EventQueue.EventTable.MarkFailure | backend/internal/repository/cache_mysql.go:319-341 | Puts the event back with its delay, exactly for the present token holder |
| EventQueue.EventTable.Enqueue | backend/internal/repository/cache_mysql.go:196-208 | Inserts a queued event under a fresh id |
| EventQueue.CacheReconciler.RunOnce | backend/internal/service/cache_truth.go:768-790 | Takes every due or abandoned event that fits the page; each ends done if its resource was reconciled and otherwise waits for the closed-form delay; no other event changes |
| EventQueue.CacheReconciler.RoundAfterCrash | backend/internal/service/cache_truth.go:768-790 | A batch claimed by a worker that then crashes: a round after the lease takes each of its events over and finishes it or puts it back, unless its page is full of smaller ids |
| EventQueue.SettleInstalls | backend/internal/service/cache_truth.go:774-789 | After a round, every event that succeeded finds its projection equal to truth |
| Backoff.RetryDelay | backend/internal/service/cache_truth.go:792-807 | The doubling loop computes min(maxBackoff, retryBase * 2^(attempt-1)) without 64-bit overflow |
| Backoff.DelayIsPositive | backend/internal/service/cache_truth.go:792-807 | The first delay is the base, each further one doubles the last, none exceeds the greatest; so delays are positive and never shrink |
| Deadlock.PlansFollowTheOrder | backend/internal/repository/friend_repository.go:73-92 | Every command asks for its locks in the order Redis lock, group row, tombstone, member rows, user rows ascending, request rows; only a new group's fresh rows come later |
| Deadlock.SnapshotsFollowTheOrder | backend/internal/repository/cache_mysql.go:45-61 | So does every reconciling job |
| Deadlock.NoCycle | backend/internal/service/group.go:389-432 | In every reachable state of any number of transactions, no chain of waiting comes back to its start |
| Deadlock.SomeoneRuns | backend/internal/repository/group_repository.go:159-178 | Whenever someone is blocked, some lock holder is not |
| Deadlock.EveryoneCanFinish | backend/internal/repository/group_repository.go:159-178 | From every reachable state all transactions can take their whole plans and end, though none is rolled back and no lock expires |
| MessageIds.MySqlStore.Validate | backend/internal/messageid/mysql_store.go:54-77 | The startup check succeeds exactly when a reservation could |
| MessageIds.MySqlStore.Reserve | backend/internal/messageid/mysql_store.go:81-141 | The mark moves if and only if the commit took effect, and a segment is returned only then; all in 64-bit arithmetic |
| MessageIds.Generator.New | backend/internal/messageid/generator.go:61-73 | Refuses sizes out of range |
| MessageIds.Generator.Next | backend/internal/messageid/generator.go:81-107 | Issues the next local id or refills; a failure issues nothing; exhaustion stays an error |
| MessageIds.OffersAreValid | backend/internal/messageid/generator.go:109-119 | What the store offers is never refused |
| MessageIds.IdStepKeeps | backend/internal/messageid/mysql_store.go:81-141 | Every step of any interleaving keeps the allocation invariant |
| MessageIds.Conservation | backend/internal/messageid/mysql_store.go:81-141 | After any interleaving of generators, crashes, rollbacks and unknown commits, every id below the mark was issued once, or is held by one live generator, or is abandoned, and never two of these |
| MessageIds.IssuedIdsAscend | backend/internal/messageid/generator.go:75-107 | Issued ids lie in 1 to 2^53-1, never repeat, and ascend per generator |
| MessageIds.ExhaustionIsFinal | backend/internal/messageid/mysql_store.go:113-119 | The mark never passes 2^53 nor moves back, and after exhaustion no reservation starts |
| MessageIds.HeldCanBeIssued | backend/internal/messageid/generator.go:81-107 | A generator that still holds ids can issue the next one in every reachable state |
| MessageIds.NewcomerCanIssue | backend/internal/messageid/generator.go:61-107 | Until exhaustion a fresh generator can always come up and issue the stored mark, whoever is reserving now |
| MessageIds.RefillIsNext | backend/internal/messageid/generator.go:95-107 | An uninterrupted refill of the machine does what Generator.Next does |
| SyncPaging.ReadMessagesAfter | backend/internal/repository/redis_repository.go:84-115 | One page: sorted, after the cursor, and full whenever something later is left out |
| SyncPaging.KeptMeansAfter | backend/internal/repository/redis_repository.go:99-102 | The filter is "strictly after the cursor", also for a cursor without id |
| SyncPaging.SyncIsExact | backend/internal/repository/redis_repository.go:81-115 | A finished sync returns the keys of the whole box, each once and in order, for any page size |
| SyncPaging.SyncTerminates | backend/internal/repository/redis_repository.go:81-115 | No sync has more non-empty pages than the box has messages |
| SyncPaging.SyncSurvivesRevocations | backend/internal/redis/lua_revoke_msg.go:34-43 | For any inbox and any group outbox it stays exact when messages are revoked between the pages |
| SyncPaging.SessionComplete | backend/internal/repository/redis_repository.go:104-115 | No key after the cursor is skipped |
| SyncPaging.MessageStore.RevokeMsg | backend/internal/redis/lua_revoke_msg.go:10-86 | The script, with its search loop, is the specified revocation; GroupRevocation and PrivateRevocation say what that achieves |
| SyncPaging.GroupRevocation | backend/internal/redis/lua_revoke_msg.go:10-43 | Succeeds exactly for the sender of a message at most 120000 ms old; its copy then carries the given type and content under the old id, time and users; every other message and box is untouched |
| SyncPaging.PrivateRevocation | backend/internal/redis/lua_revoke_msg.go:45-86 | Succeeds exactly for such a sender when a receiver other than the sender has a copy from the sender; both copies are then rewritten so; every other message and box is untouched |
| SyncPaging.MessageStore.FindMessage | backend/internal/redis/lua_revoke_msg.go:23-32 | Finds the message of that id if the box has one |
| SyncPaging.RevokeKeepsKeys | backend/internal/redis/lua_revoke_msg.go:34-43 | A revocation moves no key in any box |
| SyncPaging.RevocationsKeepKeys | backend/internal/redis/lua_revoke_msg.go:34-43 | Nor do any number of them |
| SyncPaging.BothCopiesOrNone | backend/internal/redis/lua_revoke_msg.go:59-85 | After a success both copies have the given type and content, id, time and users as before; a refusal leaves every box as it was |
| Presence.ClaimIsOwned | backend/internal/repository/presence_repository.go:13-17 | A claim is owned, and the user online, for exactly its lifetime; it reports offline exactly when the online key was gone; no other user notices |
| Presence.RenewalIsOwned | backend/internal/repository/presence_repository.go:19-23 | A renewal succeeds exactly for the standing owner, and is then owned for exactly its lifetime from now; otherwise nothing changes |
| Presence.ReleaseGoesOffline | backend/internal/repository/presence_repository.go:25-30 | A release succeeds exactly for the standing owner, and the user is then offline; otherwise nothing changes |
| Presence.KeysAlwaysAgree | backend/internal/repository/presence_repository.go:13-30 | The conn and online keys agree after any calls at any times |
| Presence.SupersededStaysOut | backend/internal/repository/presence_repository.go:19-30 | Once another connection has claimed, the old one can neither renew nor release until it claims itself |
| Presence.PresenceStore.ClaimPresence | backend/internal/repository/presence_repository.go:39-51 | Takes the lease and reports whether the user was offline; refuses invalid arguments |
| Presence.PresenceStore.RenewPresence | backend/internal/repository/presence_repository.go:53-62 | Extends only its own lease |
| Presence.PresenceStore.ReleasePresence | backend/internal/repository/presence_repository.go:64-71 | Deletes only its own lease |
| HubLifecycle.HubStepKeeps | backend/internal/ws/hub.go:154-184 | Every step of every interleaving of registrations, disconnects, kicks and Close keeps the Hub invariant |
| HubLifecycle.OneRegistrationAtATime | backend/internal/ws/hub.go:250-253 | Two connections of one user are never in the registration critical section together |
| HubLifecycle.HubAgreesWithLease | backend/internal/ws/hub.go:157-175 | Outside that section, the lease of a user with a client is that client's if and only if it was not left by a claim that failed after taking effect; conn and online agree |
| HubLifecycle.FailedClaimAgreesIff | backend/internal/ws/hub.go:161-168 | A failed claim leaves Hub and lease in agreement if and only if it took no effect |
| HubLifecycle.RenewalClosesTheDispossessed | backend/internal/ws/hub.go:306-325 | A renewal closes an open client exactly when the lease is not its own, and then leaves the lease alone; otherwise the client owns it for exactly its lifetime from now |
| HubLifecycle.ClientEnds | backend/internal/ws/hub.go:255-263 | What closing, a kick, removal and release each do: a release ends the client's own lease in both keys and nobody else's |
| HubLifecycle.SupersededIsPowerless | backend/internal/ws/hub.go:255-263 | A replaced connection can neither renew, release nor unmap its successor |
| HubLifecycle.SnapshotIsEnough | backend/internal/ws/hub.go:400-408 | Once the snapshot is taken, every admitted connection is closed if and only if those of the snapshot are |
| HubLifecycle.CloseIsFinal | backend/internal/ws/hub.go:388-410 | Once the first call of Close has returned every admitted connection is closed, the map is empty, and it stays so |
| HubLifecycle.SecondCloseIsExact | backend/internal/ws/hub.go:388-393 | A later call of Close, which returns at once, promises as much as the first one if and only if the first one has nothing left to wait for |
| HubLifecycle.SecondCloseMayBeEarly | backend/internal/ws/hub.go:388-393 | A run in which a later call returns while a client is running and open |
| HubLifecycle.LocalHub.BeginRegistration | backend/internal/ws/hub.go:240-248 | Admits a connection exactly while the Hub is open |
| HubLifecycle.LocalHub.Install | backend/internal/ws/hub.go:232-238 | Maps the user to the new client and returns the replaced one; in the machine it is the Install step |
| HubLifecycle.LocalHub.RemoveClient | backend/internal/ws/hub.go:255-263 | Unmaps the client only if it is still the mapped one |
| HubLifecycle.LocalHub.CloseClient | backend/internal/ws/hub.go:350-355 | A second close changes nothing |
| HubLifecycle.LocalHub.Close | backend/internal/ws/hub.go:388-410 | The first call closes exactly the mapped clients, a later one changes nothing |
| HubProgress.RegistrationCanFinish | backend/internal/ws/hub.go:154-184 | From every reachable state of an open Hub a new connection can become its user's client and the lease's owner for its whole lifetime, by the handlers' own steps, whoever holds the registration lock now |
| HubProgress.CloseCanReturn | backend/internal/ws/hub.go:388-410 | From every reachable state in which Close has been called it can return, by its own steps, the pending handlers' and the closed clients', and without any peer going away; then all is ended |

## Left out

- HTTP handlers, routing, configuration, migrations, metrics, logging, notifications and broadcasts: plumbing.
- Infrastructure errors of single MySQL statements: the services model the refusals; a statement that fails with
  an error rolls back like a refusal. In the protocol such an error is the Abort step.
- The business transaction appears in the protocol as one step at its commit, allowed only while none of its rows
  is held by a job; the row-by-row view is in `Deadlock`, which lets any transaction end at any moment.
- InnoDB gap locks: `Deadlock` has row locks only, so it says nothing about two inserts into one gap. Member rows
  of a group, and request rows of a pair, count as one lock each.
- The polling loop around the Redis lock: `CacheTruth` is the sequential view, in which the lock is always free;
  contention and expiry are in `CacheProtocol` and `WarmLocks`. Its owner walks collect the ids before the visits,
  because nothing changes truth between them.
- Reconciling an id that never had a row, which takes no row lock: the protocol has no such job. For groups the
  service refuses cold ids before; for users EnsurePrivateAccess checks only that the ids are positive.
- Redis snapshot restore and manual edits: only in the rebuild, audit and tombstone results.
- The delta writers that no service uses (SetFriendCache and its like on the Redis repository, ReplaceUserGroups).
- The old boolean mute format, JSON text, key names as text, and the conversation id as a string.
- Request texts, group names and notices, and the profile reads after a locked user was found.
- The feed pages and moment likes, whose services are placeholders; conversation lists and box trimming.
- WebSocket frames, ping timing and the origin check; connections of other server processes for the same user.
- A renewal with a lifetime that is not positive; the Hub always passes its positive one.

/** The durable reconciliation queue and one round of its worker. */
module EventQueue {
  import opened Common
  import opened Tables
  import opened Business
  import opened RedisKeys
  import opened RedisScripts
  import opened Repair
  import opened CacheTruth
  import opened CacheProtocol
  import opened Backoff

  // Milliseconds.
  const DEFAULT_LEASE := 30000
  const DEFAULT_RETRY_BASE: Duration := 1000
  const DEFAULT_MAX_BACKOFF: Duration := 300000
  const DEFAULT_BATCH := 100

  datatype EventRow = EventRow(resource: Resource, status: EventStatus, attempts: int, availableAt: int, lockedAt: int)

  datatype ClaimedEvent = ClaimedEvent(id: int, resource: Resource, attempts: int, token: int)

  /** The rows as the cache protocol sees them. */
  function View(rows: map<int, EventRow>): (events: map<int, Event>)
    ensures events.Keys == rows.Keys
    ensures forall id :: id in events ==> events[id] == Event(rows[id].resource, rows[id].status)
  {
    map id | id in rows :: Event(rows[id].resource, rows[id].status)
  }

  /** Queued and due, or claimed under a lease that ran out. */
  predicate Claimable(row: EventRow, now: int, staleBefore: int) {
    (row.status.Queued? && row.availableAt <= now) || (row.status.Claimed? && row.lockedAt < staleBefore)
  }

  function ClaimableIds(rows: map<int, EventRow>, now: int, staleBefore: int): (ids: set<int>)
    ensures forall id :: id in ids <==> id in rows && Claimable(rows[id], now, staleBefore)
  {
    set id | id in rows && Claimable(rows[id], now, staleBefore)
  }

  function AsClaimed(row: EventRow, token: int, now: int): EventRow {
    row.(status := Claimed(token), attempts := row.attempts + 1, lockedAt := now)
  }

  /** One claimed event and its row before and after the claim. */
  predicate Claims(event: ClaimedEvent, before: EventRow, after: EventRow, token: int, now: int) {
    && event.resource == before.resource && event.token == token && event.attempts == before.attempts + 1
    && after == AsClaimed(before, token, now)
  }

  function ClaimedIds(events: seq<ClaimedEvent>): (ids: seq<int>)
    ensures |ids| == |events|
    ensures forall i :: 0 <= i < |ids| ==> ids[i] == events[i].id
  {
    seq(|events|, i requires 0 <= i < |events| => events[i].id)
  }

  /** Every claimed row carries the token and one more attempt; every other row is as it was. */
  predicate ClaimedRows(before: map<int, EventRow>, after: map<int, EventRow>, events: seq<ClaimedEvent>, token: int, now: int) {
    && after.Keys == before.Keys
    && (forall i :: 0 <= i < |events| ==>
          events[i].id in before && Claims(events[i], before[events[i].id], after[events[i].id], token, now))
    && (forall id :: id in before && id !in ClaimedIds(events) ==> after[id] == before[id])
  }

  /** How long a claim is safe from takeover; half a minute unless configured. */
  function LeaseLength(lease: int): int {
    if lease <= 0 then DEFAULT_LEASE else lease
  }

  /** Who is claimable, by the fields of the row: queued and due, or claimed so long ago that its lease is over. */
  lemma ClaimableMeans(row: EventRow, now: int, lease: int)
    ensures Claimable(row, now, now - LeaseLength(lease)) <==>
              || (row.status == Queued && row.availableAt <= now)
              || (row.status.Claimed? && row.lockedAt < now - (if lease <= 0 then 30000 else lease))
  {
  }

  /** Every row that waits, or whose worker let its lease run out, is taken, unless the page is full of smaller
      ids; a row that is done, or whose backoff or lease still runs, is not. */
  ghost predicate TakesTheDue(rows: map<int, EventRow>, ids: seq<int>, limit: nat, now: int, lease: int) {
    && Ascending(ids) && |ids| <= limit
    && (forall id :: id in rows && rows[id].status == Queued && rows[id].availableAt <= now && id !in ids ==>
          |ids| == limit && forall taken :: taken in ids ==> taken < id)
    && (forall id :: id in rows && rows[id].status.Claimed? && rows[id].lockedAt < now - lease && id !in ids ==>
          |ids| == limit && forall taken :: taken in ids ==> taken < id)
    && (forall id :: id in ids ==>
          && id in rows
          && ((rows[id].status == Queued && rows[id].availableAt <= now)
              || (rows[id].status.Claimed? && rows[id].lockedAt < now - lease)))
  }

  lemma PageTakesTheDue(rows: map<int, EventRow>, ids: seq<int>, limit: nat, now: int, lease: int)
    requires forall id :: id in rows ==> id > 0
    requires IsPage(ClaimableIds(rows, now, now - LeaseLength(lease)), 0, limit, ids)
    ensures TakesTheDue(rows, ids, limit, now, if lease <= 0 then 30000 else lease)
  {
  }

  /** The claimed rows by their fields: the token, one more attempt, and the time of the claim. */
  ghost predicate ClaimedFields(before: map<int, EventRow>, after: map<int, EventRow>, ids: seq<int>, token: int, now: int) {
    && after.Keys == before.Keys
    && forall id :: id in after ==>
         after[id] == if id in ids then EventRow(before[id].resource, Claimed(token), before[id].attempts + 1, before[id].availableAt, now)
                      else before[id]
  }

  lemma ClaimedView(before: map<int, EventRow>, after: map<int, EventRow>, ids: seq<int>, token: int, now: int)
    requires after.Keys == before.Keys
    requires forall id :: id in after ==> after[id] == if id in ids then AsClaimed(before[id], token, now) else before[id]
    ensures ClaimedFields(before, after, ids, token, now)
    ensures View(after) == ClaimEvents(View(before), SeqSet(ids), token)
  {
    SameMap(View(after), ClaimEvents(View(before), SeqSet(ids), token));
  }

  class EventTable {
    var rows: map<int, EventRow>
    var nextId: int

    ghost predicate Valid()
      reads this
    {
      nextId > 0 && forall id :: id in rows ==> 0 < id < nextId
    }

    constructor ()
      ensures Valid() && rows == map[]
    {
      rows, nextId := map[], 1;
    }

    method Enqueue(resource: Resource, now: int) returns (id: int)
      requires Valid()
      modifies this
      ensures Valid() && id !in old(rows)
      ensures rows == old(rows)[id := EventRow(resource, Queued, 0, now, 0)]
    {
      id := nextId;
      rows, nextId := rows[id := EventRow(resource, Queued, 0, now, 0)], id + 1;
    }

    /** Takes the oldest claimable events, at most a page of them, under one fresh token. Seen from the
        protocol this is its Claim step, and it touches no finished event. */
    method Claim(token: int, limit: int, lease: int, now: int) returns (events: seq<ClaimedEvent>)
      requires Valid()
      modifies this`rows
      ensures Valid()
      ensures IsPage(ClaimableIds(old(rows), now, now - LeaseLength(lease)), 0, PageLimit(limit), ClaimedIds(events))
      ensures TakesTheDue(old(rows), ClaimedIds(events), PageLimit(limit), now, if lease <= 0 then 30000 else lease)
      ensures ClaimedRows(old(rows), rows, events, token, now)
      ensures ClaimedFields(old(rows), rows, ClaimedIds(events), token, now)
      ensures View(rows) == ClaimEvents(View(old(rows)), SeqSet(ClaimedIds(events)), token)
      ensures forall id :: id in ClaimedIds(events) ==> View(old(rows))[id].status != Done
    {
      var due := ClaimableIds(rows, now, now - LeaseLength(lease));
      var ids := ListOwnerIds(due, 0, limit);
      assert forall i :: 0 <= i < |ids| ==> ids[i] in ids;
      events := [];
      for i := 0 to |ids|
        invariant ClaimedIds(events) == ids[..i]
        invariant forall k :: 0 <= k < i ==>
                    events[k] == ClaimedEvent(ids[k], rows[ids[k]].resource, rows[ids[k]].attempts + 1, token)
      {
        events := events + [ClaimedEvent(ids[i], rows[ids[i]].resource, rows[ids[i]].attempts + 1, token)];
      }
      assert ClaimedIds(events) == ids;
      PageTakesTheDue(rows, ids, PageLimit(limit), now, lease);
      UpdateClaimed(ids, token, now);
      ClaimedView(old(rows), rows, ids, token, now);
    }

    /** UPDATE ... SET status = 1, attempts = attempts + 1, locked_at = now, lock_token = token WHERE id IN (ids). */
    method UpdateClaimed(ids: seq<int>, token: int, now: int)
      requires Ascending(ids) && forall id :: id in ids ==> id in rows
      modifies this`rows
      ensures rows.Keys == old(rows).Keys
      ensures forall id :: id in rows ==>
                rows[id] == if id in ids then AsClaimed(old(rows)[id], token, now) else old(rows)[id]
    {
      for i := 0 to |ids|
        invariant rows.Keys == old(rows).Keys
        invariant forall id :: id in rows ==>
                    rows[id] == if id in ids[..i] then AsClaimed(old(rows)[id], token, now) else old(rows)[id]
      {
        assert ids[i] in ids && ids[i] !in ids[..i];
        var row := rows[ids[i]];
        rows := rows[ids[i] := row.(status := Claimed(token), attempts := row.attempts + 1, lockedAt := now)];
        assert ids[..i + 1] == ids[..i] + [ids[i]];
      }
      assert ids[..|ids|] == ids;
    }

    /** Only the present holder of the token finishes its event. */
    method MarkSuccess(id: int, token: int) returns (ok: bool)
      requires Valid()
      modifies this`rows
      ensures Valid()
      ensures ok <==> id in old(rows) && old(rows)[id].status == Claimed(token)
      ensures rows == if ok then old(rows)[id := old(rows)[id].(status := Done)] else old(rows)
      ensures View(rows) == MarkEvent(View(old(rows)), id, token, Done)
    {
      ok := id in rows && rows[id].status == Claimed(token);
      if ok {
        rows := rows[id := rows[id].(status := Done)];
      }
    }

    /** Only the present holder of the token puts its event back, due after the retry delay. */
    method MarkFailure(id: int, token: int, retryAfter: int, now: int) returns (ok: bool)
      requires Valid()
      modifies this`rows
      ensures Valid()
      ensures ok <==> id in old(rows) && old(rows)[id].status == Claimed(token)
      ensures rows == if ok then old(rows)[id := old(rows)[id].(status := Queued, availableAt := now + if retryAfter < 0 then 0 else retryAfter)]
                      else old(rows)
      ensures View(rows) == MarkEvent(View(old(rows)), id, token, Queued)
    {
      ok := id in rows && rows[id].status == Claimed(token);
      if ok {
        rows := rows[id := rows[id].(status := Queued, availableAt := now + if retryAfter < 0 then 0 else retryAfter)];
      }
    }
  }

  // ---- one round of the worker ----

  /** Reconciles each resource in turn; a failure does not stop the others. */
  function Settle(db: Db, rd: Redis, resources: seq<Resource>): (outcome: (Redis, seq<bool>))
    ensures |outcome.1| == |resources|
    decreases |resources|
  {
    if resources == [] then (rd, [])
    else
      var ok := Scannable(rd, resources[0]);
      var rest := Settle(db, if ok then Reconciled(db, rd, resources[0]) else rd, resources[1..]);
      (rest.0, [ok] + rest.1)
  }

  lemma SettleOne(db: Db, rd: Redis, resource: Resource)
    ensures var ok := Scannable(rd, resource);
            Settle(db, rd, [resource]) == (if ok then Reconciled(db, rd, resource) else rd, [ok])
  {
    var ok := Scannable(rd, resource);
    assert [resource][1..] == [];
    assert [ok] + Settle(db, if ok then Reconciled(db, rd, resource) else rd, []).1 == [ok];
  }

  lemma {:induction false} SettleGrows(db: Db, rd: Redis, resources: seq<Resource>, last: Resource)
    ensures var (mid, outcomes) := Settle(db, rd, resources);
            var ok := Scannable(mid, last);
            Settle(db, rd, resources + [last]) == (if ok then Reconciled(db, mid, last) else mid, outcomes + [ok])
    decreases |resources|
  {
    if resources == [] {
      assert resources + [last] == [last];
      SettleOne(db, rd, last);
      assert Settle(db, rd, resources).1 + [Scannable(rd, last)] == [Scannable(rd, last)];
    } else {
      var r := resources[0];
      var next := if Scannable(rd, r) then Reconciled(db, rd, r) else rd;
      assert (resources + [last])[1..] == resources[1..] + [last];
      SettleGrows(db, next, resources[1..], last);
      var (mid, outcomes) := Settle(db, next, resources[1..]);
      var ok := [Scannable(mid, last)];
      assert [Scannable(rd, r)] + (outcomes + ok) == ([Scannable(rd, r)] + outcomes) + ok;
    }
  }

  lemma {:induction false} SettleKeeps(db: Db, rd: Redis, resources: seq<Resource>, resource: Resource)
    requires IndexesCover(rd)
    requires Installed(rd, resource, Project(db, resource))
    ensures Installed(Settle(db, rd, resources).0, resource, Project(db, resource))
    decreases |resources|
  {
    if resources != [] {
      var r := resources[0];
      if Scannable(rd, r) {
        var after := Reconciled(db, rd, r);
        BulkInstalls(db, rd, r, false);
        if r != resource {
          BulkFrame(db, rd, r, false, resource);
          InstalledFrame(rd, after, resource, Project(db, resource));
        }
        BulkKeepsIndexes(db, rd, r);
        SettleKeeps(db, after, resources[1..], resource);
      } else {
        SettleKeeps(db, rd, resources[1..], resource);
      }
    }
  }

  /** After a round, every event whose reconciliation succeeded finds its projection equal to truth. */
  lemma {:induction false} SettleInstalls(db: Db, rd: Redis, resources: seq<Resource>, i: nat)
    requires IndexesCover(rd)
    requires i < |resources| && Settle(db, rd, resources).1[i]
    ensures Installed(Settle(db, rd, resources).0, resources[i], Project(db, resources[i]))
    decreases |resources|
  {
    var r := resources[0];
    var next := if Scannable(rd, r) then Reconciled(db, rd, r) else rd;
    if Scannable(rd, r) {
      BulkInstalls(db, rd, r, false);
      BulkKeepsIndexes(db, rd, r);
    }
    if i == 0 {
      SettleKeeps(db, next, resources[1..], r);
    } else {
      SettleInstalls(db, next, resources[1..], i - 1);
    }
  }

  function Resources(events: seq<ClaimedEvent>): (resources: seq<Resource>)
    ensures |resources| == |events|
    ensures forall i :: 0 <= i < |events| ==> resources[i] == events[i].resource
  {
    seq(|events|, i requires 0 <= i < |events| => events[i].resource)
  }

  predicate Holds(rows: map<int, EventRow>, event: ClaimedEvent) {
    event.id in rows && rows[event.id].status == Claimed(event.token) && rows[event.id].attempts == event.attempts
  }

  lemma ClaimedAreHeld(before: map<int, EventRow>, after: map<int, EventRow>, events: seq<ClaimedEvent>, token: int, now: int)
    requires ClaimedRows(before, after, events, token, now)
    ensures forall i :: 0 <= i < |events| ==> Holds(after, events[i])
  {
    forall i | 0 <= i < |events|
      ensures Holds(after, events[i])
    {
      assert Claims(events[i], before[events[i].id], after[events[i].id], token, now);
    }
  }

  class CacheReconciler {
    const truth: EventTable
    const service: CacheTruthService
    const batchSize: int
    const lease: int
    const retryBase: Duration
    const maxBackoff: Duration

    constructor (truth: EventTable, service: CacheTruthService, batchSize: int, lease: int, retryBase: Duration, maxBackoff: Duration)
      ensures this.truth == truth && this.service == service
      ensures this.retryBase > 0 && this.maxBackoff > 0 && this.batchSize > 0 && this.lease > 0
    {
      this.truth, this.service := truth, service;
      this.batchSize := if batchSize <= 0 then DEFAULT_BATCH else batchSize;
      this.lease := if lease <= 0 then DEFAULT_LEASE else lease;
      this.retryBase := if retryBase <= 0 then DEFAULT_RETRY_BASE else retryBase;
      this.maxBackoff := if maxBackoff <= 0 then DEFAULT_MAX_BACKOFF else maxBackoff;
    }

    /** One batch: each claimed event ends done if its resource was reconciled, and otherwise waits for
        min(maxBackoff, retryBase * 2^(attempts-1)). */
    method RunOnce(token: int, now: int) returns (processed: nat, ghost events: seq<ClaimedEvent>, ghost outcomes: seq<bool>)
      requires truth.Valid() && PositiveIds(service.db)
      requires retryBase > 0 && maxBackoff > 0
      modifies truth, service.cache
      ensures truth.Valid()
      ensures processed == |events| == |outcomes|
      ensures (service.cache.Keys(), outcomes) == Settle(service.db, old(service.cache.Keys()), Resources(events))
      ensures IsPage(ClaimableIds(old(truth.rows), now, now - LeaseLength(lease)), 0,
                     PageLimit(batchSize), ClaimedIds(events))
      ensures TakesTheDue(old(truth.rows), ClaimedIds(events), PageLimit(batchSize), now, if lease <= 0 then 30000 else lease)
      ensures RoundRows(old(truth.rows), truth.rows, events, outcomes, now)
    {
      var batch := truth.Claim(token, batchSize, lease, now);
      processed, events := |batch|, batch;
      ghost var claimed := truth.rows;
      ClaimedAreHeld(old(truth.rows), claimed, batch, token, now);
      outcomes := Process(batch, now);
      RowsOfRound(old(truth.rows), claimed, truth.rows, batch, outcomes, token, now);
    }

    /** Only the rows of the batch change: each carries one more attempt and is done, or waits again for the
        backoff of its attempts. */
    ghost predicate RoundRows(before: map<int, EventRow>, after: map<int, EventRow>, events: seq<ClaimedEvent>, outcomes: seq<bool>, now: int)
    {
      && |outcomes| == |events|
      && after.Keys == before.Keys
      && (forall id :: id in after && id !in ClaimedIds(events) ==> after[id] == before[id])
      && (forall i :: 0 <= i < |events| ==>
            && events[i].id in after
            && var row := before[events[i].id];
               after[events[i].id] ==
                 if outcomes[i] then EventRow(row.resource, Done, row.attempts + 1, row.availableAt, now)
                 else EventRow(row.resource, Queued, row.attempts + 1, now + Delay(retryBase, maxBackoff, row.attempts + 1), now))
    }

    lemma RowsOfRound(before: map<int, EventRow>, claimed: map<int, EventRow>, after: map<int, EventRow>,
                      events: seq<ClaimedEvent>, outcomes: seq<bool>, token: int, now: int)
      requires |events| == |outcomes|
      requires ClaimedRows(before, claimed, events, token, now)
      requires FinishedUpTo(claimed, after, events, outcomes, |events|, now)
      ensures RoundRows(before, after, events, outcomes, now)
    {
      assert ClaimedIds(events)[..|events|] == ClaimedIds(events);
    }

    /** A worker claims a batch and crashes before it marks anything: a round of this reconciler after the lease
        takes every event of that batch over, and finishes it or puts it back, unless its own page is full of
        older events. */
    method RoundAfterCrash(crashed: int, crashedAt: int, token: int, now: int)
      returns (ghost abandoned: seq<ClaimedEvent>, ghost events: seq<ClaimedEvent>)
      requires truth.Valid() && PositiveIds(service.db)
      requires retryBase > 0 && maxBackoff > 0 && lease > 0
      requires now > crashedAt + lease
      modifies truth, service.cache
      ensures truth.Valid() && truth.rows.Keys == old(truth.rows).Keys
      ensures TakesTheDue(old(truth.rows), ClaimedIds(abandoned), PageLimit(batchSize), crashedAt, lease)
      ensures TakenOver(truth.rows, ClaimedIds(abandoned), ClaimedIds(events))
    {
      var batch := truth.Claim(crashed, batchSize, lease, crashedAt);
      abandoned := batch;
      ghost var left := truth.rows;
      var processed;
      ghost var outcomes;
      processed, events, outcomes := RunOnce(token, now);
      AbandonedIsTakenOver(old(truth.rows), left, truth.rows, abandoned, events, outcomes, crashed, crashedAt, now);
    }

    /** Each abandoned event is in the new batch and finished or put back, or the new batch is a full page of
        smaller ids. */
    ghost predicate TakenOver(rows: map<int, EventRow>, abandoned: seq<int>, taken: seq<int>) {
      forall id :: id in abandoned ==>
        && id in rows
        && (|| (id in taken && (rows[id].status == Done || rows[id].status == Queued))
            || (|taken| == PageLimit(batchSize) && forall other :: other in taken ==> other < id))
    }

    lemma AbandonedIsTakenOver(before: map<int, EventRow>, left: map<int, EventRow>, after: map<int, EventRow>,
                               abandoned: seq<ClaimedEvent>, events: seq<ClaimedEvent>, outcomes: seq<bool>,
                               crashed: int, crashedAt: int, now: int)
      requires lease > 0 && now > crashedAt + lease
      requires ClaimedRows(before, left, abandoned, crashed, crashedAt)
      requires TakesTheDue(left, ClaimedIds(events), PageLimit(batchSize), now, lease)
      requires RoundRows(left, after, events, outcomes, now)
      ensures TakenOver(after, ClaimedIds(abandoned), ClaimedIds(events))
    {
      forall id | id in ClaimedIds(abandoned)
        ensures id in left && left[id].status.Claimed? && left[id].lockedAt == crashedAt
      {
        var i :| 0 <= i < |abandoned| && abandoned[i].id == id;
        assert Claims(abandoned[i], before[id], left[id], crashed, crashedAt);
      }
      forall id | id in ClaimedIds(events)
        ensures after[id].status == Done || after[id].status == Queued
      {
        var i :| 0 <= i < |events| && events[i].id == id;
      }
    }

    /** The events of a batch, one by one; each must still be held under its token. */
    method Process(batch: seq<ClaimedEvent>, now: int) returns (ghost outcomes: seq<bool>)
      requires truth.Valid() && PositiveIds(service.db)
      requires retryBase > 0 && maxBackoff > 0
      requires Ascending(ClaimedIds(batch))
      requires forall i :: 0 <= i < |batch| ==> Holds(truth.rows, batch[i])
      modifies truth, service.cache
      ensures truth.Valid() && truth.rows.Keys == old(truth.rows).Keys
      ensures (service.cache.Keys(), outcomes) == Settle(service.db, old(service.cache.Keys()), Resources(batch))
      ensures FinishedUpTo(old(truth.rows), truth.rows, batch, outcomes, |batch|, now)
    {
      outcomes := [];
      ghost var claimed, start := truth.rows, service.cache.Keys();
      ghost var resources := Resources(batch);
      for i := 0 to |batch|
        invariant truth.Valid() && truth.rows.Keys == claimed.Keys && |outcomes| == i
        invariant FinishedUpTo(claimed, truth.rows, batch, outcomes, i, now)
        invariant (service.cache.Keys(), outcomes) == Settle(service.db, start, resources[..i])
      {
        ghost var before := truth.rows;
        assert resources[..i + 1] == resources[..i] + [batch[i].resource];
        SettleGrows(service.db, start, resources[..i], batch[i].resource);
        NextIsHeld(claimed, before, batch, outcomes, i, now);
        var ok := Handle(batch[i], now);
        FinishedStep(claimed, before, truth.rows, batch, outcomes, i, ok, now);
        outcomes := outcomes + [ok];
      }
      assert resources[..|batch|] == resources;
    }

    /** The first n events of a batch are finished, and every other row is as claimed. */
    predicate FinishedUpTo(claimed: map<int, EventRow>, rows: map<int, EventRow>, batch: seq<ClaimedEvent>, outcomes: seq<bool>, n: nat, now: int)
      requires n <= |batch| && n <= |outcomes|
    {
      && rows.Keys == claimed.Keys
      && (forall id :: id in rows && id !in ClaimedIds(batch)[..n] ==> rows[id] == claimed[id])
      && (forall k :: 0 <= k < n ==>
            batch[k].id in rows && Finished(claimed[batch[k].id], rows[batch[k].id], outcomes[k], now))
    }

    lemma NextIsHeld(claimed: map<int, EventRow>, rows: map<int, EventRow>, batch: seq<ClaimedEvent>, outcomes: seq<bool>, i: nat, now: int)
      requires i < |batch| && i == |outcomes| && Ascending(ClaimedIds(batch))
      requires Holds(claimed, batch[i]) && FinishedUpTo(claimed, rows, batch, outcomes, i, now)
      ensures Holds(rows, batch[i])
    {
      var ids := ClaimedIds(batch);
      assert ids[i] !in ids[..i];
    }

    lemma FinishedStep(claimed: map<int, EventRow>, before: map<int, EventRow>, rows: map<int, EventRow>,
                       batch: seq<ClaimedEvent>, outcomes: seq<bool>, i: nat, ok: bool, now: int)
      requires i < |batch| && i == |outcomes| && Ascending(ClaimedIds(batch))
      requires FinishedUpTo(claimed, before, batch, outcomes, i, now)
      requires batch[i].id in before && batch[i].id in rows && rows == before[batch[i].id := rows[batch[i].id]]
      requires Finished(before[batch[i].id], rows[batch[i].id], ok, now)
      ensures FinishedUpTo(claimed, rows, batch, outcomes + [ok], i + 1, now)
    {
      var ids := ClaimedIds(batch);
      assert ids[..i + 1] == ids[..i] + [ids[i]];
    }

    /** ReconcileNow, then the mark that fits its result. */
    method Handle(event: ClaimedEvent, now: int) returns (ok: bool)
      requires truth.Valid() && PositiveIds(service.db)
      requires retryBase > 0 && maxBackoff > 0
      requires Holds(truth.rows, event)
      modifies truth, service.cache
      ensures truth.Valid()
      ensures ok <==> Scannable(old(service.cache.Keys()), event.resource)
      ensures service.cache.Keys() ==
                if ok then Reconciled(service.db, old(service.cache.Keys()), event.resource) else old(service.cache.Keys())
      ensures event.id in truth.rows && truth.rows == old(truth.rows)[event.id := truth.rows[event.id]]
      ensures Finished(old(truth.rows)[event.id], truth.rows[event.id], ok, now)
    {
      ok := service.ReconcileCurrent(event.resource);
      if ok {
        var marked := truth.MarkSuccess(event.id, event.token);
      } else {
        var retryAfter := RetryDelay(retryBase, maxBackoff, event.attempts);
        DelayIsPositive(retryBase, maxBackoff, event.attempts);
        var marked := truth.MarkFailure(event.id, event.token, retryAfter as int, now);
      }
    }

    /** A claimed row after its reconciliation: done, or queued again after the backoff for its attempts. */
    predicate Finished(claimed: EventRow, row: EventRow, ok: bool, now: int) {
      if ok then row == claimed.(status := Done)
      else row == claimed.(status := Queued, availableAt := now + Delay(retryBase, maxBackoff, claimed.attempts))
    }
  }
}

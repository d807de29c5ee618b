/** The Redis lock that admits one warm-up or reconciliation per resource at a time. */
module WarmLocks {
  import opened Common
  import opened Tables
  import CacheProtocol

  const DEFAULT_TTL := 5000

  datatype Held = Held(token: int, expires: int)

  predicate Taken(locks: map<Resource, Held>, resource: Resource, now: int) {
    resource in locks && now <= locks[resource].expires
  }

  /** SET NX PX. */
  function TryTake(locks: map<Resource, Held>, resource: Resource, token: int, now: int, ttl: int)
    : (bool, map<Resource, Held>)
  {
    if Taken(locks, resource, now) then (false, locks) else (true, locks[resource := Held(token, now + ttl)])
  }

  /** Compare and delete. */
  function GiveBack(locks: map<Resource, Held>, resource: Resource, token: int, now: int): (bool, map<Resource, Held>) {
    if Taken(locks, resource, now) && locks[resource].token == token then (true, locks - {resource}) else (false, locks)
  }

  datatype LockCall =
    | Try(resource: Resource, token: int, ttl: int, at: int)
    | Give(resource: Resource, token: int, at: int)

  function Answer(locks: map<Resource, Held>, call: LockCall): (bool, map<Resource, Held>) {
    match call
    case Try(resource, token, ttl, at) => TryTake(locks, resource, token, at, ttl)
    case Give(resource, token, at) => GiveBack(locks, resource, token, at)
  }

  function AfterCalls(locks: map<Resource, Held>, calls: seq<LockCall>): map<Resource, Held>
    decreases |calls|
  {
    if calls == [] then locks else AfterCalls(Answer(locks, calls[0]).1, calls[1..])
  }

  /** The call neither comes after the lock's expiry nor gives it back. */
  predicate Respects(call: LockCall, resource: Resource, held: Held) {
    call.at <= held.expires && !(call.Give? && call.resource == resource && call.token == held.token)
  }

  /** Mutual exclusion: until its holder gives the lock back or its time runs out, whatever else is called on
      any lock, nobody else gets it. */
  lemma {:induction false} HolderExcludes(locks: map<Resource, Held>, calls: seq<LockCall>, resource: Resource, held: Held, other: int, at: int, ttl: int)
    requires resource in locks && locks[resource] == held
    requires forall i :: 0 <= i < |calls| ==> Respects(calls[i], resource, held)
    requires at <= held.expires
    ensures var after := AfterCalls(locks, calls);
            && resource in after && after[resource] == held
            && TryTake(after, resource, other, at, ttl) == (false, after)
    decreases |calls|
  {
    if calls != [] {
      assert Respects(calls[0], resource, held);
      assert forall i :: 0 <= i < |calls| - 1 ==> calls[1..][i] == calls[i + 1];
      HolderExcludes(Answer(locks, calls[0]).1, calls[1..], resource, held, other, at, ttl);
    }
  }

  /** A holder whose lock expired cannot free a successor's: tokens are fresh, so once a token holds nothing it
      never frees anything again. */
  lemma {:induction false} LateReleaseIsHarmless(locks: map<Resource, Held>, calls: seq<LockCall>, resource: Resource, token: int, at: int)
    requires resource in locks ==> locks[resource].token != token
    requires forall i :: 0 <= i < |calls| && calls[i].Try? ==> calls[i].token != token
    ensures var after := AfterCalls(locks, calls);
            GiveBack(after, resource, token, at) == (false, after)
    decreases |calls|
  {
    if calls != [] {
      assert calls[0].Try? ==> calls[0].token != token;
      assert forall i :: 0 <= i < |calls| - 1 ==> calls[1..][i] == calls[i + 1];
      LateReleaseIsHarmless(Answer(locks, calls[0]).1, calls[1..], resource, token, at);
    }
  }

  /** The lock can never be lost for good: whoever holds it, it is free after its time. */
  lemma ExpiredIsFree(locks: map<Resource, Held>, resource: Resource, token: int, at: int, ttl: int)
    requires resource in locks
    ensures TryTake(locks, resource, token, at, ttl).0 <==> at > locks[resource].expires
  {
  }

  // ---- the locks as the protocol sees them ----

  /** Who holds which lock at one moment. */
  function Holders(locks: map<Resource, Held>, now: int): map<Resource, int> {
    map r | r in locks && Taken(locks, r, now) :: locks[r].token
  }

  /** Taking a lock is the protocol's TakeWarmLock: possible exactly when nobody holds it. */
  lemma TakeIsProtocolStep(locks: map<Resource, Held>, resource: Resource, token: int, now: int, ttl: int)
    requires ttl > 0
    ensures var (acquired, after) := TryTake(locks, resource, token, now, ttl);
            && (acquired <==> resource !in Holders(locks, now))
            && Holders(after, now) == if acquired then Holders(locks, now)[resource := token] else Holders(locks, now)
  {
    var (acquired, after) := TryTake(locks, resource, token, now, ttl);
    if acquired { assert Holders(after, now) == Holders(locks, now)[resource := token]; }
  }

  /** Giving one back is the protocol's release at the end of a job. */
  lemma GiveIsProtocolStep(locks: map<Resource, Held>, resource: Resource, token: int, now: int)
    ensures Holders(GiveBack(locks, resource, token, now).1, now)
         == CacheProtocol.Release(Holders(locks, now), resource, token)
  {
    if GiveBack(locks, resource, token, now).0 {
      assert Holders(locks - {resource}, now) == Holders(locks, now) - {resource};
    }
  }

  /** Time alone only expires locks, as ExpireWarmLock does: nobody gains or changes one. */
  lemma TimeOnlyExpires(locks: map<Resource, Held>, now: int, later: int, resource: Resource)
    requires now <= later
    ensures resource in Holders(locks, later) ==>
              resource in Holders(locks, now) && Holders(locks, later)[resource] == Holders(locks, now)[resource]
    ensures resource in Holders(locks, now) ==>
              (resource !in Holders(locks, later) <==> later > locks[resource].expires)
  {
  }

  /** A taken lock is its token's for exactly `ttl` from now, and no other lock changes. */
  lemma TakenForItsTime(locks: map<Resource, Held>, resource: Resource, token: int, now: int, ttl: int, later: int, other: Resource)
    ensures var (acquired, after) := TryTake(locks, resource, token, now, ttl);
            && (acquired <==> resource !in locks || locks[resource].expires < now)
            && (acquired ==>
                  && resource in after && after[resource].token == token
                  && (Taken(after, resource, later) <==> later <= now + ttl)
                  && (other != resource ==>
                        (other in after <==> other in locks) && (other in locks ==> after[other] == locks[other])))
            && (!acquired ==> after == locks)
  {
  }

  /** Only the holder's own token gives a standing lock back, and then it is free. */
  lemma GivenBackIsFree(locks: map<Resource, Held>, resource: Resource, token: int, now: int, later: int, other: Resource)
    ensures var (given, after) := GiveBack(locks, resource, token, now);
            && (given <==> resource in locks && locks[resource].token == token && now <= locks[resource].expires)
            && (given ==>
                  && !Taken(after, resource, later)
                  && (other != resource ==>
                        (other in after <==> other in locks) && (other in locks ==> after[other] == locks[other])))
            && (!given ==> after == locks)
  {
  }

  class WarmLockStore {
    var locks: map<Resource, Held>

    constructor ()
      ensures locks == map[]
    {
      locks := map[];
    }

    method TryCacheWarmLock(resource: Resource, token: int, now: int, ttl: int) returns (acquired: bool)
      modifies this
      ensures (acquired, locks) == TryTake(old(locks), resource, token, now, if ttl <= 0 then DEFAULT_TTL else ttl)
    {
      var lifetime := if ttl <= 0 then DEFAULT_TTL else ttl;
      acquired := !Taken(locks, resource, now);
      if acquired {
        locks := locks[resource := Held(token, now + lifetime)];
      }
    }

    /** 0 stands for the empty token, which frees nothing. */
    method ReleaseCacheWarmLock(resource: Resource, token: int, now: int) returns (released: bool)
      modifies this
      ensures (released, locks) == if token == 0 then (false, old(locks)) else GiveBack(old(locks), resource, token, now)
    {
      if token == 0 { return false; }
      released := Taken(locks, resource, now) && locks[resource].token == token;
      if released {
        locks := locks - {resource};
      }
    }
  }
}

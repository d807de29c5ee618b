/** The online lease in Redis and the scripts that claim, renew and release it. */
module Presence {
  import opened Common

  /** A key with its owner and the time it expires. */
  datatype Lease = Lease(owner: int, expires: int)

  /** conn:{user} and online:{user}. */
  datatype Leases = Leases(conn: map<int, Lease>, online: map<int, Lease>)

  predicate Live(keys: map<int, Lease>, user: int, now: int) {
    user in keys && now <= keys[user].expires
  }

  predicate Owns(p: Leases, user: int, connection: int, now: int) {
    Live(p.conn, user, now) && p.conn[user].owner == connection
  }

  function Put(p: Leases, user: int, connection: int, expires: int): Leases {
    Leases(p.conn[user := Lease(connection, expires)], p.online[user := Lease(connection, expires)])
  }

  /** claimPresenceScript: takes the lease from anyone, and tells whether the user was offline. */
  function Claim(p: Leases, user: int, connection: int, now: int, ttl: int): (bool, Leases) {
    (!Live(p.online, user, now), Put(p, user, connection, now + ttl))
  }

  /** renewPresenceScript. */
  function Renew(p: Leases, user: int, connection: int, now: int, ttl: int): (bool, Leases) {
    if Owns(p, user, connection, now) then (true, Put(p, user, connection, now + ttl)) else (false, p)
  }

  /** releasePresenceScript: compare and delete. */
  function Release(p: Leases, user: int, connection: int, now: int): (bool, Leases) {
    if Owns(p, user, connection, now) then (true, Leases(p.conn - {user}, p.online - {user})) else (false, p)
  }

  // ---- how long a lease is owned ----

  /** A claim is told whether the online key still stood, and is owned for exactly `ttl` from now, by both keys;
      no other user notices. */
  lemma ClaimIsOwned(p: Leases, user: int, connection: int, now: int, ttl: int, later: int, other: int)
    ensures var (wasOffline, after) := Claim(p, user, connection, now, ttl);
            && (wasOffline <==> user !in p.online || p.online[user].expires < now)
            && (Owns(after, user, connection, later) <==> later <= now + ttl)
            && (Live(after.online, user, later) <==> later <= now + ttl)
            && (other != user ==>
                  && (other in after.conn <==> other in p.conn) && (other in p.conn ==> after.conn[other] == p.conn[other])
                  && (other in after.online <==> other in p.online) && (other in p.online ==> after.online[other] == p.online[other]))
  {
  }

  /** A renewal succeeds exactly for the connection whose key still stands, which then owns the lease for
      exactly `ttl` from now; otherwise nothing changes. */
  lemma RenewalIsOwned(p: Leases, user: int, connection: int, now: int, ttl: int, later: int, other: int)
    ensures var (owned, after) := Renew(p, user, connection, now, ttl);
            && (owned <==> user in p.conn && p.conn[user].owner == connection && now <= p.conn[user].expires)
            && (owned ==>
                  && (Owns(after, user, connection, later) <==> later <= now + ttl)
                  && (Live(after.online, user, later) <==> later <= now + ttl)
                  && (other != user ==>
                        && (other in after.conn <==> other in p.conn) && (other in p.conn ==> after.conn[other] == p.conn[other])
                        && (other in after.online <==> other in p.online) && (other in p.online ==> after.online[other] == p.online[other])))
            && (!owned ==> after == p)
  {
  }

  /** A release succeeds exactly for the connection whose key still stands, and leaves the user offline; otherwise
      nothing changes. */
  lemma ReleaseGoesOffline(p: Leases, user: int, connection: int, now: int, later: int, other: int)
    ensures var (released, after) := Release(p, user, connection, now);
            && (released <==> user in p.conn && p.conn[user].owner == connection && now <= p.conn[user].expires)
            && (released ==>
                  && user !in after.conn && user !in after.online
                  && !Live(after.conn, user, later) && !Live(after.online, user, later)
                  && (other != user ==>
                        && (other in after.conn <==> other in p.conn) && (other in p.conn ==> after.conn[other] == p.conn[other])
                        && (other in after.online <==> other in p.online) && (other in p.online ==> after.online[other] == p.online[other])))
            && (!released ==> after == p)
  {
  }

  /** The two keys of every user carry the same owner and expire together. */
  predicate KeysAgree(p: Leases) {
    p.conn == p.online
  }

  datatype Call = ClaimCall(user: int, connection: int, ttl: int) | RenewCall(user: int, connection: int, ttl: int) | ReleaseCall(user: int, connection: int)

  function Serve(p: Leases, call: Call, now: int): (bool, Leases) {
    match call
    case ClaimCall(user, connection, ttl) => Claim(p, user, connection, now, ttl)
    case RenewCall(user, connection, ttl) => Renew(p, user, connection, now, ttl)
    case ReleaseCall(user, connection) => Release(p, user, connection, now)
  }

  /** Redis after a history of timed calls. */
  function ServeAll(p: Leases, calls: seq<(Call, int)>): Leases
    decreases |calls|
  {
    if calls == [] then p else ServeAll(Serve(p, calls[0].0, calls[0].1).1, calls[1..])
  }

  /** conn and online agree after any calls at any times, so "online" always means "someone holds the lease". */
  lemma {:induction false} KeysAlwaysAgree(p: Leases, calls: seq<(Call, int)>, user: int, now: int)
    requires KeysAgree(p)
    ensures var after := ServeAll(p, calls);
            KeysAgree(after) && (Live(after.online, user, now) <==> exists c :: Owns(after, user, c, now))
    decreases |calls|
  {
    if calls == [] {
      if Live(p.online, user, now) { assert Owns(p, user, p.conn[user].owner, now); }
    } else {
      KeysAlwaysAgree(Serve(p, calls[0].0, calls[0].1).1, calls[1..], user, now);
    }
  }

  /** Once another connection has claimed, the old one can neither renew nor release, until it claims itself:
      whatever the others do, its own calls change nothing. */
  lemma {:induction false} SupersededStaysOut(p: Leases, calls: seq<(Call, int)>, user: int, former: int, now: int, ttl: int)
    requires user !in p.conn || p.conn[user].owner != former
    requires forall i :: 0 <= i < |calls| ==> !(calls[i].0.ClaimCall? && calls[i].0.user == user && calls[i].0.connection == former)
    ensures var after := ServeAll(p, calls);
            Renew(after, user, former, now, ttl) == (false, after) && Release(after, user, former, now) == (false, after)
    decreases |calls|
  {
    if calls != [] {
      assert calls[0] in calls;
      assert forall i :: 0 <= i < |calls| - 1 ==> calls[1..][i] == calls[i + 1];
      SupersededStaysOut(Serve(p, calls[0].0, calls[0].1).1, calls[1..], user, former, now, ttl);
    }
  }

  class PresenceStore {
    var conn: map<int, Lease>
    var online: map<int, Lease>

    function All(): Leases
      reads this
    {
      Leases(conn, online)
    }

    constructor ()
      ensures All() == Leases(map[], map[])
    {
      conn, online := map[], map[];
    }

    /** Connection ids are fresh random strings; 0 stands for the empty one. */
    method ClaimPresence(user: int, connection: int, now: int, ttl: int) returns (ok: bool, wasOffline: bool)
      modifies this
      ensures ok <==> user > 0 && connection != 0 && ttl > 0
      ensures ok ==> (wasOffline, All()) == Claim(old(All()), user, connection, now, ttl)
      ensures !ok ==> All() == old(All()) && !wasOffline
    {
      if user <= 0 || connection == 0 || ttl <= 0 { return false, false; }
      wasOffline := !Live(online, user, now);
      conn := conn[user := Lease(connection, now + ttl)];
      online := online[user := Lease(connection, now + ttl)];
      ok := true;
    }

    method RenewPresence(user: int, connection: int, now: int, ttl: int) returns (owned: bool)
      modifies this
      ensures (owned, All()) == Renew(old(All()), user, connection, now, ttl)
    {
      if !Live(conn, user, now) || conn[user].owner != connection { return false; }
      conn := conn[user := conn[user].(expires := now + ttl)];
      online := online[user := Lease(connection, now + ttl)];
      return true;
    }

    method ReleasePresence(user: int, connection: int, now: int) returns (released: bool)
      modifies this
      ensures (released, All()) == Release(old(All()), user, connection, now)
    {
      if !Live(conn, user, now) || conn[user].owner != connection { return false; }
      conn, online := conn - {user}, online - {user};
      return true;
    }
  }
}

/** The in-process Hub: registrations, disconnects, kicks and Close, interleaved with each other and with the
    lease in Redis, one small step at a time. */
module HubLifecycle {
  import opened Common
  import opened Presence

  const STRIPES := 64

  /** How far a connection's HTTP handler has come. */
  datatype Handler =
    | Waiting      // beginRegistration admitted it
    | Claiming     // holds its user's registration lock
    | Claimed      // ClaimPresence succeeded
    | Installed    // in the clients map, run() started, lock still held
    | Kicking      // lock given back
    | Over

  datatype Life = NotInstalled | Running | Removed | Finished

  /** `kickee` is the replaced client that this handler still has to close; `done` is the closed channel. */
  datatype Conn = Conn(user: int, handler: Handler, kickee: Option<int>, life: Life, done: bool)

  datatype Closing = Open | Draining | Closing(snapshot: set<int>) | Returned

  /** `ambiguous` are the connections whose claim reported an error after it took effect. */
  datatype Hub = Hub(
    leases: Leases,
    now: int,
    clients: map<int, int>,
    conns: map<int, Conn>,
    locks: map<int, int>,
    closing: Closing,
    ambiguous: set<int>)

  datatype HubAction =
    | Begin(c: int, user: int)
    | LockUser(c: int)
    | ClaimOk(c: int, ttl: int)
    | ClaimFails(c: int, ttl: int, applied: bool)
    | Install(c: int)
    | Unlock(c: int)
    | Kick(c: int)
    | EndHandler(c: int)
    | CloseConn(c: int)
    | RenewLease(c: int, ttl: int)
    | Remove(c: int)
    | ReleaseLease(c: int, applied: bool)
    | Tick(now: int)
    | Flush
    | CloseHub          // the first call of Close: no registration is admitted from here on
    | CloseAgain        // any later call: it finds the Hub closed and returns at once
    | Snapshot
    | CloseOne(c: int)
    | Return

  function Stripe(user: int): int {
    user % STRIPES
  }

  /** The clients of a map. */
  function ClientsOf(clients: map<int, int>): (mapped: set<int>)
    ensures forall c :: c in mapped <==> exists u :: u in clients && clients[u] == c
  {
    set u | u in clients :: clients[u]
  }

  predicate In(h: Hub, c: int, handler: Handler) {
    c in h.conns && h.conns[c].handler == handler
  }

  predicate Alive(h: Hub, c: int, life: Life) {
    c in h.conns && h.conns[c].life == life
  }

  /** registrationWG is at zero. */
  ghost predicate NoneRegistering(h: Hub) {
    forall c :: c in h.conns ==> h.conns[c].handler.Over?
  }

  /** clientsWG is at zero. */
  ghost predicate NoneRunning(h: Hub) {
    forall c :: c in h.conns ==> h.conns[c].life.NotInstalled? || h.conns[c].life.Finished?
  }

  ghost predicate HubEnabled(h: Hub, action: HubAction) {
    match action
    case Begin(c, _) => c !in h.conns && h.closing.Open?
    case LockUser(c) => In(h, c, Waiting) && Stripe(h.conns[c].user) !in h.locks
    case ClaimOk(c, _) => In(h, c, Claiming)
    case ClaimFails(c, _, _) => In(h, c, Claiming)
    case Install(c) => In(h, c, Claimed)
    case Unlock(c) => In(h, c, Installed)
    case Kick(c) => In(h, c, Kicking) && h.conns[c].kickee.Some?
    case EndHandler(c) => In(h, c, Kicking) && h.conns[c].kickee.None?
    case CloseConn(c) => Alive(h, c, Running)
    case RenewLease(c, _) => Alive(h, c, Running) || Alive(h, c, Removed)
    case Remove(c) => Alive(h, c, Running) && h.conns[c].done
    case ReleaseLease(c, _) => Alive(h, c, Removed)
    case Tick(now) => now >= h.now
    case Flush => true
    case CloseHub => h.closing.Open?
    case CloseAgain => !h.closing.Open?
    case Snapshot => h.closing.Draining? && NoneRegistering(h)
    case CloseOne(c) => h.closing.Closing? && c in h.closing.snapshot && c in h.conns
    case Return => h.closing.Closing? && (forall c :: c in h.closing.snapshot ==> c in h.conns && h.conns[c].done) && NoneRunning(h)
  }

  function Close(h: Hub, c: int): Hub
    requires c in h.conns
  {
    h.(conns := h.conns[c := h.conns[c].(done := true)])
  }

  function Goes(h: Hub, c: int, handler: Handler): Hub
    requires c in h.conns
  {
    h.(conns := h.conns[c := h.conns[c].(handler := handler)])
  }

  function DoInstall(h: Hub, c: int): Hub
    requires c in h.conns
  {
    var user := h.conns[c].user;
    var replaced := if user in h.clients then Some(h.clients[user]) else None;
    h.(conns := h.conns[c := h.conns[c].(handler := Installed, life := Running, kickee := replaced)],
       clients := h.clients[user := c])
  }

  function DoKick(h: Hub, c: int): Hub
    requires c in h.conns && h.conns[c].kickee.Some?
  {
    var k := h.conns[c].kickee.value;
    var kicked := if k in h.conns then Close(h, k) else h;
    kicked.(conns := kicked.conns[c := kicked.conns[c].(kickee := None)])
  }

  /** remove: only the client that is still the mapped one. */
  function DoRemove(h: Hub, c: int): Hub
    requires c in h.conns
  {
    var user := h.conns[c].user;
    h.(conns := h.conns[c := h.conns[c].(life := Removed)],
       clients := if user in h.clients && h.clients[user] == c then h.clients - {user} else h.clients)
  }

  function HubStep(h: Hub, action: HubAction): Hub
    requires HubEnabled(h, action)
  {
    match action
    case Begin(c, user) => h.(conns := h.conns[c := Conn(user, Waiting, None, NotInstalled, false)])
    case LockUser(c) => Goes(h, c, Claiming).(locks := h.locks[Stripe(h.conns[c].user) := c])
    case ClaimOk(c, ttl) =>
      Goes(h, c, Claimed).(leases := Claim(h.leases, h.conns[c].user, c, h.now, ttl).1)
    case ClaimFails(c, ttl, applied) =>
      Close(Goes(h, c, Over), c).(
        locks := h.locks - {Stripe(h.conns[c].user)},
        leases := if applied then Claim(h.leases, h.conns[c].user, c, h.now, ttl).1 else h.leases,
        ambiguous := if applied then h.ambiguous + {c} else h.ambiguous)
    case Install(c) => DoInstall(h, c)
    case Unlock(c) => Goes(h, c, Kicking).(locks := h.locks - {Stripe(h.conns[c].user)})
    case Kick(c) => DoKick(h, c)
    case EndHandler(c) => Goes(h, c, Over)
    case CloseConn(c) => Close(h, c)
    case RenewLease(c, ttl) =>
      var (owned, leases) := Renew(h.leases, h.conns[c].user, c, h.now, ttl);
      if owned then h.(leases := leases) else Close(h, c)
    case Remove(c) => DoRemove(h, c)
    case ReleaseLease(c, applied) =>
      h.(conns := h.conns[c := h.conns[c].(life := Finished)],
         leases := if applied then Release(h.leases, h.conns[c].user, c, h.now).1 else h.leases)
    case Tick(now) => h.(now := now)
    case Flush => h.(leases := Leases(map[], map[]))
    case CloseHub => h.(closing := Draining)
    case CloseAgain => h
    case Snapshot => h.(closing := Closing(ClientsOf(h.clients)))
    case CloseOne(c) => Close(h, c)
    case Return => h.(closing := Returned)
  }

  // ---- the invariant ----

  predicate Registering(k: Conn) {
    k.handler.Waiting? || k.handler.Claiming? || k.handler.Claimed?
  }

  predicate HoldsLock(k: Conn) {
    k.handler.Claiming? || k.handler.Claimed? || k.handler.Installed?
  }

  /** One connection's own bookkeeping. */
  predicate ConnOk(k: Conn) {
    && (Registering(k) ==> k.life.NotInstalled?)
    && (k.handler.Installed? || k.handler.Kicking? ==> !k.life.NotInstalled?)
    && (k.kickee.Some? ==> k.handler.Installed? || k.handler.Kicking?)
    && (k.life.Removed? || k.life.Finished? ==> k.done)
    && (k.handler.Over? && k.life.NotInstalled? ==> k.done)
  }

  ghost predicate ConnsOk(h: Hub) {
    forall c :: c in h.conns ==> ConnOk(h.conns[c])
  }

  /** An ambiguous claim never led to an installed client. */
  ghost predicate AmbiguousOk(h: Hub) {
    forall c :: c in h.ambiguous ==> c in h.conns && h.conns[c].handler.Over? && h.conns[c].life.NotInstalled?
  }

  /** A registration lock has one holder, and every handler in the critical section holds its user's. */
  ghost predicate LocksOk(h: Hub) {
    HandlersHold(h) && LocksHeld(h)
  }

  ghost predicate HandlersHold(h: Hub) {
    forall c :: c in h.conns && HoldsLock(h.conns[c]) ==>
      Stripe(h.conns[c].user) in h.locks && h.locks[Stripe(h.conns[c].user)] == c
  }

  ghost predicate LocksHeld(h: Hub) {
    forall s :: s in h.locks ==>
      h.locks[s] in h.conns && HoldsLock(h.conns[h.locks[s]]) && Stripe(h.conns[h.locks[s]].user) == s
  }

  ghost predicate ClientsOk(h: Hub) {
    forall u :: u in h.clients ==>
      h.clients[u] in h.conns && h.conns[h.clients[u]].user == u && h.conns[h.clients[u]].life.Running?
  }

  predicate Mapped(h: Hub, c: int) {
    c in h.conns && h.conns[c].user in h.clients && h.clients[h.conns[c].user] == c
  }

  ghost predicate AboutToBeKicked(h: Hub, c: int) {
    exists d :: d in h.conns && h.conns[d].kickee == Some(c)
  }

  /** A running client is the mapped one, or closed, or some handler is about to close it. */
  ghost predicate RunningOk(h: Hub) {
    forall c :: Alive(h, c, Running) ==> Mapped(h, c) || h.conns[c].done || AboutToBeKicked(h, c)
  }

  /** Whose lease it may be while the user has a client: that client's, a registering connection's, or one
      left by an ambiguous claim. */
  ghost predicate LeaseOk(h: Hub, user: int)
    requires user in h.leases.conn
  {
    var owner := h.leases.conn[user].owner;
    user !in h.clients ||
    (owner in h.conns && h.conns[owner].user == user
     && (Mapped(h, owner) || h.conns[owner].handler.Claimed? || owner in h.ambiguous))
  }

  ghost predicate LeasesOk(h: Hub) {
    KeysAgree(h.leases) && forall u :: u in h.leases.conn ==> LeaseOk(h, u)
  }

  /** Between its claim and its installation a connection is the only possible lease owner. */
  ghost predicate ClaimsOk(h: Hub) {
    forall c :: In(h, c, Claimed) && h.conns[c].user in h.leases.conn ==> h.leases.conn[h.conns[c].user].owner == c
  }

  ghost predicate ClosingOk(h: Hub) {
    match h.closing
    case Open => true
    case Draining => true
    case Closing(snapshot) =>
      && NoneRegistering(h)
      && (forall c :: c in snapshot ==> c in h.conns)
      && (forall c :: Alive(h, c, Running) ==> c in snapshot || h.conns[c].done)
    case Returned => NoneRegistering(h) && NoneRunning(h)
  }

  ghost predicate HubInv(h: Hub) {
    && ConnsOk(h) && AmbiguousOk(h) && LocksOk(h) && ClientsOk(h)
    && RunningOk(h) && LeasesOk(h) && ClaimsOk(h) && ClosingOk(h)
  }

  lemma StepKeepsConns(h: Hub, action: HubAction)
    requires ConnsOk(h) && HubEnabled(h, action)
    ensures ConnsOk(HubStep(h, action))
  {
  }

  lemma StepKeepsHandlers(h: Hub, action: HubAction)
    requires LocksOk(h) && HubEnabled(h, action)
    ensures HandlersHold(HubStep(h, action))
  {
  }

  lemma StepKeepsLocks(h: Hub, action: HubAction)
    requires LocksOk(h) && HubEnabled(h, action)
    ensures LocksHeld(HubStep(h, action))
  {
  }

  lemma StepKeepsClients(h: Hub, action: HubAction)
    requires ConnsOk(h) && ClientsOk(h) && HubEnabled(h, action)
    ensures ClientsOk(HubStep(h, action))
  {
  }

  lemma StepKeepsRunning(h: Hub, action: HubAction)
    requires ConnsOk(h) && ClientsOk(h) && RunningOk(h) && HubEnabled(h, action)
    ensures RunningOk(HubStep(h, action))
  {
    var after := HubStep(h, action);
    forall c | Alive(after, c, Running)
      ensures Mapped(after, c) || after.conns[c].done || AboutToBeKicked(after, c)
    {
      if AboutToBeKicked(h, c) {
        var d :| d in h.conns && h.conns[d].kickee == Some(c);
        assert d in after.conns;
      }
      if action.Install? { assert after.conns[action.c].kickee == after.conns[action.c].kickee; }
    }
  }

  lemma StepKeepsAmbiguous(h: Hub, action: HubAction)
    requires ConnsOk(h) && AmbiguousOk(h) && HubEnabled(h, action)
    ensures AmbiguousOk(HubStep(h, action))
  {
  }

  predicate TouchesLease(action: HubAction) {
    action.ClaimOk? || action.ClaimFails? || action.RenewLease? || action.ReleaseLease? || action.Flush?
  }

  lemma LeaseStepKeepsLeases(h: Hub, action: HubAction)
    requires ConnsOk(h) && ClientsOk(h) && LeasesOk(h) && HubEnabled(h, action) && TouchesLease(action)
    ensures LeasesOk(HubStep(h, action))
  {
  }

  lemma OtherStepKeepsLeases(h: Hub, action: HubAction)
    requires ConnsOk(h) && LeasesOk(h) && ClaimsOk(h) && HubEnabled(h, action) && !TouchesLease(action)
    ensures LeasesOk(HubStep(h, action))
  {
  }

  lemma StepKeepsClaims(h: Hub, action: HubAction)
    requires LocksOk(h) && ClaimsOk(h) && HubEnabled(h, action)
    ensures ClaimsOk(HubStep(h, action))
  {
  }

  lemma StepKeepsClosing(h: Hub, action: HubAction)
    requires ConnsOk(h) && ClientsOk(h) && ClosingOk(h) && RunningOk(h) && HubEnabled(h, action)
    ensures ClosingOk(HubStep(h, action))
  {
    if action.Snapshot? {
      forall c | c in ClientsOf(h.clients)
        ensures c in h.conns
      {
        var u :| u in h.clients && h.clients[u] == c;
      }
      forall c | Alive(h, c, Running)
        ensures c in ClientsOf(h.clients) || h.conns[c].done
      {
        if Mapped(h, c) { assert h.clients[h.conns[c].user] in ClientsOf(h.clients); }
      }
    }
  }

  /** Every step keeps the Hub's invariant. */
  lemma HubStepKeeps(h: Hub, action: HubAction)
    requires HubInv(h) && HubEnabled(h, action)
    ensures HubInv(HubStep(h, action))
  {
    StepKeepsConns(h, action);
    StepKeepsAmbiguous(h, action);
    StepKeepsHandlers(h, action);
    StepKeepsLocks(h, action);
    StepKeepsClients(h, action);
    StepKeepsRunning(h, action);
    if TouchesLease(action) { LeaseStepKeepsLeases(h, action); } else { OtherStepKeepsLeases(h, action); }
    StepKeepsClaims(h, action);
    StepKeepsClosing(h, action);
  }

  // ---- runs ----

  /** A fresh process; an earlier one may have left leases behind. */
  predicate Starts(h: Hub) {
    KeysAgree(h.leases) && h.clients == map[] && h.conns == map[] && h.locks == map[] && h.closing.Open? && h.ambiguous == {}
  }

  ghost predicate Moves(h: Hub, after: Hub) {
    exists action :: HubEnabled(h, action) && after == HubStep(h, action)
  }

  ghost predicate IsHubRun(run: seq<Hub>) {
    |run| > 0 && Starts(run[0]) && forall i :: 0 <= i < |run| - 1 ==> Moves(run[i], run[i + 1])
  }

  lemma {:induction false} HubRunHolds(run: seq<Hub>, i: nat)
    requires IsHubRun(run) && i < |run|
    ensures HubInv(run[i])
  {
    if i > 0 {
      HubRunHolds(run, i - 1);
      assert Moves(run[i - 1], run[i - 1 + 1]);
      var action :| HubEnabled(run[i - 1], action) && run[i] == HubStep(run[i - 1], action);
      HubStepKeeps(run[i - 1], action);
    }
  }

  /** Two connections of one user are never in the registration critical section together. */
  lemma OneRegistrationAtATime(run: seq<Hub>, i: nat, a: int, b: int)
    requires IsHubRun(run) && i < |run|
    requires a in run[i].conns && b in run[i].conns && run[i].conns[a].user == run[i].conns[b].user
    requires HoldsLock(run[i].conns[a]) && HoldsLock(run[i].conns[b])
    ensures a == b
  {
    HubRunHolds(run, i);
  }

  /** Outside that section, if the Hub maps a user to a client and the user has a lease, it is that client's
      if and only if it was not left by a claim that reported an error after it took effect. The two keys agree. */
  lemma HubAgreesWithLease(run: seq<Hub>, i: nat, user: int)
    requires IsHubRun(run) && i < |run|
    requires user in run[i].clients
    requires forall c :: In(run[i], c, Claimed) ==> run[i].conns[c].user != user
    ensures var h := run[i];
            user in h.leases.conn ==>
              (h.leases.conn[user].owner == h.clients[user] <==> h.leases.conn[user].owner !in h.ambiguous)
    ensures forall now :: Live(run[i].leases.conn, user, now) == Live(run[i].leases.online, user, now)
  {
    HubRunHolds(run, i);
    if user in run[i].leases.conn { assert LeaseOk(run[i], user); }
  }

  /** The next renewal of a client whose lease is not, or no longer, its own closes it and leaves the lease to
      its owner; one that owns its lease stays open if it was. */
  lemma RenewalClosesTheDispossessed(h: Hub, c: int, ttl: int)
    requires HubEnabled(h, RenewLease(c, ttl)) && !h.conns[c].done
    ensures var after := HubStep(h, RenewLease(c, ttl));
            && (after.conns[c].done <==> !Owns(h.leases, h.conns[c].user, c, h.now))
            && (after.conns[c].done ==> after.leases == h.leases)
            && (!after.conns[c].done ==>
                  && (forall later :: Owns(after.leases, h.conns[c].user, c, later) <==> later <= h.now + ttl)
                  && (forall later :: Live(after.leases.online, h.conns[c].user, later) <==> later <= h.now + ttl))
            && after.clients == h.clients && (forall d :: d in h.conns && d != c ==> after.conns[d] == h.conns[d])
  {
  }

  /** How a client ends: its peer's going away or a kick closes it, closing alone changes nothing else; removal
      unmaps it if it is the mapped one; the release then ends its lease if that is still its own, and touches
      nobody else's. */
  lemma ClientEnds(h: Hub, c: int, other: int)
    requires c in h.conns && other in h.conns && other != c
    ensures HubEnabled(h, CloseConn(c)) ==>
              var after := HubStep(h, CloseConn(c));
              after.conns[c].done && after.clients == h.clients && after.leases == h.leases && after.conns[other] == h.conns[other]
    ensures HubEnabled(h, Kick(c)) && h.conns[c].kickee == Some(other) ==>
              var after := HubStep(h, Kick(c));
              after.conns[other] == h.conns[other].(done := true) && after.conns[c] == h.conns[c].(kickee := None)
              && after.clients == h.clients && after.leases == h.leases
    ensures HubEnabled(h, Remove(c)) ==>
              var after, user := HubStep(h, Remove(c)), h.conns[c].user;
              && after.conns[c] == h.conns[c].(life := Removed) && after.conns[other] == h.conns[other]
              && (forall u :: u in after.clients <==> u in h.clients && !(u == user && h.clients[u] == c))
              && (forall u :: u in after.clients ==> after.clients[u] == h.clients[u])
              && after.leases == h.leases
    ensures HubEnabled(h, ReleaseLease(c, true)) ==>
              var after, user := HubStep(h, ReleaseLease(c, true)), h.conns[c].user;
              && after.conns[c] == h.conns[c].(life := Finished) && after.clients == h.clients
              && (if user in h.leases.conn && h.leases.conn[user].owner == c && h.now <= h.leases.conn[user].expires
                  then after.leases == Leases(h.leases.conn - {user}, h.leases.online - {user})
                  else after.leases == h.leases)
  {
  }

  predicate LeaseAgrees(h: Hub, user: int) {
    user in h.clients && user in h.leases.conn ==> h.leases.conn[user].owner == h.clients[user]
  }

  /** The exception is real: while a user has a client, a second connection's failed claim leaves Hub and
      lease in agreement if and only if it took no effect. */
  lemma FailedClaimAgreesIff(h: Hub, c: int, ttl: int, applied: bool)
    requires HubInv(h) && In(h, c, Claiming)
    requires h.conns[c].user in h.clients && LeaseAgrees(h, h.conns[c].user)
    ensures LeaseAgrees(HubStep(h, ClaimFails(c, ttl, applied)), h.conns[c].user) <==> !applied
  {
    assert ConnOk(h.conns[c]);
  }

  /** A connection that was replaced can neither renew nor release its successor's lease, nor unmap it. */
  lemma SupersededIsPowerless(run: seq<Hub>, i: nat, former: int, action: HubAction)
    requires IsHubRun(run) && i < |run|
    requires former in run[i].conns && !run[i].conns[former].life.NotInstalled?
    requires run[i].conns[former].user in run[i].clients && run[i].clients[run[i].conns[former].user] != former
    requires action.RenewLease? || action.Remove? || action.ReleaseLease?
    requires action.c == former && HubEnabled(run[i], action)
    ensures HubStep(run[i], action).leases == run[i].leases
    ensures HubStep(run[i], action).clients == run[i].clients
  {
    var h := run[i];
    HubRunHolds(run, i);
    var user := h.conns[former].user;
    if user in h.leases.conn {
      assert LeaseOk(h, user);
      assert ConnOk(h.conns[former]);
    }
  }

  ghost predicate AllClosed(h: Hub) {
    forall c :: c in h.conns ==> h.conns[c].done
  }

  /** Once the snapshot is taken, every admitted connection is closed exactly when those of the snapshot are:
      who is not in it was replaced and has been kicked. */
  lemma SnapshotIsEnough(run: seq<Hub>, i: nat)
    requires IsHubRun(run) && i < |run|
    requires run[i].closing.Closing?
    ensures AllClosed(run[i]) <==> forall c :: c in run[i].closing.snapshot ==> c in run[i].conns && run[i].conns[c].done
  {
    var h := run[i];
    HubRunHolds(run, i);
    forall c | c in h.conns && !h.conns[c].done
      ensures c in h.closing.snapshot
    {
      assert ConnOk(h.conns[c]);
      assert Alive(h, c, Running);
    }
  }

  /** What the first call of Close promises when it returns. */
  ghost predicate EverythingEnded(h: Hub) {
    AllClosed(h) && NoneRegistering(h) && NoneRunning(h) && h.clients == map[]
  }

  /** The first call has nothing left to wait for: it has returned, or its own next steps are enabled. */
  ghost predicate FirstCloseMayReturn(h: Hub) {
    match h.closing
    case Open => false
    case Draining => HubEnabled(h, Snapshot) && HubEnabled(HubStep(h, Snapshot), Return)
    case Closing(_) => HubEnabled(h, Return)
    case Returned => true
  }

  /** A later call of Close promises as much as the first one if and only if, at that moment, the first one has
      nothing left to wait for. */
  lemma SecondCloseIsExact(run: seq<Hub>, i: nat)
    requires IsHubRun(run) && i < |run|
    requires HubEnabled(run[i], CloseAgain)
    ensures EverythingEnded(run[i]) <==> FirstCloseMayReturn(run[i])
  {
    var h := run[i];
    HubRunHolds(run, i);
    if NoneRegistering(h) && NoneRunning(h) { EndedIsClosed(h); }
    if FirstCloseMayReturn(h) && h.closing.Draining? { SnapshotKeepsConns(h); }
  }

  lemma SnapshotKeepsConns(h: Hub)
    requires HubEnabled(h, Snapshot)
    ensures HubStep(h, Snapshot).conns == h.conns
  {
  }

  lemma EndedIsClosed(h: Hub)
    requires HubInv(h) && NoneRegistering(h) && NoneRunning(h)
    ensures AllClosed(h) && h.clients == map[]
  {
    NobodyMapped(h);
    assert forall c :: c in h.conns ==> ConnOk(h.conns[c]);
  }

  lemma Extended(run: seq<Hub>, action: HubAction) returns (longer: seq<Hub>)
    requires IsHubRun(run) && HubEnabled(run[|run| - 1], action)
    ensures IsHubRun(longer) && |longer| == |run| + 1
    ensures longer[|longer| - 1] == HubStep(run[|run| - 1], action)
  {
    longer := run + [HubStep(run[|run| - 1], action)];
    assert Moves(run[|run| - 1], longer[|longer| - 1]);
    assert forall j :: 0 <= j < |run| - 1 ==> Moves(longer[j], longer[j + 1]);
  }

  /** It may be too early: a run in which a later call of Close finds a client running and open. */
  lemma SecondCloseMayBeEarly() returns (run: seq<Hub>)
    ensures IsHubRun(run)
    ensures var h := run[|run| - 1]; HubEnabled(h, CloseAgain) && Alive(h, 1, Running) && !h.conns[1].done
  {
    run := [Hub(Leases(map[], map[]), 0, map[], map[], map[], Open, {})];
    run := Extended(run, Begin(1, 7));
    run := Extended(run, LockUser(1));
    run := Extended(run, ClaimOk(1, 60));
    run := Extended(run, Install(1));
    run := Extended(run, CloseHub);
  }

  lemma ReturnedStays(h: Hub, after: Hub)
    requires Moves(h, after) && h.closing.Returned?
    ensures after.closing.Returned?
  {
  }

  lemma {:induction false} ReturnedForever(run: seq<Hub>, i: nat, k: nat)
    requires forall j :: 0 <= j < |run| - 1 ==> Moves(run[j], run[j + 1])
    requires i <= k < |run| && run[i].closing.Returned?
    ensures run[k].closing.Returned?
    decreases k
  {
    if i < k {
      ReturnedForever(run, i, k - 1);
      assert Moves(run[k - 1], run[k - 1 + 1]);
      ReturnedStays(run[k - 1], run[k]);
    }
  }

  /** Once Close has returned, every connection that was ever admitted is closed, the map is empty, and it
      stays that way: no client is installed later. */
  lemma CloseIsFinal(run: seq<Hub>, i: nat, k: nat)
    requires IsHubRun(run) && i <= k < |run|
    requires run[i].closing.Returned?
    ensures run[k].clients == map[]
    ensures forall c :: c in run[k].conns ==> run[k].conns[c].done && !run[k].conns[c].life.Running?
  {
    ReturnedForever(run, i, k);
    HubRunHolds(run, k);
    assert forall c :: c in run[k].conns ==> ConnOk(run[k].conns[c]);
    assert ClosingOk(run[k]);
    NobodyMapped(run[k]);
  }

  lemma NobodyMapped(h: Hub)
    requires ClientsOk(h) && NoneRunning(h)
    ensures h.clients == map[]
  {
    assert forall c :: !Alive(h, c, Running);
    if h.clients != map[] { MappedIsRunning(h); }
  }

  lemma MappedIsRunning(h: Hub)
    requires ClientsOk(h) && h.clients != map[]
    ensures exists c :: Alive(h, c, Running)
  {
    NonEmpty(h.clients.Keys);
    var u :| u in h.clients.Keys;
    assert Alive(h, h.clients[u], Running);
  }

  // ---- the Hub in its own form ----

  /** The part of the state that the Hub's own methods change. */
  function Bare(clients: map<int, int>, conns: map<int, Conn>, closing: Closing): Hub {
    Hub(Leases(map[], map[]), 0, clients, conns, map[], closing, {})
  }

  class LocalHub {
    var clients: map<int, int>
    var conns: map<int, Conn>
    var closed: bool

    constructor ()
      ensures clients == map[] && conns == map[] && !closed
    {
      clients, conns, closed := map[], map[], false;
    }

    /** Admits a connection exactly while the Hub is not closed. */
    method BeginRegistration(c: int, user: int) returns (admitted: bool)
      requires c !in conns
      modifies this`conns
      ensures admitted <==> !closed
      ensures admitted ==> Bare(clients, conns, Open) == HubStep(Bare(clients, old(conns), Open), Begin(c, user))
      ensures !admitted ==> conns == old(conns)
    {
      if closed { return false; }
      conns := conns[c := Conn(user, Waiting, None, NotInstalled, false)];
      return true;
    }

    /** Maps the user to the new client and returns the replaced one for its handler to kick. */
    method Install(c: int) returns (replaced: Option<int>)
      requires c in conns
      modifies this`clients, this`conns
      ensures Bare(clients, conns, Open) == DoInstall(Bare(old(clients), old(conns), Open), c)
      ensures replaced == if old(conns)[c].user in old(clients) then Some(old(clients)[old(conns)[c].user]) else None
    {
      var user := conns[c].user;
      replaced := if user in clients then Some(clients[user]) else None;
      clients := clients[user := c];
      conns := conns[c := conns[c].(handler := Installed, life := Running, kickee := replaced)];
    }

    /** Removes the client only if it is still the mapped one. */
    method RemoveClient(c: int) returns (removed: bool)
      requires c in conns
      modifies this`clients, this`conns
      ensures removed <==> old(conns)[c].user in old(clients) && old(clients)[old(conns)[c].user] == c
      ensures Bare(clients, conns, Open) == DoRemove(Bare(old(clients), old(conns), Open), c)
    {
      var user := conns[c].user;
      conns := conns[c := conns[c].(life := Removed)];
      if user !in clients || clients[user] != c { return false; }
      clients := clients - {user};
      return true;
    }

    /** closeOnce: a second close changes nothing. */
    method CloseClient(c: int)
      requires c in conns
      modifies this`conns
      ensures conns == old(conns)[c := old(conns)[c].(done := true)]
    {
      if !conns[c].done {
        conns := conns[c := conns[c].(done := true)];
      }
    }

    /** Close, once no registration is in flight: the first call closes exactly the mapped clients, a later
        one returns at once. */
    method Close() returns (first: bool)
      requires forall c :: c in ClientsOf(clients) ==> c in conns
      modifies this`conns, this`closed
      ensures closed && conns.Keys == old(conns).Keys && (first <==> !old(closed))
      ensures first ==> forall c :: c in conns ==>
                conns[c] == if c in ClientsOf(clients) then old(conns)[c].(done := true) else old(conns)[c]
      ensures !first ==> conns == old(conns)
    {
      if closed { return false; }
      closed, first := true, true;
      var left := ClientsOf(clients);
      while left != {}
        invariant closed && forall c :: c in left ==> c in ClientsOf(clients)
        invariant conns.Keys == old(conns).Keys
        invariant forall c :: c in conns ==>
                    conns[c] == if c in ClientsOf(clients) && c !in left then old(conns)[c].(done := true) else old(conns)[c]
        decreases left
      {
        NonEmpty(left);
        var c :| c in left;
        CloseClient(c);
        left := left - {c};
      }
    }
  }
}

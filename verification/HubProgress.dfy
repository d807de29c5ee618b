/** The Hub never gets stuck: every admitted connection can be installed, and Close can always return. */
module HubProgress {
  import opened Common
  import opened Presence
  import opened HubLifecycle

  /** The steps of handlers, of ended clients and of Close itself. Nobody new connects, no peer disconnects,
      no lease is renewed, no time passes and no key is lost. */
  predicate OwnStep(action: HubAction) {
    || action.LockUser? || action.ClaimOk? || action.Install? || action.Unlock? || action.Kick? || action.EndHandler?
    || action.Remove? || action.ReleaseLease? || action.Snapshot? || action.CloseOne? || action.Return?
  }

  ghost predicate Drives(h: Hub, actions: seq<HubAction>, t: Hub)
    decreases |actions|
  {
    if actions == [] then t == h
    else OwnStep(actions[0]) && HubEnabled(h, actions[0]) && Drives(HubStep(h, actions[0]), actions[1..], t)
  }

  /** Own steps alone lead from h to t. */
  ghost predicate CanReach(h: Hub, t: Hub) {
    exists actions :: Drives(h, actions, t)
  }

  lemma {:induction false} DrivesJoin(h: Hub, first: seq<HubAction>, t: Hub, second: seq<HubAction>, u: Hub)
    requires Drives(h, first, t) && Drives(t, second, u)
    ensures Drives(h, first + second, u)
    decreases |first|
  {
    if first == [] {
      assert first + second == second;
    } else {
      assert (first + second)[1..] == first[1..] + second;
      DrivesJoin(HubStep(h, first[0]), first[1..], t, second, u);
    }
  }

  lemma ReachOn(h: Hub, t: Hub, u: Hub)
    requires CanReach(h, t) && CanReach(t, u)
    ensures CanReach(h, u)
  {
    var first :| Drives(h, first, t);
    var second :| Drives(t, second, u);
    DrivesJoin(h, first, t, second, u);
  }

  lemma ReachSelf(h: Hub)
    ensures CanReach(h, h)
  {
    assert Drives(h, [], h);
  }

  /** One own step, which keeps the invariant. */
  lemma Take(h: Hub, action: HubAction) returns (t: Hub)
    requires HubInv(h) && HubEnabled(h, action) && OwnStep(action)
    ensures t == HubStep(h, action) && HubInv(t) && CanReach(h, t)
  {
    t := HubStep(h, action);
    HubStepKeeps(h, action);
    assert Drives(t, [action][1..], t);
    assert Drives(h, [action], t);
  }

  /** One more own step at the end of a path. */
  lemma Further(h: Hub, t: Hub, action: HubAction) returns (u: Hub)
    requires CanReach(h, t) && HubInv(t) && HubEnabled(t, action) && OwnStep(action)
    ensures u == HubStep(t, action) && HubInv(u) && CanReach(h, u)
  {
    u := Take(t, action);
    ReachOn(h, t, u);
  }

  // ---- one registration ----

  /** Nothing but one connection's bookkeeping, the map, the lease and the locks has changed. */
  ghost predicate OnlyMoves(h: Hub, t: Hub, c: int) {
    && t.closing == h.closing && t.now == h.now && t.conns.Keys == h.conns.Keys
    && forall d :: d in h.conns && d != c ==> t.conns[d] == h.conns[d]
  }

  /** The holder of a registration lock gets on until it gives it back. */
  lemma LockIsGivenBack(h: Hub, k: int) returns (t: Hub)
    requires HubInv(h) && k in h.conns && HoldsLock(h.conns[k])
    ensures HubInv(t) && CanReach(h, t) && OnlyMoves(h, t, k)
    ensures t.conns[k].handler.Kicking? && t.conns[k].user == h.conns[k].user
    ensures t.locks == h.locks - {Stripe(h.conns[k].user)}
  {
    t := h;
    ReachSelf(h);
    if t.conns[k].handler.Claiming? { t := Further(h, t, ClaimOk(k, 1)); }
    if t.conns[k].handler.Claimed? { t := Further(h, t, Install(k)); }
    t := Further(h, t, Unlock(k));
  }

  /** The registration lock a waiting connection needs can be had, and nothing of the connection changes. */
  lemma LockCanBeHad(h: Hub, c: int) returns (t: Hub)
    requires HubInv(h) && In(h, c, Waiting)
    ensures HubInv(t) && CanReach(h, t) && HubEnabled(t, LockUser(c))
    ensures t.conns.Keys == h.conns.Keys && t.conns[c] == h.conns[c] && t.closing == h.closing && t.now == h.now
    ensures forall d :: d in h.conns && h.conns[d].handler.Over? ==> t.conns[d] == h.conns[d]
  {
    var stripe := Stripe(h.conns[c].user);
    if stripe in h.locks {
      assert HoldsLock(h.conns[h.locks[stripe]]);
      t := LockIsGivenBack(h, h.locks[stripe]);
    } else {
      t := h;
      ReachSelf(h);
    }
  }

  /** From every reachable state of an open Hub, a newly admitted connection can become its user's client and
      the owner of the lease for its whole lifetime, whoever holds the registration lock now. */
  lemma RegistrationCanFinish(run: seq<Hub>, c: int, user: int, ttl: int) returns (t: Hub)
    requires IsHubRun(run) && run[|run| - 1].closing == Open && c !in run[|run| - 1].conns && ttl > 0
    ensures var h := run[|run| - 1];
            && HubEnabled(h, Begin(c, user)) && CanReach(HubStep(h, Begin(c, user)), t)
            && t.now == h.now
    ensures user in t.clients && t.clients[user] == c && Alive(t, c, Running) && !t.conns[c].done
    ensures user in t.leases.conn && t.leases.conn[user].owner == c
    ensures forall now :: Live(t.leases.conn, user, now) <==> now <= t.now + ttl
  {
    var h := run[|run| - 1];
    HubRunHolds(run, |run| - 1);
    HubStepKeeps(h, Begin(c, user));
    var begun := HubStep(h, Begin(c, user));
    t := LockCanBeHad(begun, c);
    t := Further(begun, t, LockUser(c));
    t := Further(begun, t, ClaimOk(c, ttl));
    t := Further(begun, t, Install(c));
  }

  // ---- Close ----

  /** The state after some progress of the handlers: none that was over has started again. */
  ghost predicate Progressed(h: Hub, t: Hub) {
    && HubInv(t) && CanReach(h, t) && t.closing == h.closing && t.conns.Keys == h.conns.Keys
    && forall d :: In(h, d, Over) ==> In(t, d, Over)
  }

  lemma ProgressedOn(h: Hub, t: Hub, u: Hub)
    requires Progressed(h, t) && Progressed(t, u)
    ensures Progressed(h, u)
  {
    ReachOn(h, t, u);
  }

  lemma WaitingCanHold(h: Hub, c: int) returns (t: Hub)
    requires HubInv(h) && In(h, c, Waiting)
    ensures Progressed(h, t) && In(t, c, Claiming)
  {
    t := LockCanBeHad(h, c);
    t := Further(h, t, LockUser(c));
  }

  lemma KickingCanEnd(h: Hub, c: int) returns (t: Hub)
    requires HubInv(h) && In(h, c, Kicking)
    ensures Progressed(h, t) && In(t, c, Over)
  {
    t := h;
    ReachSelf(h);
    if t.conns[c].kickee.Some? { t := Further(h, t, Kick(c)); }
    t := Further(h, t, EndHandler(c));
  }

  /** Any handler can come to its end. */
  lemma HandlerCanEnd(h: Hub, c: int) returns (t: Hub)
    requires HubInv(h) && c in h.conns
    ensures Progressed(h, t) && In(t, c, Over)
  {
    t := h;
    ReachSelf(h);
    if In(t, c, Waiting) {
      t := WaitingCanHold(t, c);
    }
    if HoldsLock(t.conns[c]) {
      var u := LockIsGivenBack(t, c);
      ProgressedOn(h, t, u);
      t := u;
    }
    if In(t, c, Kicking) {
      var u := KickingCanEnd(t, c);
      ProgressedOn(h, t, u);
      t := u;
    }
  }

  ghost function Registrants(h: Hub): set<int> {
    set c | c in h.conns && !h.conns[c].handler.Over?
  }

  lemma Fewer(a: set<int>, b: set<int>, x: int)
    requires a <= b && x in b && x !in a
    ensures |a| < |b|
  {
    SubsetSize(a, b - {x});
  }

  lemma {:induction false} SubsetSize(a: set<int>, b: set<int>)
    requires a <= b
    ensures |a| <= |b|
    decreases |b|
  {
    if a != {} {
      NonEmpty(a);
      var x :| x in a;
      SubsetSize(a - {x}, b - {x});
    }
  }

  /** registrationWG comes to zero. */
  lemma {:induction false} HandlersCanEnd(h: Hub) returns (t: Hub)
    requires HubInv(h) && h.closing == Draining
    ensures HubInv(t) && CanReach(h, t) && t.closing == Draining && NoneRegistering(t) && t.conns.Keys == h.conns.Keys
    decreases |Registrants(h)|
  {
    if c :| c in h.conns && !h.conns[c].handler.Over? {
      var next := HandlerCanEnd(h, c);
      forall d | d in Registrants(next)
        ensures d in Registrants(h)
      {
        assert !In(next, d, Over);
      }
      Fewer(Registrants(next), Registrants(h), c);
      t := HandlersCanEnd(next);
      ReachOn(h, next, t);
    } else {
      t := h;
      ReachSelf(h);
    }
  }

  ghost function StillOpen(h: Hub): set<int> {
    set c | c in h.conns && !h.conns[c].done
  }

  /** Close closes the clients of its snapshot, and then every connection is closed. */
  lemma {:induction false} SnapshotCanClose(h: Hub) returns (t: Hub)
    requires HubInv(h) && h.closing.Closing?
    ensures HubInv(t) && CanReach(h, t) && t.closing == h.closing && AllClosed(t) && t.conns.Keys == h.conns.Keys
    decreases |StillOpen(h)|
  {
    if c :| c in h.conns && !h.conns[c].done {
      assert ConnOk(h.conns[c]) && Alive(h, c, Running);
      var next := Take(h, CloseOne(c));
      Fewer(StillOpen(next), StillOpen(h), c);
      t := SnapshotCanClose(next);
      ReachOn(h, next, t);
    } else {
      t := h;
      ReachSelf(h);
    }
  }

  ghost function Unfinished(h: Hub): set<int> {
    set c | c in h.conns && (h.conns[c].life.Running? || h.conns[c].life.Removed?)
  }

  /** A closed client leaves the map, gives its lease up and is finished. */
  lemma ClientCanFinish(h: Hub, c: int) returns (t: Hub)
    requires HubInv(h) && c in Unfinished(h) && h.conns[c].done
    ensures HubInv(t) && CanReach(h, t) && t.closing == h.closing && t.conns.Keys == h.conns.Keys
    ensures t.conns == h.conns[c := h.conns[c].(life := Finished)]
  {
    t := h;
    ReachSelf(h);
    if t.conns[c].life.Running? { t := Further(h, t, Remove(c)); }
    t := Further(h, t, ReleaseLease(c, true));
  }

  /** clientsWG comes to zero. */
  lemma {:induction false} ClientsCanFinish(h: Hub) returns (t: Hub)
    requires HubInv(h) && h.closing.Closing? && AllClosed(h)
    ensures HubInv(t) && CanReach(h, t) && t.closing == h.closing && AllClosed(t) && NoneRunning(t) && t.conns.Keys == h.conns.Keys
    decreases |Unfinished(h)|
  {
    if c :| c in Unfinished(h) {
      var next := ClientCanFinish(h, c);
      Fewer(Unfinished(next), Unfinished(h), c);
      t := ClientsCanFinish(next);
      ReachOn(h, next, t);
    } else {
      assert forall c :: c in h.conns ==> c !in Unfinished(h);
      t := h;
      ReachSelf(h);
    }
  }

  /** From every reachable state in which Close has been called, its own steps, the pending handlers' and the
      closed clients' bring it to return; it never depends on a peer that goes away, and all ends as promised. */
  lemma CloseCanReturn(run: seq<Hub>) returns (t: Hub)
    requires IsHubRun(run) && run[|run| - 1].closing != Open
    ensures CanReach(run[|run| - 1], t) && t.closing == Returned
    ensures t.conns.Keys == run[|run| - 1].conns.Keys && t.clients == map[]
    ensures forall c :: c in t.conns ==> t.conns[c].done && t.conns[c].handler.Over? && !t.conns[c].life.Running? && !t.conns[c].life.Removed?
  {
    var h := run[|run| - 1];
    HubRunHolds(run, |run| - 1);
    t := h;
    ReachSelf(h);
    if t.closing.Draining? {
      t := HandlersCanEnd(h);
      t := Further(h, t, Snapshot);
    }
    if t.closing.Closing? {
      t := CloseReturns(h, t);
    }
    EndedIsClosed(t);
  }

  lemma CloseReturns(h: Hub, closing: Hub) returns (t: Hub)
    requires CanReach(h, closing) && HubInv(closing) && closing.closing.Closing?
    ensures CanReach(h, t) && HubInv(t) && t.closing == Returned && t.conns.Keys == closing.conns.Keys
  {
    t := SnapshotCanClose(closing);
    ReachOn(h, closing, t);
    var u := ClientsCanFinish(t);
    ReachOn(h, t, u);
    t := Further(h, u, Return);
  }
}

/** The private and group message scripts: authorisation, deduplication and sequence numbers. */
module MessageChecks {
  import opened Common
  import opened Tables
  import opened RedisKeys

  const DEDUP_MS := 300000

  datatype Verdict = Sent | NotFriend | Blocked | NotMember | Muted | Duplicate | InvalidId

  /** The script's reply; `sequence` is 0 for private messages. */
  datatype Reply = Reply(verdict: Verdict, messageId: int, sequence: int, timestamp: int, online: bool)

  function Refusal(verdict: Verdict): Reply {
    Reply(verdict, 0, 0, 0, false)
  }

  predicate DedupLive(rd: Redis, sender: int, clientId: string, now: int) {
    (sender, clientId) in rd.dedup && now <= rd.dedup[(sender, clientId)]
  }

  function Remember(rd: Redis, sender: int, clientId: string, now: int): Redis {
    rd.(dedup := rd.dedup[(sender, clientId) := now + DEDUP_MS])
  }

  predicate ValidId(messageId: int) {
    1 <= messageId <= MAX_MESSAGE_ID
  }

  /** The relationship part of private_msg_check.lua. */
  function PrivateVerdict(rd: Redis, sender: int, receiver: int): Verdict {
    if (sender, receiver) !in rd.friendKeys || (receiver, sender) !in rd.friendKeys then NotFriend
    else if (receiver, sender) in rd.blocked || (sender, receiver) in rd.blocked then Blocked
    else Sent
  }

  /** The membership part of group_msg_check.lua. */
  function GroupVerdict(rd: Redis, group: int, sender: int, now: int): Verdict {
    if (group, sender) !in rd.groupMembers then NotMember
    else if (group, sender) !in rd.memberInfo then NotMember
    else if rd.memberInfo[(group, sender)].mutedUntil > now then Muted
    else Sent
  }

  function PrivateCheck(rd: Redis, sender: int, receiver: int, clientId: string, messageId: int, now: int)
    : (Reply, Redis)
  {
    var verdict := PrivateVerdict(rd, sender, receiver);
    if !ValidId(messageId) then (Refusal(InvalidId), rd)
    else if verdict != Sent then (Refusal(verdict), rd)
    else if DedupLive(rd, sender, clientId, now) then (Refusal(Duplicate), rd)
    else (Reply(Sent, messageId, 0, now, receiver in rd.online), Remember(rd, sender, clientId, now))
  }

  function Sequence(rd: Redis, group: int): int {
    if group in rd.groupSeq then rd.groupSeq[group] else 0
  }

  function GroupCheck(rd: Redis, group: int, sender: int, clientId: string, messageId: int, now: int)
    : (Reply, Redis)
  {
    var verdict := GroupVerdict(rd, group, sender, now);
    if !ValidId(messageId) then (Refusal(InvalidId), rd)
    else if verdict != Sent then (Refusal(verdict), rd)
    else if DedupLive(rd, sender, clientId, now) then (Refusal(Duplicate), rd)
    else
      var sequence := Sequence(rd, group) + 1;
      (Reply(Sent, messageId, sequence, now, false),
       Remember(rd, sender, clientId, now).(groupSeq := rd.groupSeq[group := sequence]))
  }

  // ---- what the rows in MySQL say ----

  function PrivateTruth(db: Db, sender: int, receiver: int): Verdict {
    if (sender, receiver) !in db.friendships || (receiver, sender) !in db.friendships then NotFriend
    else if (receiver, sender) in db.blacklist || (sender, receiver) in db.blacklist then Blocked
    else Sent
  }

  function GroupTruth(db: Db, group: int, sender: int, now: int): Verdict {
    if (group, sender) !in db.members then NotMember
    else match db.members[(group, sender)].mutedUntil
         case None => Sent
         case Some(deadline) => if deadline > now then Muted else Sent
  }

  predicate Agrees(rd: Redis, db: Db, resource: Resource) {
    Content(rd, resource) == Project(db, resource)
  }

  /** Agreeing projections give agreeing private verdicts. */
  lemma PrivateAgrees(rd: Redis, db: Db, sender: int, receiver: int)
    requires Agrees(rd, db, Friends(sender)) && Agrees(rd, db, Friends(receiver))
    requires Agrees(rd, db, Blacklist(sender)) && Agrees(rd, db, Blacklist(receiver))
    ensures PrivateVerdict(rd, sender, receiver) == PrivateTruth(db, sender, receiver)
  {
    assert receiver in Of(rd.friendKeys, sender) <==> receiver in Of(db.friendships, sender);
    assert sender in Of(rd.friendKeys, receiver) <==> sender in Of(db.friendships, receiver);
    assert receiver in Of(rd.blocked, sender) <==> receiver in Of(db.blacklist, sender);
    assert sender in Of(rd.blocked, receiver) <==> sender in Of(db.blacklist, receiver);
  }

  /** An agreeing group projection gives agreeing group verdicts at every moment. */
  lemma GroupAgrees(rd: Redis, db: Db, group: int, sender: int, now: int)
    requires Shows(rd, Members(group), Project(db, Members(group)))
    requires 0 <= now
    ensures GroupVerdict(rd, group, sender, now) == GroupTruth(db, group, sender, now)
  {
    var rows := RowsOf(rd.memberInfo, group);
    assert rows == RosterOf(db, group);
    assert sender in Of(rd.groupMembers, group) <==> sender in rows;
  }

  // ---- what an accepted check does ----

  /** The verdicts of the rows, spelled out: friendship must stand both ways and neither may block the other;
      a member is muted until the deadline of the row, and not from then on. */
  lemma TruthMeans(db: Db, sender: int, receiver: int, group: int, now: int)
    ensures PrivateTruth(db, sender, receiver) == Sent <==>
              && (sender, receiver) in db.friendships && (receiver, sender) in db.friendships
              && (sender, receiver) !in db.blacklist && (receiver, sender) !in db.blacklist
    ensures PrivateTruth(db, sender, receiver) == NotFriend <==>
              (sender, receiver) !in db.friendships || (receiver, sender) !in db.friendships
    ensures PrivateTruth(db, sender, receiver) in {Sent, NotFriend, Blocked}
    ensures GroupTruth(db, group, sender, now) == NotMember <==> (group, sender) !in db.members
    ensures GroupTruth(db, group, sender, now) == Muted <==>
              && (group, sender) in db.members
              && db.members[(group, sender)].mutedUntil.Some? && now < db.members[(group, sender)].mutedUntil.value
    ensures GroupTruth(db, group, sender, now) in {Sent, NotMember, Muted}
  {
  }

  /** A private check answers Sent exactly for a browser-safe id, between friends who do not block each other,
      with no standing key of the same client id. It then echoes id and time, tells whether the receiver is
      online, lets that key stand for the 300 seconds to come, and changes nothing else. A bad id is reported
      before anything, a missing friendship before a block, and a duplicate only between friends. */
  lemma PrivateAcceptance(rd: Redis, sender: int, receiver: int, clientId: string, messageId: int, now: int)
    ensures var (reply, after) := PrivateCheck(rd, sender, receiver, clientId, messageId, now);
            && (reply.verdict == Sent <==>
                  && 1 <= messageId <= 9007199254740991
                  && (sender, receiver) in rd.friendKeys && (receiver, sender) in rd.friendKeys
                  && (sender, receiver) !in rd.blocked && (receiver, sender) !in rd.blocked
                  && ((sender, clientId) in rd.dedup ==> rd.dedup[(sender, clientId)] < now))
            && (reply.verdict == InvalidId <==> messageId < 1 || messageId > 9007199254740991)
            && (reply.verdict == NotFriend <==>
                  && 1 <= messageId <= 9007199254740991
                  && ((sender, receiver) !in rd.friendKeys || (receiver, sender) !in rd.friendKeys))
            && (reply.verdict == Blocked <==>
                  && 1 <= messageId <= 9007199254740991
                  && (sender, receiver) in rd.friendKeys && (receiver, sender) in rd.friendKeys
                  && ((sender, receiver) in rd.blocked || (receiver, sender) in rd.blocked))
            && (reply.verdict in {Sent, InvalidId, NotFriend, Blocked, Duplicate})
            && (reply.verdict != Sent ==> reply == Reply(reply.verdict, 0, 0, 0, false) && after == rd)
            && (reply.verdict == Sent ==>
                  && reply == Reply(Sent, messageId, 0, now, receiver in rd.online)
                  && after == rd.(dedup := rd.dedup[(sender, clientId) := now + 300000]))
  {
  }

  /** The same for a group: the sender is a member whose cached deadline has come, and the group's number goes
      up by one. */
  lemma GroupAcceptance(rd: Redis, group: int, sender: int, clientId: string, messageId: int, now: int)
    ensures var (reply, after) := GroupCheck(rd, group, sender, clientId, messageId, now);
            var number := (if group in rd.groupSeq then rd.groupSeq[group] else 0) + 1;
            && (reply.verdict == Sent <==>
                  && 1 <= messageId <= 9007199254740991
                  && (group, sender) in rd.groupMembers && (group, sender) in rd.memberInfo
                  && rd.memberInfo[(group, sender)].mutedUntil <= now
                  && ((sender, clientId) in rd.dedup ==> rd.dedup[(sender, clientId)] < now))
            && (reply.verdict == InvalidId <==> messageId < 1 || messageId > 9007199254740991)
            && (reply.verdict == NotMember <==>
                  && 1 <= messageId <= 9007199254740991
                  && ((group, sender) !in rd.groupMembers || (group, sender) !in rd.memberInfo))
            && (reply.verdict == Muted <==>
                  && 1 <= messageId <= 9007199254740991
                  && (group, sender) in rd.groupMembers && (group, sender) in rd.memberInfo
                  && now < rd.memberInfo[(group, sender)].mutedUntil)
            && (reply.verdict in {Sent, InvalidId, NotMember, Muted, Duplicate})
            && (reply.verdict != Sent ==> reply == Reply(reply.verdict, 0, 0, 0, false) && after == rd)
            && (reply.verdict == Sent ==>
                  && reply == Reply(Sent, messageId, number, now, false)
                  && after == rd.(dedup := rd.dedup[(sender, clientId) := now + 300000],
                                  groupSeq := rd.groupSeq[group := number]))
  {
  }

  // ---- histories ----

  /** What can happen to Redis between two checks. */
  datatype Attempt =
    | ToUser(sender: int, receiver: int, clientId: string, messageId: int, now: int)
    | ToGroup(group: int, sender: int, clientId: string, messageId: int, now: int)
    | Forget(group: int)                                                  // a disbanded group's runtime is deleted
    | Rewrite(resource: Resource, legacy: set<int>, value: Projection)    // a projection is replaced
    | Unmark(resource: Resource)                                          // its markers are dropped
    | Vanish(left: Redis)                                                 // keys are lost, or come and go

  /** The reply and the Redis after one attempt; only checks reply. */
  function Play(rd: Redis, attempt: Attempt): (Reply, Redis) {
    match attempt
    case ToUser(sender, receiver, clientId, messageId, now) => PrivateCheck(rd, sender, receiver, clientId, messageId, now)
    case ToGroup(group, sender, clientId, messageId, now) => GroupCheck(rd, group, sender, clientId, messageId, now)
    case Forget(group) => (Refusal(NotMember), DeleteRuntime(rd, group))
    case Rewrite(resource, legacy, value) =>
      (Refusal(NotMember), if Fits(resource, value) then Replace(rd, resource, legacy, value) else rd)
    case Unmark(resource) => (Refusal(NotMember), Invalidate(rd, resource))
    case Vanish(left) => (Refusal(NotMember), left)
  }

  function Replies(rd: Redis, attempts: seq<Attempt>): (replies: seq<Reply>)
    ensures |replies| == |attempts|
    decreases |attempts|
  {
    if attempts == [] then []
    else [Play(rd, attempts[0]).0] + Replies(Play(rd, attempts[0]).1, attempts[1..])
  }

  predicate Uses(attempt: Attempt, sender: int, clientId: string) {
    (attempt.ToUser? || attempt.ToGroup?) && attempt.sender == sender && attempt.clientId == clientId
  }

  /** A refused check changes nothing at all. */
  lemma RefusalIsPure(rd: Redis, attempt: Attempt)
    requires attempt.ToUser? || attempt.ToGroup?
    requires Play(rd, attempt).0.verdict != Sent
    ensures Play(rd, attempt).1 == rd
  {
  }

  /** No loss of the history takes this dedup key. */
  predicate KeepsKey(rd: Redis, attempts: seq<Attempt>, sender: int, clientId: string)
    decreases |attempts|
  {
    attempts == [] ||
    (&& (attempts[0].Vanish? && (sender, clientId) in rd.dedup ==>
           (sender, clientId) in attempts[0].left.dedup
           && attempts[0].left.dedup[(sender, clientId)] == rd.dedup[(sender, clientId)])
     && KeepsKey(Play(rd, attempts[0]).1, attempts[1..], sender, clientId))
  }

  /** A standing key outlasts every attempt but its own loss: replacements, dropped markers and deleted runtimes
      leave it alone, and an acceptance under it only moves its expiry on. */
  lemma KeyStands(rd: Redis, attempt: Attempt, sender: int, clientId: string)
    requires (sender, clientId) in rd.dedup
    requires attempt.Vanish? ==> (sender, clientId) in attempt.left.dedup
                                 && attempt.left.dedup[(sender, clientId)] == rd.dedup[(sender, clientId)]
    ensures (sender, clientId) in Play(rd, attempt).1.dedup
    ensures Play(rd, attempt).1.dedup[(sender, clientId)] >= rd.dedup[(sender, clientId)]
  {
    if attempt.Rewrite? && Fits(attempt.resource, attempt.value) {
      ReplaceSparesMessages(rd, attempt.resource, attempt.legacy, attempt.value);
    }
  }

  /** While a dedup key stands until `expiry`, nothing with that key is accepted before it passes. */
  lemma {:induction false} AcceptedAfterExpiry(rd: Redis, attempts: seq<Attempt>, sender: int, clientId: string, expiry: int, j: nat)
    requires (sender, clientId) in rd.dedup && rd.dedup[(sender, clientId)] >= expiry
    requires KeepsKey(rd, attempts, sender, clientId)
    requires j < |attempts| && Uses(attempts[j], sender, clientId)
    requires Replies(rd, attempts)[j].verdict == Sent
    ensures attempts[j].now > expiry
    decreases j
  {
    if j > 0 {
      var next := Play(rd, attempts[0]).1;
      assert Replies(rd, attempts)[j] == Replies(next, attempts[1..])[j - 1];
      KeyStands(rd, attempts[0], sender, clientId);
      AcceptedAfterExpiry(next, attempts[1..], sender, clientId, expiry, j - 1);
    }
  }

  /** Two acceptances of one sender and client message id are more than 300 seconds apart, whatever mix of
      private checks, group checks, replacements, dropped markers, deleted runtimes and other losses happens
      around them, as long as no loss takes their dedup key. */
  lemma {:induction false} DedupWindow(rd: Redis, attempts: seq<Attempt>, sender: int, clientId: string, i: nat, j: nat)
    requires i < j < |attempts|
    requires KeepsKey(rd, attempts, sender, clientId)
    requires Uses(attempts[i], sender, clientId) && Uses(attempts[j], sender, clientId)
    requires Replies(rd, attempts)[i].verdict == Sent && Replies(rd, attempts)[j].verdict == Sent
    ensures attempts[j].now > attempts[i].now + 300000
    decreases i
  {
    var next := Play(rd, attempts[0]).1;
    assert Replies(rd, attempts)[j] == Replies(next, attempts[1..])[j - 1];
    if i == 0 {
      AcceptedAfterExpiry(next, attempts[1..], sender, clientId, attempts[0].now + 300000, j - 1);
    } else {
      assert Replies(rd, attempts)[i] == Replies(next, attempts[1..])[i - 1];
      DedupWindow(next, attempts[1..], sender, clientId, i - 1, j - 1);
    }
  }

  /** The condition is needed: once the key of an accepted message is lost, the same message is accepted again
      at once. */
  lemma LostKeyReopens(rd: Redis, sender: int, receiver: int, clientId: string, messageId: int, now: int)
    requires PrivateCheck(rd, sender, receiver, clientId, messageId, now).0.verdict == Sent
    ensures var after := PrivateCheck(rd, sender, receiver, clientId, messageId, now).1;
            var left := after.(dedup := after.dedup - {(sender, clientId)});
            && PrivateCheck(after, sender, receiver, clientId, messageId, now).0.verdict == Duplicate
            && PrivateCheck(left, sender, receiver, clientId, messageId, now).0.verdict == Sent
  {
  }

  /** The sequence numbers given to one group's accepted messages, in order. */
  function Numbers(rd: Redis, attempts: seq<Attempt>, group: int): seq<int>
    decreases |attempts|
  {
    if attempts == [] then []
    else
      var (reply, next) := Play(rd, attempts[0]);
      (if attempts[0].ToGroup? && attempts[0].group == group && reply.verdict == Sent then [reply.sequence] else [])
      + Numbers(next, attempts[1..], group)
  }

  /** The numbers from + 1, from + 2, ... without a gap. */
  predicate Consecutive(numbers: seq<int>, from: int) {
    forall k :: 0 <= k < |numbers| ==> numbers[k] == from + 1 + k
  }

  /** The history neither deletes the group's runtime nor loses its number. */
  predicate KeepsNumber(rd: Redis, attempts: seq<Attempt>, group: int)
    decreases |attempts|
  {
    attempts == [] ||
    (&& attempts[0] != Forget(group)
     && (attempts[0].Vanish? ==> Sequence(attempts[0].left, group) == Sequence(rd, group))
     && KeepsNumber(Play(rd, attempts[0]).1, attempts[1..], group))
  }

  lemma SequenceStep(rd: Redis, attempt: Attempt, group: int)
    requires attempt != Forget(group)
    requires attempt.Vanish? ==> Sequence(attempt.left, group) == Sequence(rd, group)
    ensures Sequence(Play(rd, attempt).1, group) ==
              Sequence(rd, group)
              + if attempt.ToGroup? && attempt.group == group && Play(rd, attempt).0.verdict == Sent then 1 else 0
  {
    assert attempt.Forget? ==> attempt.group != group;
    if attempt.Rewrite? && Fits(attempt.resource, attempt.value) {
      ReplaceSparesMessages(rd, attempt.resource, attempt.legacy, attempt.value);
    }
  }

  /** Until its runtime is deleted or its number lost, a group's accepted messages carry consecutive numbers,
      starting at 1 when the group has none yet, whatever is reconciled or invalidated in between. */
  lemma {:induction false} SequenceIsGapFree(rd: Redis, attempts: seq<Attempt>, group: int)
    requires KeepsNumber(rd, attempts, group)
    ensures Consecutive(Numbers(rd, attempts, group), if group in rd.groupSeq then rd.groupSeq[group] else 0)
    decreases |attempts|
  {
    if attempts != [] {
      SequenceStep(rd, attempts[0], group);
      SequenceIsGapFree(Play(rd, attempts[0]).1, attempts[1..], group);
    }
  }

  /** Deleting the runtime restarts the numbering at 1. */
  lemma ForgetRestarts(rd: Redis, attempts: seq<Attempt>, group: int)
    requires KeepsNumber(DeleteRuntime(rd, group), attempts, group)
    ensures Consecutive(Numbers(DeleteRuntime(rd, group), attempts, group), 0)
  {
    SequenceIsGapFree(DeleteRuntime(rd, group), attempts, group);
  }
}

/** The Redis repository in its own form: scripts that delete and write keys one at a time. */
module RedisScripts {
  import opened Common
  import opened Tables
  import opened RedisKeys
  import opened MessageChecks

  function SeqSet(ids: seq<int>): (s: set<int>)
    ensures forall x :: x in s <==> x in ids
  {
    set x | x in ids
  }

  /** The ids that survive sortedUniquePositive. */
  function Positive(ids: seq<int>): (s: set<int>)
    ensures forall x :: x in s <==> x in ids && x > 0
  {
    set x | x in ids && x > 0
  }

  predicate Ascending(ids: seq<int>) {
    forall i, j :: 0 <= i < j < |ids| ==> ids[i] < ids[j]
  }

  /** The smallest member of a nonempty set. */
  method Least(s: set<int>) returns (least: int)
    requires s != {}
    ensures least in s && forall x :: x in s ==> least <= x
  {
    NonEmpty(s);
    least :| least in s;
    var rest := s - {least};
    while rest != {}
      invariant least in s && rest <= s
      invariant forall x :: x in s && x !in rest ==> least <= x
      decreases rest
    {
      NonEmpty(rest);
      var x :| x in rest;
      if x < least { least := x; }
      rest := rest - {x};
    }
  }

  /** Drops duplicates and non-positive ids, and sorts what is left. */
  method SortedUniquePositive(ids: seq<int>) returns (result: seq<int>)
    ensures Ascending(result)
    ensures forall x :: x in result <==> x in ids && x > 0
  {
    var unique: set<int> := {};
    for i := 0 to |ids|
      invariant forall x :: x in unique <==> x in ids[..i] && x > 0
    {
      if ids[i] > 0 { unique := unique + {ids[i]}; }
    }
    assert ids[..|ids|] == ids;
    result := [];
    while unique != {}
      invariant Ascending(result)
      invariant forall x, y :: x in result && y in unique ==> x < y
      invariant forall x :: x in result || x in unique <==> x in ids && x > 0
      decreases unique
    {
      var least := Least(unique);
      assert forall i :: 0 <= i < |result| ==> result[i] in result;
      result := result + [least];
      unique := unique - {least};
    }
  }

  /** The roster that a list of member rows stands for: the first row of a user counts, and users must be positive. */
  function RosterOfRows(rows: seq<(int, Member)>): (roster: map<int, Info>)
    decreases |rows|
  {
    if rows == [] then map[]
    else
      var before, last := RosterOfRows(rows[..|rows| - 1]), rows[|rows| - 1];
      if last.0 <= 0 || last.0 in before then before else before[last.0 := Encode(last.1)]
  }

  lemma DesiredGrows(members: seq<(int, Member)>, i: nat, rows: seq<(int, Info)>)
    requires i < |members|
    requires PairMap(rows) == RosterOfRows(members[..i])
    ensures var (user, row) := members[i];
            if user > 0 && user !in PairMap(rows) then
              PairMap(rows + [(user, Encode(row))]) == RosterOfRows(members[..i + 1])
              && PairMap(rows + [(user, Encode(row))]).Keys == PairMap(rows).Keys + {user}
            else PairMap(rows) == RosterOfRows(members[..i + 1])
  {
    var (user, row) := members[i];
    var more, upTo := rows + [(user, Encode(row))], members[..i + 1];
    assert upTo[..i] == members[..i] && upTo[i] == members[i];
    assert RosterOfRows(upTo) ==
      if user <= 0 || user in PairMap(rows) then PairMap(rows) else PairMap(rows)[user := Encode(row)];
    assert more[..|rows|] == rows && more[|rows|] == (user, Encode(row));
    assert PairMap(more) == PairMap(rows)[user := Encode(row)];
  }

  /** The (user, info) arguments of the script: non-positive and repeated users are skipped. */
  method DesiredRows(members: seq<(int, Member)>) returns (rows: seq<(int, Info)>)
    ensures forall a, b :: 0 <= a < b < |rows| ==> rows[a].0 != rows[b].0
    ensures PairMap(rows) == RosterOfRows(members)
  {
    var seen: set<int> := {};
    rows := [];
    for i := 0 to |members|
      invariant forall a, b :: 0 <= a < b < |rows| ==> rows[a].0 != rows[b].0
      invariant PairMap(rows) == RosterOfRows(members[..i])
      invariant seen == PairMap(rows).Keys
      invariant forall a :: 0 <= a < |rows| ==> rows[a].0 in seen
    {
      DesiredGrows(members, i, rows);
      if members[i].0 > 0 && members[i].0 !in seen {
        seen := seen + {members[i].0};
        rows := rows + [(members[i].0, Encode(members[i].1))];
      }
    }
    assert members[..|members|] == members;
  }

  class RedisStore {
    var friendKeys: set<(int, int)>
    var friendLoaded: set<int>
    var friendIndex: set<(int, int)>
    var friendIndexLoaded: set<int>
    var blocked: set<(int, int)>
    var blacklistLoaded: set<int>
    var groupMembers: set<(int, int)>
    var memberInfo: map<(int, int), Info>
    var membersLoaded: map<int, int>
    var userGroups: set<(int, int)>
    var reverseIndex: set<(int, int)>
    var reverseIndexLoaded: set<int>
    var groupSeq: map<int, int>
    var outbox: set<(int, int)>
    var dedup: map<(int, string), int>
    var online: set<int>

    function Keys(): Redis
      reads this
    {
      Redis(friendKeys, friendLoaded, friendIndex, friendIndexLoaded, blocked, blacklistLoaded,
            groupMembers, memberInfo, membersLoaded, userGroups, reverseIndex, reverseIndexLoaded,
            groupSeq, outbox, dedup, online)
    }

    constructor ()
      ensures Keys() == FLUSHED
    {
      friendKeys, friendLoaded, friendIndex, friendIndexLoaded := {}, {}, {}, {};
      blocked, blacklistLoaded := {}, {};
      groupMembers, memberInfo, membersLoaded := {}, map[], map[];
      userGroups, reverseIndex, reverseIndexLoaded := {}, {}, {};
      groupSeq, outbox, dedup, online := map[], {}, map[], {};
    }

    /** DEL of friend:{owner}:{id} for a list of ids. */
    method DeleteFriendKeys(owner: int, ids: set<int>)
      modifies this`friendKeys
      ensures friendKeys == Remove(old(friendKeys), owner, ids)
    {
      var left := ids;
      while left != {}
        invariant left <= ids
        invariant friendKeys == Remove(old(friendKeys), owner, ids - left)
        decreases left
      {
        NonEmpty(left);
        var friend :| friend in left;
        friendKeys := friendKeys - {(owner, friend)};
        left := left - {friend};
      }
    }

    /** SET of each desired key and SADD of its id to the index. */
    method WriteFriendKeys(owner: int, desired: seq<int>)
      modifies this`friendKeys, this`friendIndex
      ensures friendKeys == old(friendKeys) + Filed(owner, SeqSet(desired))
      ensures friendIndex == old(friendIndex) + Filed(owner, SeqSet(desired))
    {
      for i := 0 to |desired|
        invariant friendKeys == old(friendKeys) + Filed(owner, SeqSet(desired[..i]))
        invariant friendIndex == old(friendIndex) + Filed(owner, SeqSet(desired[..i]))
      {
        friendKeys := friendKeys + {(owner, desired[i])};
        friendIndex := friendIndex + {(owner, desired[i])};
        assert Filed(owner, SeqSet(desired[..i + 1])) == Filed(owner, SeqSet(desired[..i])) + {(owner, desired[i])};
      }
      assert desired[..|desired|] == desired;
    }

    /** replaceFriendOwnerLua. */
    method RunReplaceFriendOwner(owner: int, legacy: seq<int>, desired: seq<int>) returns (deleted: int)
      modifies this
      ensures Keys() == ReplaceFriends(old(Keys()), owner, SeqSet(legacy), SeqSet(desired))
      ensures deleted == |Of(old(friendIndex), owner)| + |legacy|
    {
      var oldFriends := Of(friendIndex, owner);
      RemoveTwice(friendKeys, owner, oldFriends, SeqSet(legacy));
      DeleteFriendKeys(owner, oldFriends);
      DeleteFriendKeys(owner, SeqSet(legacy));
      friendIndex := Without(friendIndex, owner);
      WriteFriendKeys(owner, desired);
      friendLoaded := friendLoaded + {owner};
      friendIndexLoaded := friendIndexLoaded + {owner};
      deleted := |oldFriends| + |legacy|;
    }

    /** Removes a group from the reverse edges of some users. */
    method RemoveEdges(group: int, users: set<int>)
      modifies this`userGroups
      ensures userGroups == Remove(old(userGroups), group, users)
    {
      var left := users;
      while left != {}
        invariant left <= users
        invariant userGroups == Remove(old(userGroups), group, users - left)
        decreases left
      {
        NonEmpty(left);
        var user :| user in left;
        userGroups := userGroups - {(group, user)};
        left := left - {user};
      }
    }

    /** SREM of every old reverse edge, then DEL of the member Set, the info Hash and the index. */
    method ClearMembers(group: int, legacy: set<int>)
      modifies this`groupMembers, this`memberInfo, this`userGroups, this`reverseIndex
      ensures userGroups == Remove(old(userGroups), group, Of(old(groupMembers), group) + Of(old(reverseIndex), group) + legacy)
      ensures groupMembers == Without(old(groupMembers), group)
      ensures memberInfo == Drop(old(memberInfo), group)
      ensures reverseIndex == Without(old(reverseIndex), group)
    {
      var oldMembers, oldReverse := Of(groupMembers, group), Of(reverseIndex, group);
      RemoveTwice(userGroups, group, oldMembers, oldReverse);
      RemoveTwice(userGroups, group, oldMembers + oldReverse, legacy);
      RemoveEdges(group, oldMembers);
      RemoveEdges(group, oldReverse);
      RemoveEdges(group, legacy);
      groupMembers := Without(groupMembers, group);
      memberInfo := Drop(memberInfo, group);
      reverseIndex := Without(reverseIndex, group);
    }

    /** SADD, HSET, reverse SADD and index SADD of each desired pair, counting them. */
    method WriteMembers(group: int, rows: seq<(int, Info)>) returns (desiredCount: int)
      requires forall i, j :: 0 <= i < j < |rows| ==> rows[i].0 != rows[j].0
      modifies this`groupMembers, this`memberInfo, this`userGroups, this`reverseIndex
      ensures desiredCount == |PairMap(rows)|
      ensures Gains(old(groupMembers), groupMembers, group, PairMap(rows).Keys)
      ensures GainsRows(old(memberInfo), memberInfo, group, PairMap(rows))
      ensures Gains(old(userGroups), userGroups, group, PairMap(rows).Keys)
      ensures Gains(old(reverseIndex), reverseIndex, group, PairMap(rows).Keys)
    {
      desiredCount := 0;
      ghost var filled: map<int, Info> := map[];
      for i := 0 to |rows|
        invariant filled == PairMap(rows[..i]) && desiredCount == |filled|
        invariant Gains(old(groupMembers), groupMembers, group, filled.Keys)
        invariant GainsRows(old(memberInfo), memberInfo, group, filled)
        invariant Gains(old(userGroups), userGroups, group, filled.Keys)
        invariant Gains(old(reverseIndex), reverseIndex, group, filled.Keys)
      {
        var (user, info) := rows[i];
        PairMapGrows(rows, i);
        filled := filled[user := info];
        desiredCount := desiredCount + 1;
        groupMembers := groupMembers + {(group, user)};
        memberInfo := memberInfo[(group, user) := info];
        userGroups := userGroups + {(group, user)};
        reverseIndex := reverseIndex + {(group, user)};
      }
      assert rows[..|rows|] == rows;
    }

    /** replaceGroupMembersOwnerLua; `rows` are the (user, info) pairs that the caller already made unique. */
    method RunReplaceGroupMembers(group: int, legacy: seq<int>, rows: seq<(int, Info)>)
      requires forall i, j :: 0 <= i < j < |rows| ==> rows[i].0 != rows[j].0
      modifies this
      ensures Keys() == ReplaceMembers(old(Keys()), group, SeqSet(legacy), PairMap(rows))
    {
      ClearMembers(group, SeqSet(legacy));
      ghost var cleared := Keys();
      var desiredCount := WriteMembers(group, rows);
      membersLoaded := membersLoaded[group := desiredCount];
      reverseIndexLoaded := reverseIndexLoaded + {group};
      ReplaceAssembled(old(Keys()), cleared, Keys(), group, SeqSet(legacy), PairMap(rows));
    }

    /** ReplaceFriendOwner: a missing index marker makes it scan for legacy keys first. A key whose
        suffix is not a positive number stops it before anything is written. */
    method ReplaceFriendOwner(owner: int, friendIds: seq<int>) returns (ok: bool)
      modifies this
      ensures ok <==> owner in old(friendIndexLoaded) || forall f :: f in Of(old(friendKeys), owner) ==> f > 0
      ensures Keys() == if ok then Replace(old(Keys()), Friends(owner), Legacy(old(Keys()), Friends(owner)), Ids(Positive(friendIds)))
                        else old(Keys())
    {
      var legacy: seq<int> := [];
      if owner !in friendIndexLoaded {
        ok, legacy := ScanNumericSuffixes(owner);
        if !ok { return; }
      }
      var desired := SortedUniquePositive(friendIds);
      var deleted := RunReplaceFriendOwner(owner, legacy, desired);
      ok := true;
      assert SeqSet(legacy) == Legacy(old(Keys()), Friends(owner));
      assert SeqSet(desired) == Positive(friendIds);
    }

    method ScanNumericSuffixes(owner: int) returns (ok: bool, ids: seq<int>)
      ensures ok <==> forall f :: f in Of(friendKeys, owner) ==> f > 0
      ensures ok ==> SeqSet(ids) == Of(friendKeys, owner)
      ensures !ok ==> ids == []
    {
      var left := Of(friendKeys, owner);
      ids := [];
      while left != {}
        invariant left <= Of(friendKeys, owner)
        invariant forall f :: f in Of(friendKeys, owner) && f !in left ==> f > 0
        invariant forall f :: f in ids <==> f in Of(friendKeys, owner) && f !in left
        decreases left
      {
        NonEmpty(left);
        var f :| f in left;
        if f <= 0 { return false, []; }
        ids := ids + [f];
        left := left - {f};
      }
      SameSet(SeqSet(ids), Of(friendKeys, owner));
      return true, ids;
    }

    method ReplaceBlacklistOwner(owner: int, blockedIds: seq<int>)
      modifies this
      ensures Keys() == Replace(old(Keys()), Blacklist(owner), {}, Ids(Positive(blockedIds)))
    {
      blocked := Without(blocked, owner);
      var ids := SortedUniquePositive(blockedIds);
      if |ids| > 0 {
        blocked := blocked + Filed(owner, SeqSet(ids));
      }
      blacklistLoaded := blacklistLoaded + {owner};
      assert SeqSet(ids) == Positive(blockedIds);
    }

    /** ReplaceGroupMembersOwner: keeps the first row of each positive user, and scans for legacy reverse
        edges while the index marker is missing. */
    method ReplaceGroupMembersOwner(group: int, members: seq<(int, Member)>) returns (ok: bool)
      modifies this
      ensures ok <==> group in old(reverseIndexLoaded) || forall p :: p in old(userGroups) ==> p.1 > 0
      ensures Keys() == if ok then Replace(old(Keys()), Members(group), Legacy(old(Keys()), Members(group)), Roster(RosterOfRows(members)))
                        else old(Keys())
    {
      var legacy: seq<int> := [];
      if group !in reverseIndexLoaded {
        ok, legacy := ReadReverseGroupMembers(group);
        if !ok { return; }
      }
      var rows := DesiredRows(members);
      RunReplaceGroupMembers(group, legacy, rows);
      ok := true;
      assert SeqSet(legacy) == Legacy(old(Keys()), Members(group));
    }

    /** The compatibility scan walks every user_groups key of the database. */
    method ReadReverseGroupMembers(group: int) returns (ok: bool, users: seq<int>)
      ensures ok <==> forall p :: p in userGroups ==> p.1 > 0
      ensures ok ==> SeqSet(users) == Of(userGroups, group)
      ensures !ok ==> users == []
    {
      var left := userGroups;
      users := [];
      while left != {}
        invariant left <= userGroups
        invariant forall p :: p in userGroups && p !in left ==> p.1 > 0
        invariant forall u :: u in users <==> (group, u) in userGroups && (group, u) !in left
        decreases left
      {
        var p :| p in left;
        if p.1 <= 0 { return false, []; }
        if p.0 == group {
          users := users + [p.1];
        }
        left := left - {p};
      }
      SameSet(SeqSet(users), Of(userGroups, group));
      return true, users;
    }

    method DeleteDisbandedGroupRuntime(group: int)
      modifies this
      ensures Keys() == DeleteRuntime(old(Keys()), group)
    {
      outbox := Without(outbox, group);
      groupSeq := groupSeq - {group};
    }

    method InvalidateProjectionMarkers(resource: Resource)
      modifies this
      ensures Keys() == Invalidate(old(Keys()), resource)
    {
      match resource {
        case Friends(o) =>
          friendLoaded := friendLoaded - {o};
          friendIndexLoaded := friendIndexLoaded - {o};
        case Blacklist(o) =>
          blacklistLoaded := blacklistLoaded - {o};
        case Members(g) =>
          membersLoaded := membersLoaded - {g};
          reverseIndexLoaded := reverseIndexLoaded - {g};
      }
    }

    /** private_msg_check.lua. */
    method PrivateMsgCheck(sender: int, receiver: int, clientId: string, messageId: int, now: int) returns (reply: Reply)
      modifies this
      ensures (reply, Keys()) == PrivateCheck(old(Keys()), sender, receiver, clientId, messageId, now)
    {
      if messageId < 1 || messageId > MAX_MESSAGE_ID { return Refusal(InvalidId); }
      var friend1, friend2 := (sender, receiver) in friendKeys, (receiver, sender) in friendKeys;
      if !friend1 || !friend2 { return Refusal(NotFriend); }
      var blockedByReceiver, blockedBySender := (receiver, sender) in blocked, (sender, receiver) in blocked;
      if blockedByReceiver || blockedBySender { return Refusal(Blocked); }
      if (sender, clientId) in dedup && now <= dedup[(sender, clientId)] { return Refusal(Duplicate); }
      dedup := dedup[(sender, clientId) := now + DEDUP_MS];
      return Reply(Sent, messageId, 0, now, receiver in online);
    }

    /** group_msg_check.lua. */
    method GroupMsgCheck(group: int, sender: int, clientId: string, messageId: int, now: int) returns (reply: Reply)
      modifies this
      ensures (reply, Keys()) == GroupCheck(old(Keys()), group, sender, clientId, messageId, now)
    {
      if messageId < 1 || messageId > MAX_MESSAGE_ID { return Refusal(InvalidId); }
      if (group, sender) !in groupMembers { return Refusal(NotMember); }
      if (group, sender) !in memberInfo { return Refusal(NotMember); }
      if memberInfo[(group, sender)].mutedUntil > now { return Refusal(Muted); }
      if (sender, clientId) in dedup && now <= dedup[(sender, clientId)] { return Refusal(Duplicate); }
      dedup := dedup[(sender, clientId) := now + DEDUP_MS];
      var sequence := (if group in groupSeq then groupSeq[group] else 0) + 1;
      groupSeq := groupSeq[group := sequence];
      return Reply(Sent, messageId, sequence, now, false);
    }
  }

  /** The Hash that a list of (user, info) pairs fills. */
  function PairMap(rows: seq<(int, Info)>): (filled: map<int, Info>)
    decreases |rows|
  {
    if rows == [] then map[] else PairMap(rows[..|rows| - 1])[rows[|rows| - 1].0 := rows[|rows| - 1].1]
  }

  lemma {:induction false} PairMapKeys(rows: seq<(int, Info)>, user: int)
    ensures user in PairMap(rows) <==> exists i :: 0 <= i < |rows| && rows[i].0 == user
    decreases |rows|
  {
    if rows != [] {
      PairMapKeys(rows[..|rows| - 1], user);
      if rows[|rows| - 1].0 == user {
        assert rows[|rows| - 1].0 == user;
      } else {
        assert forall i :: 0 <= i < |rows| && rows[i].0 == user ==> rows[..|rows| - 1][i].0 == user;
        assert forall i :: 0 <= i < |rows| - 1 ==> rows[..|rows| - 1][i] == rows[i];
      }
    }
  }

  lemma PairMapGrows(rows: seq<(int, Info)>, i: nat)
    requires i < |rows|
    requires forall a, b :: 0 <= a < b < |rows| ==> rows[a].0 != rows[b].0
    ensures rows[i].0 !in PairMap(rows[..i])
    ensures PairMap(rows[..i + 1]) == PairMap(rows[..i])[rows[i].0 := rows[i].1]
    ensures |PairMap(rows[..i + 1])| == |PairMap(rows[..i])| + 1
  {
    assert rows[..i + 1][..i] == rows[..i];
    PairMapKeys(rows[..i], rows[i].0);
  }

  lemma RemoveTwice(pairs: set<(int, int)>, owner: int, first: set<int>, second: set<int>)
    ensures Remove(Remove(pairs, owner, first), owner, second) == Remove(pairs, owner, first + second)
  {
  }

  /** `after` is `base` plus every user of `filled` filed under the group. */
  ghost predicate Gains(base: set<(int, int)>, after: set<(int, int)>, group: int, filled: set<int>) {
    forall p :: p in after <==> p in base || (p.0 == group && p.1 in filled)
  }

  ghost predicate GainsRows(base: map<(int, int), Info>, after: map<(int, int), Info>, group: int, filled: map<int, Info>) {
    && (forall k :: k in after <==> k in base || (k.0 == group && k.1 in filled))
    && (forall k :: k in after ==> after[k] == if k.0 == group && k.1 in filled then filled[k.1] else base[k])
  }

  lemma GainsIsFiled(base: set<(int, int)>, after: set<(int, int)>, group: int, filled: set<int>)
    requires Gains(base, after, group, filled)
    ensures after == base + Filed(group, filled)
  {
    forall p
      ensures p in after <==> p in base + Filed(group, filled)
    {
      assert p == (p.0, p.1);
    }
  }

  lemma GainsRowsIsFiled(base: map<(int, int), Info>, after: map<(int, int), Info>, group: int, filled: map<int, Info>)
    requires GainsRows(base, after, group, filled)
    ensures after == base + FiledRows(group, filled)
  {
    var sum := base + FiledRows(group, filled);
    assert forall k :: k in after <==> k in sum;
    assert forall k :: k in after ==> after[k] == sum[k];
  }

  /** Clearing and refilling the group's keys, put together, is the whole replacement. */
  lemma ReplaceAssembled(rd: Redis, cleared: Redis, after: Redis, group: int, legacy: set<int>, roster: map<int, Info>)
    requires cleared.userGroups ==
               Remove(rd.userGroups, group, Of(rd.groupMembers, group) + Of(rd.reverseIndex, group) + legacy)
    requires cleared.groupMembers == Without(rd.groupMembers, group)
    requires cleared.memberInfo == Drop(rd.memberInfo, group)
    requires cleared.reverseIndex == Without(rd.reverseIndex, group)
    requires Gains(cleared.userGroups, after.userGroups, group, roster.Keys)
    requires Gains(cleared.groupMembers, after.groupMembers, group, roster.Keys)
    requires GainsRows(cleared.memberInfo, after.memberInfo, group, roster)
    requires Gains(cleared.reverseIndex, after.reverseIndex, group, roster.Keys)
    requires after == rd.(userGroups := after.userGroups, groupMembers := after.groupMembers,
                          memberInfo := after.memberInfo, reverseIndex := after.reverseIndex,
                          membersLoaded := rd.membersLoaded[group := |roster|],
                          reverseIndexLoaded := rd.reverseIndexLoaded + {group})
    ensures after == ReplaceMembers(rd, group, legacy, roster)
  {
    GainsIsFiled(cleared.userGroups, after.userGroups, group, roster.Keys);
    GainsIsFiled(cleared.groupMembers, after.groupMembers, group, roster.Keys);
    GainsRowsIsFiled(cleared.memberInfo, after.memberInfo, group, roster);
    GainsIsFiled(cleared.reverseIndex, after.reverseIndex, group, roster.Keys);
  }
}

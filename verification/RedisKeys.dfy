/** The Redis keys that cache relationships, what the replacement scripts do to
    them, and how they are read back. */
module RedisKeys {
  import opened Common
  import opened Tables

  /** Key families as flat relations: a Set or a family of keys named by an owner
      is the set of its (owner, member) pairs, so an empty key is an absent key. */
  datatype Redis = Redis(
    friendKeys: set<(int, int)>,        // friend:{owner}:{friend}
    friendLoaded: set<int>,             // friend_loaded:{owner}
    friendIndex: set<(int, int)>,       // friend_owner_index:{owner}
    friendIndexLoaded: set<int>,        // friend_owner_index_loaded:{owner}
    blocked: set<(int, int)>,           // blacklist:{owner}
    blacklistLoaded: set<int>,          // blacklist_loaded:{owner}
    groupMembers: set<(int, int)>,      // group_members:{group}
    memberInfo: map<(int, int), Info>,  // group_member_info:{group}
    membersLoaded: map<int, int>,       // group_member_loaded:{group}
    userGroups: set<(int, int)>,        // (group, user): user_groups:{user} holds group
    reverseIndex: set<(int, int)>,      // group_reverse_owner_index:{group}
    reverseIndexLoaded: set<int>,       // group_reverse_owner_index_loaded:{group}
    groupSeq: map<int, int>,            // group_seq:{group}
    outbox: set<(int, int)>,            // outbox:{group}
    dedup: map<(int, string), int>,     // msg_dedup:{sender}:{clientMsgID}, with its expiry time
    online: set<int>)                   // online:{user}

  const FLUSHED := Redis({}, {}, {}, {}, {}, {}, {}, map[], map[], {}, {}, {}, map[], {}, map[], {})

  // ---- replacement ----

  /** The pairs of `pairs` left after deleting `removed` from under one owner. */
  function Remove(pairs: set<(int, int)>, owner: int, removed: set<int>): (rest: set<(int, int)>)
    ensures forall p :: p in rest <==> p in pairs && !(p.0 == owner && p.1 in removed)
  {
    set p | p in pairs && !(p.0 == owner && p.1 in removed)
  }

  function FiledRows<V>(owner: int, rows: map<int, V>): (table: map<(int, int), V>)
    ensures forall k :: k in table <==> k.0 == owner && k.1 in rows
    ensures forall k :: k in table ==> table[k] == rows[k.1]
  {
    map k | k in Filed(owner, rows.Keys) :: rows[k.1]
  }

  /** replaceFriendOwnerLua: deletes the indexed and the legacy keys, then writes the desired ones. */
  function ReplaceFriends(rd: Redis, owner: int, legacy: set<int>, desired: set<int>): Redis {
    rd.(friendKeys := Remove(rd.friendKeys, owner, Of(rd.friendIndex, owner) + legacy) + Filed(owner, desired),
        friendIndex := Without(rd.friendIndex, owner) + Filed(owner, desired),
        friendLoaded := rd.friendLoaded + {owner},
        friendIndexLoaded := rd.friendIndexLoaded + {owner})
  }

  function ReplaceBlacklist(rd: Redis, owner: int, desired: set<int>): Redis {
    rd.(blocked := Without(rd.blocked, owner) + Filed(owner, desired),
        blacklistLoaded := rd.blacklistLoaded + {owner})
  }

  /** replaceGroupMembersOwnerLua: forward Set, info Hash, reverse edges, index and both markers. */
  function ReplaceMembers(rd: Redis, group: int, legacy: set<int>, desired: map<int, Info>): Redis {
    var removed := Of(rd.groupMembers, group) + Of(rd.reverseIndex, group) + legacy;
    rd.(userGroups := Remove(rd.userGroups, group, removed) + Filed(group, desired.Keys),
        groupMembers := Without(rd.groupMembers, group) + Filed(group, desired.Keys),
        memberInfo := Drop(rd.memberInfo, group) + FiledRows(group, desired),
        reverseIndex := Without(rd.reverseIndex, group) + Filed(group, desired.Keys),
        membersLoaded := rd.membersLoaded[group := |desired|],
        reverseIndexLoaded := rd.reverseIndexLoaded + {group})
  }

  function DeleteRuntime(rd: Redis, group: int): Redis {
    rd.(outbox := Without(rd.outbox, group), groupSeq := rd.groupSeq - {group})
  }

  /** InvalidateProjectionMarkers. */
  function Invalidate(rd: Redis, resource: Resource): Redis {
    match resource
    case Friends(o) => rd.(friendLoaded := rd.friendLoaded - {o}, friendIndexLoaded := rd.friendIndexLoaded - {o})
    case Blacklist(o) => rd.(blacklistLoaded := rd.blacklistLoaded - {o})
    case Members(g) => rd.(membersLoaded := rd.membersLoaded - {g}, reverseIndexLoaded := rd.reverseIndexLoaded - {g})
  }

  /** What the compatibility SCAN finds for an owner: every key, whatever the index says. */
  function FullScan(rd: Redis, resource: Resource): set<int> {
    match resource
    case Friends(o) => Of(rd.friendKeys, o)
    case Blacklist(_) => {}
    case Members(g) => Of(rd.userGroups, g)
  }

  predicate IndexMarked(rd: Redis, resource: Resource) {
    match resource
    case Friends(o) => o in rd.friendIndexLoaded
    case Blacklist(_) => true
    case Members(g) => g in rd.reverseIndexLoaded
  }

  /** The legacy ids handed to the script: scanned only while the index marker is missing. */
  function Legacy(rd: Redis, resource: Resource): set<int> {
    if IndexMarked(rd, resource) then {} else FullScan(rd, resource)
  }

  predicate Fits(resource: Resource, value: Projection) {
    value.Roster? == resource.Members?
  }

  /** The replacement script of a resource. */
  function Replace(rd: Redis, resource: Resource, legacy: set<int>, value: Projection): Redis
    requires Fits(resource, value)
  {
    match resource
    case Friends(o) => ReplaceFriends(rd, o, legacy, value.ids)
    case Blacklist(o) => ReplaceBlacklist(rd, o, value.ids)
    case Members(g) => ReplaceMembers(rd, g, legacy, value.roster)
  }

  // ---- reading back ----

  /** groupMembersLoadedLua: the marker's number must match both cardinalities. */
  predicate MembersLoaded(rd: Redis, group: int) {
    && group in rd.membersLoaded
    && |Of(rd.groupMembers, group)| == rd.membersLoaded[group]
    && |Of(rd.memberInfo.Keys, group)| == rd.membersLoaded[group]
  }

  predicate IsLoaded(rd: Redis, resource: Resource) {
    match resource
    case Friends(o) => o in rd.friendLoaded
    case Blacklist(o) => o in rd.blacklistLoaded
    case Members(g) => MembersLoaded(rd, g)
  }

  /** The cached content that the authorisation scripts would read. */
  function Content(rd: Redis, resource: Resource): (value: Projection)
    ensures Fits(resource, value)
  {
    match resource
    case Friends(o) => Ids(Of(rd.friendKeys, o))
    case Blacklist(o) => Ids(Of(rd.blocked, o))
    case Members(g) => Roster(RowsOf(rd.memberInfo, g))
  }

  /** The cache shows exactly `value`; a group's member Set and info Hash must name the same users. */
  ghost predicate Shows(rd: Redis, resource: Resource, value: Projection) {
    && Content(rd, resource) == value
    && (resource.Members? ==> Of(rd.groupMembers, resource.group) == Of(rd.memberInfo.Keys, resource.group))
  }

  // ---- the owner index ----

  /** The keys one resource owns: forward keys for users, reverse edges for groups. */
  function OwnedKeys(rd: Redis, resource: Resource): set<int> {
    match resource
    case Friends(o) => Of(rd.friendKeys, o)
    case Blacklist(o) => Of(rd.blocked, o)
    case Members(g) => Of(rd.userGroups, g)
  }

  /** The keys its index names; a blacklist is a single Set and indexes itself. */
  function IndexedKeys(rd: Redis, resource: Resource): set<int> {
    match resource
    case Friends(o) => Of(rd.friendIndex, o)
    case Blacklist(o) => Of(rd.blocked, o)
    case Members(g) => Of(rd.reverseIndex, g)
  }

  /** Every key the resource owns is in its index or in `legacy`. */
  predicate CoveredBy(rd: Redis, resource: Resource, legacy: set<int>) {
    OwnedKeys(rd, resource) <= IndexedKeys(rd, resource) + legacy
  }

  /** Wherever an index marker stands, the index misses no key. */
  ghost predicate IndexesCover(rd: Redis) {
    forall r: Resource :: IndexMarked(rd, r) ==> CoveredBy(rd, r, {})
  }

  lemma LegacyCovers(rd: Redis, resource: Resource)
    requires IndexesCover(rd)
    ensures CoveredBy(rd, resource, Legacy(rd, resource))
  {
  }

  function ValueKeys(value: Projection): set<int> {
    match value case Ids(ids) => ids case Roster(roster) => roster.Keys
  }

  /** Deleting some of an owner's pairs and filing new ones, seen from any owner. */
  lemma RewrittenPairs(pairs: set<(int, int)>, owner: int, removed: set<int>, desired: set<int>, viewer: int)
    ensures var after := Remove(pairs, owner, removed) + Filed(owner, desired);
            Of(after, viewer) == if viewer == owner then Of(pairs, owner) - removed + desired else Of(pairs, viewer)
  {
    var after := Of(Remove(pairs, owner, removed) + Filed(owner, desired), viewer);
    var expected := if viewer == owner then Of(pairs, owner) - removed + desired else Of(pairs, viewer);
    assert forall x :: x in after <==> x in expected;
  }

  /** Replacing an owner's whole Set, seen from any owner. */
  lemma ReplacedPairs(pairs: set<(int, int)>, owner: int, desired: set<int>, viewer: int)
    ensures var after := Without(pairs, owner) + Filed(owner, desired);
            Of(after, viewer) == if viewer == owner then desired else Of(pairs, viewer)
  {
    var after := Of(Without(pairs, owner) + Filed(owner, desired), viewer);
    var expected := if viewer == owner then desired else Of(pairs, viewer);
    assert forall x :: x in after <==> x in expected;
  }

  /** Replacing an owner's whole Hash, seen from any owner. */
  lemma ReplacedRows(table: map<(int, int), Info>, owner: int, desired: map<int, Info>, viewer: int)
    ensures var after := Drop(table, owner) + FiledRows(owner, desired);
            && RowsOf(after, viewer) == (if viewer == owner then desired else RowsOf(table, viewer))
            && Of(after.Keys, viewer) == if viewer == owner then desired.Keys else Of(table.Keys, viewer)
  {
    var after := Drop(table, owner) + FiledRows(owner, desired);
    var rows := RowsOf(after, viewer);
    var expected := if viewer == owner then desired else RowsOf(table, viewer);
    SameMap(rows, expected);
    SameSet(rows.Keys, Of(after.Keys, viewer));
    SameSet(expected.Keys, if viewer == owner then desired.Keys else Of(table.Keys, viewer));
  }

  ghost predicate Installed(after: Redis, resource: Resource, value: Projection) {
    && Shows(after, resource, value)
    && IsLoaded(after, resource) && IndexMarked(after, resource)
    && OwnedKeys(after, resource) == ValueKeys(value)
    && IndexedKeys(after, resource) == ValueKeys(value)
  }

  // The group script writes five keys; each is followed on its own, seen from any group `v`.

  lemma MembersEdges(rd: Redis, g: int, legacy: set<int>, roster: map<int, Info>, v: int)
    ensures Of(ReplaceMembers(rd, g, legacy, roster).userGroups, v) ==
              if v == g then Of(rd.userGroups, g) - (Of(rd.groupMembers, g) + Of(rd.reverseIndex, g) + legacy) + roster.Keys
              else Of(rd.userGroups, v)
  {
    RewrittenPairs(rd.userGroups, g, Of(rd.groupMembers, g) + Of(rd.reverseIndex, g) + legacy, roster.Keys, v);
  }

  lemma MembersIndex(rd: Redis, g: int, legacy: set<int>, roster: map<int, Info>, v: int)
    ensures Of(ReplaceMembers(rd, g, legacy, roster).reverseIndex, v) ==
              if v == g then roster.Keys else Of(rd.reverseIndex, v)
  {
    ReplacedPairs(rd.reverseIndex, g, roster.Keys, v);
  }

  lemma MembersSet(rd: Redis, g: int, legacy: set<int>, roster: map<int, Info>, v: int)
    ensures Of(ReplaceMembers(rd, g, legacy, roster).groupMembers, v) ==
              if v == g then roster.Keys else Of(rd.groupMembers, v)
  {
    ReplacedPairs(rd.groupMembers, g, roster.Keys, v);
  }

  lemma MembersHash(rd: Redis, g: int, legacy: set<int>, roster: map<int, Info>, v: int)
    ensures var after := ReplaceMembers(rd, g, legacy, roster);
            && RowsOf(after.memberInfo, v) == (if v == g then roster else RowsOf(rd.memberInfo, v))
            && Of(after.memberInfo.Keys, v) == if v == g then roster.Keys else Of(rd.memberInfo.Keys, v)
  {
    ReplacedRows(rd.memberInfo, g, roster, v);
  }

  /** The keys that a resource's script deletes without being handed any legacy id. */
  function SweptKeys(rd: Redis, resource: Resource): set<int> {
    match resource
    case Friends(o) => Of(rd.friendIndex, o)
    case Blacklist(o) => Of(rd.blocked, o)
    case Members(g) => Of(rd.groupMembers, g) + Of(rd.reverseIndex, g)
  }

  /** Exactly when a replacement leaves the desired keys and no others: each old key must be swept by the
      script, passed as legacy, or wanted anyway. */
  lemma ReplaceIsExactIff(rd: Redis, resource: Resource, legacy: set<int>, value: Projection)
    requires Fits(resource, value)
    ensures OwnedKeys(Replace(rd, resource, legacy, value), resource) == ValueKeys(value)
       <==> OwnedKeys(rd, resource) <= SweptKeys(rd, resource) + legacy + ValueKeys(value)
  {
    match resource
    case Friends(o) =>
      RewrittenPairs(rd.friendKeys, o, SweptKeys(rd, resource) + legacy, value.ids, o);
      KeptOnlyIfWanted(Of(rd.friendKeys, o), SweptKeys(rd, resource) + legacy, value.ids);
    case Blacklist(o) => ReplacedPairs(rd.blocked, o, value.ids, o);
    case Members(g) =>
      MembersEdges(rd, g, legacy, value.roster, g);
      KeptOnlyIfWanted(Of(rd.userGroups, g), SweptKeys(rd, resource) + legacy, value.roster.Keys);
  }

  lemma KeptOnlyIfWanted(before: set<int>, removed: set<int>, wanted: set<int>)
    ensures before - removed + wanted == wanted <==> before <= removed + wanted
  {
    if before <= removed + wanted {
      SameSet(before - removed + wanted, wanted);
    }
    if before - removed + wanted == wanted {
      NonEmpty(before - (removed + wanted));
    }
  }

  lemma InstalledParts(after: Redis, g: int, roster: map<int, Info>)
    requires Of(after.userGroups, g) == roster.Keys && Of(after.reverseIndex, g) == roster.Keys
    requires Of(after.groupMembers, g) == roster.Keys && Of(after.memberInfo.Keys, g) == roster.Keys
    requires RowsOf(after.memberInfo, g) == roster
    requires g in after.membersLoaded && after.membersLoaded[g] == |roster| && g in after.reverseIndexLoaded
    ensures Installed(after, Members(g), Roster(roster))
  {
    assert |roster.Keys| == |roster|;
  }

  lemma MembersInstalled(rd: Redis, g: int, legacy: set<int>, roster: map<int, Info>)
    requires CoveredBy(rd, Members(g), legacy)
    ensures Installed(ReplaceMembers(rd, g, legacy, roster), Members(g), Roster(roster))
  {
    MembersEdges(rd, g, legacy, roster, g);
    MembersIndex(rd, g, legacy, roster, g);
    MembersSet(rd, g, legacy, roster, g);
    MembersHash(rd, g, legacy, roster, g);
    InstalledParts(ReplaceMembers(rd, g, legacy, roster), g, roster);
  }

  /** What the authorisation scripts see after a replacement, for groups whatever the index knew. */
  lemma ReplaceShows(rd: Redis, resource: Resource, legacy: set<int>, value: Projection)
    requires Fits(resource, value)
    requires resource.Members? || CoveredBy(rd, resource, legacy)
    ensures var after := Replace(rd, resource, legacy, value);
            && Shows(after, resource, value) && IsLoaded(after, resource)
            && (resource.Members? ==>
                  resource.group in after.membersLoaded && after.membersLoaded[resource.group] == |value.roster|)
  {
    if resource.Members? {
      MembersSet(rd, resource.group, legacy, value.roster, resource.group);
      MembersHash(rd, resource.group, legacy, value.roster, resource.group);
      ShownParts(ReplaceMembers(rd, resource.group, legacy, value.roster), resource.group, value.roster);
    } else {
      ReplaceInstalls(rd, resource, legacy, value);
    }
  }

  lemma ShownParts(after: Redis, g: int, roster: map<int, Info>)
    requires Of(after.groupMembers, g) == roster.Keys && Of(after.memberInfo.Keys, g) == roster.Keys
    requires RowsOf(after.memberInfo, g) == roster
    requires g in after.membersLoaded && after.membersLoaded[g] == |roster|
    ensures Shows(after, Members(g), Roster(roster)) && IsLoaded(after, Members(g))
  {
    assert |roster.Keys| == |roster|;
  }

  // ---- a replacement, key by key ----

  /** Friends: the owner's indexed and legacy keys go, the wanted ones come, index and markers follow. */
  lemma FriendsKeyByKey(rd: Redis, owner: int, legacy: set<int>, ids: set<int>, p: (int, int))
    ensures var after := Replace(rd, Friends(owner), legacy, Ids(ids));
            && (p in after.friendKeys <==>
                  if p.0 == owner then p.1 in ids || (p in rd.friendKeys && p !in rd.friendIndex && p.1 !in legacy)
                  else p in rd.friendKeys)
            && (p in after.friendIndex <==> if p.0 == owner then p.1 in ids else p in rd.friendIndex)
            && after.friendLoaded == rd.friendLoaded + {owner}
            && after.friendIndexLoaded == rd.friendIndexLoaded + {owner}
            && after == rd.(friendKeys := after.friendKeys, friendIndex := after.friendIndex,
                            friendLoaded := after.friendLoaded, friendIndexLoaded := after.friendIndexLoaded)
  {
  }

  /** Blacklist: the one Set is replaced as a whole. */
  lemma BlacklistKeyByKey(rd: Redis, owner: int, legacy: set<int>, ids: set<int>, p: (int, int))
    ensures var after := Replace(rd, Blacklist(owner), legacy, Ids(ids));
            && (p in after.blocked <==> if p.0 == owner then p.1 in ids else p in rd.blocked)
            && after.blacklistLoaded == rd.blacklistLoaded + {owner}
            && after == rd.(blocked := after.blocked, blacklistLoaded := after.blacklistLoaded)
  {
  }

  /** Members: Set, Hash and index are the wanted ones; of the old reverse edges those go that the Set, the index
      or the scan knew; the marker holds the number of members. */
  lemma MembersKeyByKey(rd: Redis, group: int, legacy: set<int>, roster: map<int, Info>, p: (int, int))
    ensures var after := Replace(rd, Members(group), legacy, Roster(roster));
            && (p in after.groupMembers <==> if p.0 == group then p.1 in roster else p in rd.groupMembers)
            && (p in after.memberInfo <==> if p.0 == group then p.1 in roster else p in rd.memberInfo)
            && (p in after.memberInfo ==> after.memberInfo[p] == if p.0 == group then roster[p.1] else rd.memberInfo[p])
            && (p in after.userGroups <==>
                  if p.0 == group then
                    p.1 in roster || (p in rd.userGroups && p !in rd.groupMembers && p !in rd.reverseIndex && p.1 !in legacy)
                  else p in rd.userGroups)
            && (p in after.reverseIndex <==> if p.0 == group then p.1 in roster else p in rd.reverseIndex)
            && after.membersLoaded == rd.membersLoaded[group := |roster|]
            && after.reverseIndexLoaded == rd.reverseIndexLoaded + {group}
            && after == rd.(groupMembers := after.groupMembers, memberInfo := after.memberInfo, userGroups := after.userGroups,
                            reverseIndex := after.reverseIndex, membersLoaded := after.membersLoaded,
                            reverseIndexLoaded := after.reverseIndexLoaded)
  {
  }

  /** A covered replacement installs the value: the resource is loaded and shows exactly it, its index is marked,
      and its keys and its index are exactly the value's keys. */
  lemma ReplaceInstalls(rd: Redis, resource: Resource, legacy: set<int>, value: Projection)
    requires Fits(resource, value) && CoveredBy(rd, resource, legacy)
    ensures Installed(Replace(rd, resource, legacy, value), resource, value)
  {
    match resource
    case Friends(o) =>
      RewrittenPairs(rd.friendKeys, o, Of(rd.friendIndex, o) + legacy, value.ids, o);
      ReplacedPairs(rd.friendIndex, o, value.ids, o);
    case Blacklist(o) => ReplacedPairs(rd.blocked, o, value.ids, o);
    case Members(g) => MembersInstalled(rd, g, legacy, value.roster);
  }

  /** Nothing another resource owns has changed. */
  ghost predicate SameFor(rd: Redis, after: Redis, other: Resource) {
    && Content(after, other) == Content(rd, other)
    && IsLoaded(after, other) == IsLoaded(rd, other)
    && OwnedKeys(after, other) == OwnedKeys(rd, other)
    && IndexedKeys(after, other) == IndexedKeys(rd, other)
    && IndexMarked(after, other) == IndexMarked(rd, other)
    && (other.Members? ==> SameRosterKeys(rd, after, other.group))
  }

  ghost predicate SameRosterKeys(rd: Redis, after: Redis, group: int) {
    && Of(after.groupMembers, group) == Of(rd.groupMembers, group)
    && Of(after.memberInfo.Keys, group) == Of(rd.memberInfo.Keys, group)
    && (group in rd.membersLoaded <==> group in after.membersLoaded)
    && (group in rd.membersLoaded && group in after.membersLoaded ==>
          after.membersLoaded[group] == rd.membersLoaded[group])
  }

  lemma SameParts(rd: Redis, after: Redis, g: int)
    requires SameRosterKeys(rd, after, g)
    requires Of(after.userGroups, g) == Of(rd.userGroups, g) && Of(after.reverseIndex, g) == Of(rd.reverseIndex, g)
    requires RowsOf(after.memberInfo, g) == RowsOf(rd.memberInfo, g)
    requires g in rd.reverseIndexLoaded <==> g in after.reverseIndexLoaded
    ensures SameFor(rd, after, Members(g))
  {
  }

  lemma MembersFrame(rd: Redis, g: int, legacy: set<int>, roster: map<int, Info>, other: int)
    requires other != g
    ensures SameFor(rd, ReplaceMembers(rd, g, legacy, roster), Members(other))
  {
    MembersEdges(rd, g, legacy, roster, other);
    MembersIndex(rd, g, legacy, roster, other);
    MembersSet(rd, g, legacy, roster, other);
    MembersHash(rd, g, legacy, roster, other);
    SameParts(rd, ReplaceMembers(rd, g, legacy, roster), other);
  }

  lemma FriendsFrame(rd: Redis, o: int, legacy: set<int>, ids: set<int>, other: int)
    requires other != o
    ensures SameFor(rd, ReplaceFriends(rd, o, legacy, ids), Friends(other))
  {
    RewrittenPairs(rd.friendKeys, o, Of(rd.friendIndex, o) + legacy, ids, other);
    ReplacedPairs(rd.friendIndex, o, ids, other);
  }

  /** A replacement never touches what another resource shows, its loaded state, keys or index. */
  lemma ReplaceFrame(rd: Redis, resource: Resource, legacy: set<int>, value: Projection, other: Resource)
    requires Fits(resource, value) && other != resource
    ensures SameFor(rd, Replace(rd, resource, legacy, value), other)
  {
    match resource {
      case Friends(o) =>
        if other.Friends? { FriendsFrame(rd, o, legacy, value.ids, other.owner); }
      case Blacklist(o) =>
        if other.Blacklist? { ReplacedPairs(rd.blocked, o, value.ids, other.owner); }
      case Members(g) =>
        if other.Members? { MembersFrame(rd, g, legacy, value.roster, other.group); }
    }
  }

  lemma InvalidateFrame(rd: Redis, resource: Resource, other: Resource)
    requires other != resource
    ensures SameFor(rd, Invalidate(rd, resource), other)
  {
  }

  lemma InvalidateCovers(rd: Redis, resource: Resource)
    ensures var after := Invalidate(rd, resource); CoveredBy(after, resource, Legacy(after, resource))
    ensures Content(Invalidate(rd, resource), resource) == Content(rd, resource)
    ensures OwnedKeys(Invalidate(rd, resource), resource) == OwnedKeys(rd, resource)
    ensures !IsLoaded(Invalidate(rd, resource), resource)
  {
  }

  /** Dropping the markers leaves all content alone but makes the next replacement scan, and so be exact for
      any wanted value from any content; no other resource notices. */
  lemma InvalidationForcesFullScan(rd: Redis, resource: Resource, value: Projection)
    requires Fits(resource, value)
    ensures var after := Invalidate(rd, resource);
            && !IsLoaded(after, resource) && (!resource.Blacklist? ==> !IndexMarked(after, resource))
            && Content(after, resource) == Content(rd, resource) && OwnedKeys(after, resource) == OwnedKeys(rd, resource)
            && Installed(Replace(after, resource, Legacy(after, resource), value), resource, value)
            && (forall other: Resource :: other != resource ==> SameFor(rd, after, other))
  {
    var after := Invalidate(rd, resource);
    InvalidateCovers(rd, resource);
    ReplaceInstalls(after, resource, Legacy(after, resource), value);
    forall other: Resource | other != resource
      ensures SameFor(rd, after, other)
    {
      InvalidateFrame(rd, resource, other);
    }
  }

  /** Deleting a dissolved group's runtime ends its numbering and empties its outbox; every other group keeps
      both, and no projection, index or marker changes. */
  lemma RuntimeDeletionIsConfined(rd: Redis, group: int, other: int, resource: Resource)
    ensures var after := DeleteRuntime(rd, group);
            && group !in after.groupSeq && Of(after.outbox, group) == {}
            && (other != group ==>
                  && Of(after.outbox, other) == Of(rd.outbox, other)
                  && (other in after.groupSeq <==> other in rd.groupSeq)
                  && (other in rd.groupSeq ==> after.groupSeq[other] == rd.groupSeq[other]))
            && SameFor(rd, after, resource)
            && after.dedup == rd.dedup && after.online == rd.online
  {
    var after := DeleteRuntime(rd, group);
    SameSet(Of(after.outbox, group), {});
    if other != group { SameSet(Of(after.outbox, other), Of(rd.outbox, other)); }
  }

  /** The keys of the message scripts and of presence are nobody's projection. */
  ghost predicate SparesMessages(rd: Redis, after: Redis) {
    && after.dedup == rd.dedup && after.groupSeq == rd.groupSeq
    && after.outbox == rd.outbox && after.online == rd.online
  }

  /** No replacement touches dedup keys, sequence numbers, outboxes or online keys. */
  lemma ReplaceSparesMessages(rd: Redis, resource: Resource, legacy: set<int>, value: Projection)
    requires Fits(resource, value)
    ensures SparesMessages(rd, Replace(rd, resource, legacy, value))
  {
  }

  /** Nor does dropping the markers of any resource. */
  lemma InvalidateSparesMessages(rd: Redis, resource: Resource)
    ensures SparesMessages(rd, Invalidate(rd, resource))
  {
  }

  /** Every covered replacement keeps every marked index complete. */
  lemma ReplaceKeepsIndexes(rd: Redis, resource: Resource, legacy: set<int>, value: Projection)
    requires IndexesCover(rd)
    requires Fits(resource, value) && CoveredBy(rd, resource, legacy)
    ensures IndexesCover(Replace(rd, resource, legacy, value))
  {
    var after := Replace(rd, resource, legacy, value);
    forall r: Resource | IndexMarked(after, r)
      ensures CoveredBy(after, r, {})
    {
      if r == resource { ReplaceInstalls(rd, resource, legacy, value); }
      else { ReplaceFrame(rd, resource, legacy, value, r); }
    }
  }

  /** The bounded replacement and the full-scan replacement leave the same Redis. */
  lemma BoundedEqualsFullScan(rd: Redis, resource: Resource, legacy: set<int>, value: Projection)
    requires Fits(resource, value)
    requires CoveredBy(rd, resource, legacy)
    ensures Replace(rd, resource, legacy, value) == Replace(rd, resource, FullScan(rd, resource), value)
  {
    match resource
    case Friends(o) =>
      var index := Of(rd.friendIndex, o);
      assert Remove(rd.friendKeys, o, index + legacy) == Remove(rd.friendKeys, o, index + Of(rd.friendKeys, o));
    case Blacklist(_) =>
    case Members(g) =>
      var known := Of(rd.groupMembers, g) + Of(rd.reverseIndex, g);
      assert Remove(rd.userGroups, g, known + legacy) == Remove(rd.userGroups, g, known + Of(rd.userGroups, g));
  }

  // ---- the cardinality marker ----

  /** After a group's projection was replaced and Redis only lost Set members or Hash fields since,
      the loaded check passes exactly when nothing was lost. */
  lemma CardinalityMarkerSound(rd: Redis, group: int, written: map<int, Info>)
    requires group in rd.membersLoaded && rd.membersLoaded[group] == |written|
    requires Of(rd.groupMembers, group) <= written.Keys
    requires RowsOf(rd.memberInfo, group).Items <= written.Items
    ensures MembersLoaded(rd, group) <==>
              Of(rd.groupMembers, group) == written.Keys && RowsOf(rd.memberInfo, group) == written
  {
    var held, rows := Of(rd.groupMembers, group), RowsOf(rd.memberInfo, group);
    assert rows.Keys == Of(rd.memberInfo.Keys, group);
    forall u | u in rows
      ensures u in written && rows[u] == written[u]
    {
      assert (u, rows[u]) in rows.Items;
    }
    SubsetSize(held, written.Keys);
    SubsetSize(rows.Keys, written.Keys);
  }

  /** An index that lost an entry while its marker stayed makes the bounded path leave a stale key behind. */
  lemma LostIndexEntryLeavesStaleKey()
    ensures var rd := FLUSHED.(friendKeys := {(1, 2)}, friendLoaded := {1}, friendIndexLoaded := {1});
            var after := Replace(rd, Friends(1), Legacy(rd, Friends(1)), Ids({}));
            2 in OwnedKeys(after, Friends(1))
  {
    var rd := FLUSHED.(friendKeys := {(1, 2)}, friendLoaded := {1}, friendIndexLoaded := {1});
    assert Legacy(rd, Friends(1)) == {};
    assert Of(rd.friendIndex, 1) == {};
    assert (1, 2) in Remove(rd.friendKeys, 1, {});
  }
}

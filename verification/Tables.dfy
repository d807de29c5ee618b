/** The MySQL tables that hold the durable truth, and the projections of them
    that Redis caches. */
module Tables {
  import opened Common

  const ROLE_MEMBER := 0
  const ROLE_ADMIN := 1
  const ROLE_OWNER := 2
  const DEFAULT_MAX_MEMBERS := 500

  datatype Status = Pending | Accepted | Rejected

  /** A friend_requests row; its key is the auto-increment id. */
  datatype Request = Request(sender: int, target: int, status: Status)

  /** A groups row. */
  datatype Group = Group(owner: int, maxMembers: int)

  /** A group_members row; the mute deadline is in Unix milliseconds. */
  datatype Member = Member(role: int, mutedUntil: Option<int>)

  datatype Db = Db(
    users: set<int>,
    requests: map<int, Request>,
    nextRequest: int,
    friendships: set<(int, int)>,
    blacklist: set<(int, int)>,
    groups: map<int, Group>,
    nextGroup: int,
    members: map<(int, int), Member>,
    tombstones: map<int, int>)

  /** What a cache reconciliation event names. */
  datatype Resource = Friends(owner: int) | Blacklist(owner: int) | Members(group: int)

  /** A group_member_info Hash value: 0 stands for "not muted". */
  datatype Info = Info(role: int, mutedUntil: int)

  datatype Projection = Ids(ids: set<int>) | Roster(roster: map<int, Info>)

  function Encode(member: Member): Info {
    Info(member.role, match member.mutedUntil case None => 0 case Some(t) => t)
  }

  function RosterOf(db: Db, group: int): (roster: map<int, Info>)
    ensures forall u :: u in roster <==> (group, u) in db.members
    ensures forall u :: u in roster ==> roster[u] == Encode(db.members[(group, u)])
  {
    map u | u in Of(db.members.Keys, group) :: Encode(db.members[(group, u)])
  }

  /** The projection of current truth that belongs in Redis. */
  function Project(db: Db, resource: Resource): Projection {
    match resource
    case Friends(owner) => Ids(Of(db.friendships, owner))
    case Blacklist(owner) => Ids(Of(db.blacklist, owner))
    case Members(group) => Roster(RosterOf(db, group))
  }

  datatype Code =
    | OK
    | InvalidParam | SelfRequest | UserNotFound | FriendBlocked | AlreadyFriends
    | DuplicateRequest | RequestNotFound | NotRequestTarget | AlreadyBlocked
    | GroupNotFound | NotOwnerOrAdmin | AlreadyMember | MemberNotFriend | GroupFull
    | GroupMemberNotFound | CannotRemoveOwner | CannotRemovePeer | InvalidRole
    | GroupNotMember | CannotLeaveAsOwner

  /** The result of one transaction: its answer, the tables it leaves, and the
      reconciliation events it inserts in the same commit. */
  datatype Outcome = Outcome(code: Code, db: Db, events: seq<Resource>)

  function Refuse(code: Code, db: Db): Outcome {
    Outcome(code, db, [])
  }
}

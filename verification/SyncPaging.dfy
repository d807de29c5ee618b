/** Message boxes: composite-cursor paging and revocation. */
module SyncPaging {
  import opened Common

  datatype Message = Message(msgId: int, timestamp: int, fromId: int, toId: int, msgType: int, content: string)

  datatype Key = Key(timestamp: int, msgId: int)

  function KeyOf(m: Message): Key {
    Key(m.timestamp, m.msgId)
  }

  predicate Before(a: Key, b: Key) {
    a.timestamp < b.timestamp || (a.timestamp == b.timestamp && a.msgId < b.msgId)
  }

  function Keys(box: set<Message>): (keys: set<Key>)
    ensures forall m :: m in box ==> KeyOf(m) in keys
    ensures forall k :: k in keys ==> exists m :: m in box && KeyOf(m) == k
  {
    set m | m in box :: KeyOf(m)
  }

  /** Server ids are positive and never reused. */
  predicate WellKeyed(box: set<Message>) {
    && (forall m :: m in box ==> m.msgId > 0)
    && (forall m, n :: m in box && n in box && m.msgId == n.msgId ==> m == n)
  }

  predicate InSyncOrder(msgs: seq<Message>) {
    forall i, j :: 0 <= i < j < |msgs| ==> Before(KeyOf(msgs[i]), KeyOf(msgs[j]))
  }

  // ---- one page ----

  /** The filter of readMessagesAfter, kept as the code writes it. */
  predicate Kept(m: Message, lastTime: int, lastId: int) {
    !(m.timestamp < lastTime || (m.timestamp == lastTime && lastId > 0 && m.msgId <= lastId))
  }

  /** For positive ids the filter is "strictly after the cursor", also when the cursor carries no id. */
  lemma KeptMeansAfter(m: Message, lastTime: int, lastId: int)
    requires m.msgId > 0
    ensures Kept(m, lastTime, lastId) <==> Before(Key(lastTime, if lastId > 0 then lastId else 0), KeyOf(m))
  {
  }

  /** Sorted messages after the cursor; something is left out only when the page is full, and then only
      later messages. A limit of 0 or less means no limit. */
  ghost predicate IsMessagePage(box: set<Message>, cursor: Key, limit: int, msgs: seq<Message>) {
    && InSyncOrder(msgs)
    && (limit > 0 ==> |msgs| <= limit)
    && (forall m :: m in msgs ==> m in box && Before(cursor, KeyOf(m)))
    && (forall m :: m in box && Before(cursor, KeyOf(m)) && m !in msgs ==>
          limit > 0 && |msgs| == limit && forall x :: x in msgs ==> Before(KeyOf(x), KeyOf(m)))
  }

  /** The first message in order of a nonempty set. */
  method First(msgs: set<Message>) returns (first: Message)
    requires msgs != {} && WellKeyed(msgs)
    ensures first in msgs && forall m :: m in msgs && m != first ==> Before(KeyOf(first), KeyOf(m))
  {
    first :| first in msgs;
    var rest := msgs - {first};
    while rest != {}
      invariant first in msgs && rest <= msgs && first !in rest
      invariant forall m :: m in msgs && m !in rest && m != first ==> Before(KeyOf(first), KeyOf(m))
      decreases rest
    {
      var m :| m in rest;
      rest := rest - {m};
      if m.timestamp < first.timestamp || (m.timestamp == first.timestamp && m.msgId < first.msgId) { first := m; }
    }
  }

  /** sort.Slice by (timestamp, msgId). */
  method Sort(msgs: set<Message>) returns (sorted: seq<Message>)
    requires WellKeyed(msgs)
    ensures InSyncOrder(sorted)
    ensures forall m :: m in sorted <==> m in msgs
  {
    var left := msgs;
    sorted := [];
    while left != {}
      invariant left <= msgs
      invariant InSyncOrder(sorted)
      invariant forall m :: m in sorted <==> m in msgs && m !in left
      invariant forall m, n :: m in sorted && n in left ==> Before(KeyOf(m), KeyOf(n))
      decreases left
    {
      var first := First(left);
      assert forall i :: 0 <= i < |sorted| ==> sorted[i] in sorted;
      sorted := sorted + [first];
      left := left - {first};
    }
  }

  method ReadMessagesAfter(box: set<Message>, lastTime: int, lastId: int, limit: int) returns (msgs: seq<Message>)
    requires WellKeyed(box)
    ensures IsMessagePage(box, Key(lastTime, if lastId > 0 then lastId else 0), limit, msgs)
  {
    var results := set m | m in box && m.timestamp >= lastTime;
    var kept: set<Message> := {};
    var left := results;
    while left != {}
      invariant left <= results
      invariant forall m :: m in kept <==> m in results && m !in left && Kept(m, lastTime, lastId)
      decreases left
    {
      var m :| m in left;
      if Kept(m, lastTime, lastId) { kept := kept + {m}; }
      left := left - {m};
    }
    msgs := Sort(kept);
    forall m | m in box
      ensures m in kept <==> Before(Key(lastTime, if lastId > 0 then lastId else 0), KeyOf(m))
    {
      KeptMeansAfter(m, lastTime, lastId);
    }
    if limit > 0 && |msgs| > limit {
      PrefixIsPage(box, Key(lastTime, if lastId > 0 then lastId else 0), limit, msgs);
      msgs := msgs[..limit];
    }
  }

  lemma PrefixIsPage(box: set<Message>, cursor: Key, limit: int, msgs: seq<Message>)
    requires IsMessagePage(box, cursor, 0, msgs)
    requires 0 < limit < |msgs|
    ensures IsMessagePage(box, cursor, limit, msgs[..limit])
  {
    var page := msgs[..limit];
    assert forall j :: 0 <= j < limit ==> page[j] == msgs[j] && page[j] in page;
    forall m | m in box && Before(cursor, KeyOf(m)) && m !in page
      ensures forall x :: x in page ==> Before(KeyOf(x), KeyOf(m))
    {
      assert m in msgs;
      var k :| 0 <= k < |msgs| && msgs[k] == m;
      assert k >= limit;
    }
    assert forall m :: m in page ==> m in msgs;
  }

  // ---- a whole sync ----

  function CursorAfter(page: seq<Message>, cursor: Key): Key {
    if page == [] then cursor else KeyOf(page[|page| - 1])
  }

  function Flatten(pages: seq<seq<Message>>): seq<Message>
    decreases |pages|
  {
    if pages == [] then [] else pages[0] + Flatten(pages[1..])
  }

  /** Reads that each go on from the last returned key; the box may be another one at every read, but it
      always has the same keys. */
  ghost predicate Session(pages: seq<seq<Message>>, boxes: seq<set<Message>>, cursor: Key, limit: int, keys: set<Key>)
    decreases |pages|
  {
    && |pages| == |boxes|
    && (pages != [] ==>
          && WellKeyed(boxes[0]) && Keys(boxes[0]) == keys
          && IsMessagePage(boxes[0], cursor, limit, pages[0])
          && Session(pages[1..], boxes[1..], CursorAfter(pages[0], cursor), limit, keys))
  }

  predicate Returned(msgs: seq<Message>, key: Key) {
    exists i :: 0 <= i < |msgs| && KeyOf(msgs[i]) == key
  }

  /** The last page came back short. */
  predicate Ended(pages: seq<seq<Message>>, limit: int) {
    pages != [] && (limit <= 0 || |pages[|pages| - 1]| < limit)
  }

  lemma PageOrder(page: seq<Message>, rest: seq<Message>, cursor: Key)
    requires InSyncOrder(page) && InSyncOrder(rest)
    requires forall m :: m in page ==> Before(cursor, KeyOf(m))
    requires forall m :: m in rest ==> Before(CursorAfter(page, cursor), KeyOf(m))
    ensures InSyncOrder(page + rest)
    ensures forall m :: m in page + rest ==> Before(cursor, KeyOf(m))
  {
    if page != [] {
      var last := page[|page| - 1];
      assert last in page;
      forall i, j | 0 <= i < |page| && 0 <= j < |rest|
        ensures Before(KeyOf(page[i]), KeyOf(rest[j]))
      {
        assert rest[j] in rest;
        assert i < |page| - 1 ==> Before(KeyOf(page[i]), KeyOf(last));
      }
    }
  }

  /** What a session returns ascends, lies after its cursor, and names only keys of the box. */
  lemma {:induction false} SessionAscends(pages: seq<seq<Message>>, boxes: seq<set<Message>>, cursor: Key, limit: int, keys: set<Key>)
    requires Session(pages, boxes, cursor, limit, keys)
    ensures InSyncOrder(Flatten(pages))
    ensures forall m :: m in Flatten(pages) ==> Before(cursor, KeyOf(m)) && KeyOf(m) in keys
    decreases |pages|
  {
    if pages != [] {
      SessionAscends(pages[1..], boxes[1..], CursorAfter(pages[0], cursor), limit, keys);
      PageOrder(pages[0], Flatten(pages[1..]), cursor);
    }
  }

  /** A session that came to its end returned every key after its cursor. */
  lemma {:induction false} SessionComplete(pages: seq<seq<Message>>, boxes: seq<set<Message>>, cursor: Key, limit: int, keys: set<Key>, key: Key)
    requires Session(pages, boxes, cursor, limit, keys) && Ended(pages, limit)
    requires key in keys && Before(cursor, key)
    ensures Returned(Flatten(pages), key)
    decreases |pages|
  {
    var page := pages[0];
    var m :| m in boxes[0] && KeyOf(m) == key;
    var all := Flatten(pages);
    if m in page {
      var i :| 0 <= i < |page| && page[i] == m;
      assert all[i] == m;
    } else {
      assert |pages| > 1;
      assert page[|page| - 1] in page;
      SessionComplete(pages[1..], boxes[1..], CursorAfter(page, cursor), limit, keys, key);
      ReturnedLater(page, Flatten(pages[1..]), key);
    }
  }

  lemma ReturnedLater(page: seq<Message>, rest: seq<Message>, key: Key)
    requires Returned(rest, key)
    ensures Returned(page + rest, key)
  {
    var i :| 0 <= i < |rest| && KeyOf(rest[i]) == key;
    assert (page + rest)[|page| + i] == rest[i];
  }

  function KeySet(msgs: seq<Message>): (keys: set<Key>)
    ensures forall key :: key in keys <==> Returned(msgs, key)
  {
    set i | 0 <= i < |msgs| :: KeyOf(msgs[i])
  }

  lemma KeySetGrows(msgs: seq<Message>)
    requires msgs != []
    ensures KeySet(msgs) == KeySet(msgs[..|msgs| - 1]) + {KeyOf(msgs[|msgs| - 1])}
  {
    var last := |msgs| - 1;
    var rest := msgs[..last];
    forall key
      ensures Returned(msgs, key) <==> Returned(rest, key) || key == KeyOf(msgs[last])
    {
      if Returned(rest, key) {
        var i :| 0 <= i < |rest| && KeyOf(rest[i]) == key;
        assert KeyOf(msgs[i]) == key;
      }
      if Returned(msgs, key) {
        var i :| 0 <= i < |msgs| && KeyOf(msgs[i]) == key;
        assert i < last ==> KeyOf(rest[i]) == key;
      }
    }
  }

  lemma {:induction false} AscendsCount(msgs: seq<Message>)
    requires InSyncOrder(msgs)
    ensures |KeySet(msgs)| == |msgs|
    decreases |msgs|
  {
    if msgs != [] {
      var last := |msgs| - 1;
      AscendsCount(msgs[..last]);
      KeySetGrows(msgs);
      assert KeyOf(msgs[last]) !in KeySet(msgs[..last]);
    }
  }

  /** Exact paging: from the start of a box, for any page size, a finished session returns the keys of the
      whole box, each once and in order, even if messages are revoked between the pages. */
  lemma SyncIsExact(pages: seq<seq<Message>>, boxes: seq<set<Message>>, cursor: Key, limit: int, keys: set<Key>)
    requires Session(pages, boxes, cursor, limit, keys) && Ended(pages, limit)
    requires forall key :: key in keys ==> Before(cursor, key)
    ensures InSyncOrder(Flatten(pages))
    ensures KeySet(Flatten(pages)) == keys
    ensures |Flatten(pages)| == |keys|
  {
    SessionAscends(pages, boxes, cursor, limit, keys);
    forall key
      ensures key in KeySet(Flatten(pages)) <==> key in keys
    {
      if key in keys { SessionComplete(pages, boxes, cursor, limit, keys, key); }
      if Returned(Flatten(pages), key) {
        var i :| 0 <= i < |Flatten(pages)| && KeyOf(Flatten(pages)[i]) == key;
        assert Flatten(pages)[i] in Flatten(pages);
      }
    }
    AscendsCount(Flatten(pages));
  }

  lemma {:induction false} FlattenCounts(pages: seq<seq<Message>>)
    requires forall i :: 0 <= i < |pages| ==> pages[i] != []
    ensures |Flatten(pages)| >= |pages|
    decreases |pages|
  {
    if pages != [] { FlattenCounts(pages[1..]); }
  }

  /** It must end: no session has more full pages than the box has messages. */
  lemma SyncTerminates(pages: seq<seq<Message>>, boxes: seq<set<Message>>, cursor: Key, limit: int, keys: set<Key>)
    requires Session(pages, boxes, cursor, limit, keys)
    requires forall i :: 0 <= i < |pages| ==> pages[i] != []
    ensures |pages| <= |keys|
  {
    SessionAscends(pages, boxes, cursor, limit, keys);
    FlattenCounts(pages);
    AscendsCount(Flatten(pages));
    var all := Flatten(pages);
    forall key | key in KeySet(all)
      ensures key in keys
    {
      var i :| 0 <= i < |all| && KeyOf(all[i]) == key;
      assert all[i] in all;
    }
    SubsetSize(KeySet(all), keys);
  }

  // ---- revocation ----

  const REVOKE_WINDOW := 120000

  datatype Conversation = InGroup(group: int) | Private

  datatype Boxes = Boxes(inbox: map<int, set<Message>>, outbox: map<int, set<Message>>)

  function BoxOf(boxes: map<int, set<Message>>, owner: int): set<Message> {
    if owner in boxes then boxes[owner] else {}
  }

  ghost predicate AllWellKeyed(boxes: Boxes) {
    EachWellKeyed(boxes.inbox) && EachWellKeyed(boxes.outbox)
  }

  predicate Finds(box: set<Message>, msgId: int, found: Option<Message>) {
    if found.Some? then found.value in box && found.value.msgId == msgId
    else forall m :: m in box ==> m.msgId != msgId
  }

  /** The message of that id in a box. */
  ghost function Lookup(box: set<Message>, msgId: int): (found: Option<Message>)
    ensures Finds(box, msgId, found)
  {
    if m :| m in box && m.msgId == msgId then Some(m) else None
  }

  lemma LookupUnique(box: set<Message>, msgId: int, found: Option<Message>)
    requires WellKeyed(box) && Finds(box, msgId, found)
    ensures found == Lookup(box, msgId)
  {
  }

  /** The revoked form keeps id, timestamp and both users. */
  function Revoked(m: Message, msgType: int, content: string): Message {
    m.(msgType := msgType, content := content)
  }

  function Substitute(box: set<Message>, m: Message, msgType: int, content: string): set<Message> {
    box - {m} + {Revoked(m, msgType, content)}
  }

  /** The sender's own message, still inside the window. */
  predicate MayRevoke(found: Option<Message>, user: int, now: int) {
    found.Some? && found.value.fromId == user && now - found.value.timestamp <= REVOKE_WINDOW
  }

  /** revoke_msg.lua: a group message has one copy; a private one has two, and both change or neither. */
  ghost function Revoke(boxes: Boxes, user: int, conversation: Conversation, msgId: int, msgType: int, content: string, now: int)
    : (bool, Boxes)
  {
    match conversation
    case InGroup(group) =>
      var box := BoxOf(boxes.outbox, group);
      var found := Lookup(box, msgId);
      if !MayRevoke(found, user, now) then (false, boxes)
      else (true, boxes.(outbox := boxes.outbox[group := Substitute(box, found.value, msgType, content)]))
    case Private =>
      var sent := Lookup(BoxOf(boxes.inbox, user), msgId);
      if !MayRevoke(sent, user, now) || sent.value.toId == user then (false, boxes)
      else
        var receiver := sent.value.toId;
        var received := Lookup(BoxOf(boxes.inbox, receiver), msgId);
        if received.None? || received.value.fromId != user then (false, boxes)
        else
          (true, boxes.(inbox := boxes.inbox[user := Substitute(BoxOf(boxes.inbox, user), sent.value, msgType, content)]
                                            [receiver := Substitute(BoxOf(boxes.inbox, receiver), received.value, msgType, content)]))
  }

  class MessageStore {
    var inbox: map<int, set<Message>>
    var outbox: map<int, set<Message>>

    function All(): Boxes
      reads this
    {
      Boxes(inbox, outbox)
    }

    constructor ()
      ensures All() == Boxes(map[], map[])
    {
      inbox, outbox := map[], map[];
    }

    /** findMessage: walks the box until the id matches. */
    method FindMessage(box: set<Message>, msgId: int) returns (found: Option<Message>)
      requires WellKeyed(box)
      ensures found == Lookup(box, msgId)
    {
      var left := box;
      found := None;
      while left != {} && found.None?
        invariant left <= box
        invariant found.None? ==> forall m :: m in box && m !in left ==> m.msgId != msgId
        invariant found.Some? ==> found.value in box && found.value.msgId == msgId
        decreases left
      {
        var m :| m in left;
        if m.msgId == msgId { found := Some(m); }
        left := left - {m};
      }
      LookupUnique(box, msgId, found);
    }

    method RevokeMsg(user: int, conversation: Conversation, msgId: int, msgType: int, content: string, now: int) returns (ok: bool)
      requires AllWellKeyed(All())
      modifies this
      ensures (ok, All()) == Revoke(old(All()), user, conversation, msgId, msgType, content, now)
    {
      match conversation {
        case InGroup(group) =>
          var box := BoxOf(outbox, group);
          var found := FindMessage(box, msgId);
          if found.None? || found.value.fromId != user { return false; }
          if now - found.value.timestamp > REVOKE_WINDOW { return false; }
          outbox := outbox[group := Substitute(box, found.value, msgType, content)];
          return true;
        case Private =>
          var sent := FindMessage(BoxOf(inbox, user), msgId);
          if sent.None? || sent.value.fromId != user { return false; }
          if now - sent.value.timestamp > REVOKE_WINDOW { return false; }
          var receiver := sent.value.toId;
          if receiver == user { return false; }
          var received := FindMessage(BoxOf(inbox, receiver), msgId);
          if received.None? || received.value.fromId != user { return false; }
          inbox := inbox[user := Substitute(BoxOf(inbox, user), sent.value, msgType, content)];
          inbox := inbox[receiver := Substitute(BoxOf(inbox, receiver), received.value, msgType, content)];
          return true;
      }
    }
  }

  /** In one box, the message of that id now has the given type and content and is otherwise as it was; every
      other message is untouched. */
  ghost predicate RewrittenIn(before: set<Message>, after: set<Message>, msgId: int, msgType: int, content: string) {
    && (forall m: Message :: m.msgId != msgId ==> (m in after <==> m in before))
    && (forall m :: m in before && m.msgId == msgId ==>
          Message(msgId, m.timestamp, m.fromId, m.toId, msgType, content) in after)
    && (forall m :: m in after && m.msgId == msgId ==>
          m.msgType == msgType && m.content == content
          && exists o :: o in before && o.msgId == msgId && o.timestamp == m.timestamp && o.fromId == m.fromId && o.toId == m.toId)
  }

  lemma SubstituteRewrites(box: set<Message>, m: Message, msgType: int, content: string)
    requires WellKeyed(box) && m in box
    ensures RewrittenIn(box, Substitute(box, m, msgType, content), m.msgId, msgType, content)
  {
  }

  /** A group revocation succeeds exactly for the sender of a message that is at most two minutes old. Its one
      copy then carries the new type and content and keeps id, time and both users; no other message and no
      other box changes. */
  lemma GroupRevocation(boxes: Boxes, user: int, group: int, msgId: int, msgType: int, content: string, now: int)
    requires AllWellKeyed(boxes)
    ensures var (ok, after) := Revoke(boxes, user, InGroup(group), msgId, msgType, content, now);
            && (ok <==> exists m :: m in BoxOf(boxes.outbox, group) && m.msgId == msgId && m.fromId == user && now - m.timestamp <= 120000)
            && (!ok ==> after == boxes)
            && (ok ==>
                  && RewrittenIn(BoxOf(boxes.outbox, group), BoxOf(after.outbox, group), msgId, msgType, content)
                  && (forall g :: g != group ==> BoxOf(after.outbox, g) == BoxOf(boxes.outbox, g))
                  && after.inbox == boxes.inbox)
  {
    var box := BoxOf(boxes.outbox, group);
    var found := Lookup(box, msgId);
    if found.Some? { SubstituteRewrites(box, found.value, msgType, content); }
    forall m | m in box && m.msgId == msgId
      ensures found == Some(m)
    {
      LookupUnique(box, msgId, Some(m));
    }
  }

  /** A private revocation succeeds exactly for the sender of a message that is at most two minutes old and of
      which a receiver other than the sender has a copy from the sender. Both copies are then rewritten, and no
      other message and no other box changes. */
  lemma PrivateRevocation(boxes: Boxes, user: int, msgId: int, msgType: int, content: string, now: int)
    requires AllWellKeyed(boxes)
    ensures var (ok, after) := Revoke(boxes, user, Private, msgId, msgType, content, now);
            && (ok <==> exists m, r ::
                  && m in BoxOf(boxes.inbox, user) && m.msgId == msgId && m.fromId == user && now - m.timestamp <= 120000
                  && m.toId != user
                  && r in BoxOf(boxes.inbox, m.toId) && r.msgId == msgId && r.fromId == user)
            && (!ok ==> after == boxes)
            && (ok ==> exists m ::
                  && m in BoxOf(boxes.inbox, user) && m.msgId == msgId
                  && RewrittenIn(BoxOf(boxes.inbox, user), BoxOf(after.inbox, user), msgId, msgType, content)
                  && RewrittenIn(BoxOf(boxes.inbox, m.toId), BoxOf(after.inbox, m.toId), msgId, msgType, content)
                  && (forall u :: u != user && u != m.toId ==> BoxOf(after.inbox, u) == BoxOf(boxes.inbox, u))
                  && after.outbox == boxes.outbox)
  {
    var (ok, after) := Revoke(boxes, user, Private, msgId, msgType, content, now);
    var box := BoxOf(boxes.inbox, user);
    var sent := Lookup(box, msgId);
    forall m, r | m in box && m.msgId == msgId && r in BoxOf(boxes.inbox, m.toId) && r.msgId == msgId
      ensures sent == Some(m) && Lookup(BoxOf(boxes.inbox, m.toId), msgId) == Some(r)
    {
      LookupUnique(box, msgId, Some(m));
      LookupUnique(BoxOf(boxes.inbox, m.toId), msgId, Some(r));
    }
    if ok {
      var received := Lookup(BoxOf(boxes.inbox, sent.value.toId), msgId);
      SubstituteRewrites(box, sent.value, msgType, content);
      SubstituteRewrites(BoxOf(boxes.inbox, sent.value.toId), received.value, msgType, content);
      assert sent.value in box && received.value in BoxOf(boxes.inbox, sent.value.toId);
    }
  }

  lemma SubstituteKeepsKeys(box: set<Message>, m: Message, msgType: int, content: string)
    requires WellKeyed(box) && m in box
    ensures WellKeyed(Substitute(box, m, msgType, content))
    ensures Keys(Substitute(box, m, msgType, content)) == Keys(box)
  {
    var after := Substitute(box, m, msgType, content);
    forall key
      ensures key in Keys(after) <==> key in Keys(box)
    {
      if key in Keys(box) {
        var n :| n in box && KeyOf(n) == key;
        assert n != m ==> n in after;
        assert Revoked(m, msgType, content) in after;
      }
    }
  }

  ghost predicate EachWellKeyed(boxes: map<int, set<Message>>) {
    forall owner :: owner in boxes ==> WellKeyed(boxes[owner])
  }

  lemma SubstituteIn(boxes: map<int, set<Message>>, owner: int, m: Message, msgType: int, content: string)
    requires EachWellKeyed(boxes) && m in BoxOf(boxes, owner)
    ensures var after := boxes[owner := Substitute(BoxOf(boxes, owner), m, msgType, content)];
            EachWellKeyed(after) && forall u :: Keys(BoxOf(after, u)) == Keys(BoxOf(boxes, u))
  {
    SubstituteKeepsKeys(BoxOf(boxes, owner), m, msgType, content);
  }

  /** No box gains, loses or moves a key, so a revocation between two pages cannot disturb paging. */
  ghost predicate SameKeys(boxes: Boxes, after: Boxes) {
    && (forall u :: Keys(BoxOf(after.inbox, u)) == Keys(BoxOf(boxes.inbox, u)))
    && (forall g :: Keys(BoxOf(after.outbox, g)) == Keys(BoxOf(boxes.outbox, g)))
  }

  lemma RevokeKeepsKeys(boxes: Boxes, user: int, conversation: Conversation, msgId: int, msgType: int, content: string, now: int)
    requires AllWellKeyed(boxes)
    ensures var after := Revoke(boxes, user, conversation, msgId, msgType, content, now).1;
            AllWellKeyed(after) && SameKeys(boxes, after)
  {
    var (ok, after) := Revoke(boxes, user, conversation, msgId, msgType, content, now);
    if ok {
      match conversation
      case InGroup(group) =>
        SubstituteIn(boxes.outbox, group, Lookup(BoxOf(boxes.outbox, group), msgId).value, msgType, content);
      case Private =>
        var sent := Lookup(BoxOf(boxes.inbox, user), msgId).value;
        var received := Lookup(BoxOf(boxes.inbox, sent.toId), msgId).value;
        SubstituteIn(boxes.inbox, user, sent, msgType, content);
        SubstituteIn(boxes.inbox[user := Substitute(BoxOf(boxes.inbox, user), sent, msgType, content)],
                     sent.toId, received, msgType, content);
    }
  }

  datatype Revocation = Revocation(user: int, conversation: Conversation, msgId: int, msgType: int, content: string, now: int)

  ghost function AfterAll(boxes: Boxes, revocations: seq<Revocation>): Boxes
    decreases |revocations|
  {
    if revocations == [] then boxes
    else
      var r := revocations[0];
      AfterAll(Revoke(boxes, r.user, r.conversation, r.msgId, r.msgType, r.content, r.now).1, revocations[1..])
  }

  /** Any number of revocations leaves every box with the keys that a sync session pages over. */
  lemma {:induction false} RevocationsKeepKeys(boxes: Boxes, revocations: seq<Revocation>)
    requires AllWellKeyed(boxes)
    ensures AllWellKeyed(AfterAll(boxes, revocations)) && SameKeys(boxes, AfterAll(boxes, revocations))
    decreases |revocations|
  {
    if revocations != [] {
      var r := revocations[0];
      RevokeKeepsKeys(boxes, r.user, r.conversation, r.msgId, r.msgType, r.content, r.now);
      RevocationsKeepKeys(Revoke(boxes, r.user, r.conversation, r.msgId, r.msgType, r.content, r.now).1, revocations[1..]);
    }
  }

  /** A private revocation changes both copies or none: afterwards the sender's and the receiver's copy carry
      the replacement exactly when it succeeded, and a refusal leaves every box as it was. */
  lemma BothCopiesOrNone(boxes: Boxes, user: int, msgId: int, msgType: int, content: string, now: int)
    requires AllWellKeyed(boxes)
    ensures var (ok, after) := Revoke(boxes, user, Private, msgId, msgType, content, now);
            var sent := Lookup(BoxOf(boxes.inbox, user), msgId);
            && (!ok ==> after == boxes)
            && (ok ==>
                  && sent.Some? && sent.value.fromId == user && now - sent.value.timestamp <= 120000 && sent.value.toId != user
                  && Lookup(BoxOf(after.inbox, user), msgId) == Some(sent.value.(msgType := msgType, content := content))
                  && Lookup(BoxOf(boxes.inbox, sent.value.toId), msgId).Some?
                  && Lookup(BoxOf(after.inbox, sent.value.toId), msgId)
                     == Some(Lookup(BoxOf(boxes.inbox, sent.value.toId), msgId).value.(msgType := msgType, content := content)))
  {
    var (ok, after) := Revoke(boxes, user, Private, msgId, msgType, content, now);
    if ok {
      RevokeKeepsKeys(boxes, user, Private, msgId, msgType, content, now);
      var sent := Lookup(BoxOf(boxes.inbox, user), msgId).value;
      var received := Lookup(BoxOf(boxes.inbox, sent.toId), msgId).value;
      LookupUnique(after.inbox[user], msgId, Some(Revoked(sent, msgType, content)));
      LookupUnique(after.inbox[sent.toId], msgId, Some(Revoked(received, msgType, content)));
    }
  }

  datatype BoxName = Inbox(user: int) | Outbox(group: int)

  function BoxNamed(boxes: Boxes, name: BoxName): set<Message> {
    match name
    case Inbox(user) => BoxOf(boxes.inbox, user)
    case Outbox(group) => BoxOf(boxes.outbox, group)
  }

  /** One inbox or group outbox at each of its reads: `gaps[i]` are the revocations before the i-th read. */
  ghost function BoxAtReads(boxes: Boxes, gaps: seq<seq<Revocation>>, name: BoxName): (seen: seq<set<Message>>)
    ensures |seen| == |gaps|
    decreases |gaps|
  {
    if gaps == [] then []
    else
      var now := AfterAll(boxes, gaps[0]);
      [BoxNamed(now, name)] + BoxAtReads(now, gaps[1..], name)
  }

  /** Each read is a page of the box as it then is, from the cursor left by the read before. */
  ghost predicate Reads(pages: seq<seq<Message>>, boxes: seq<set<Message>>, cursor: Key, limit: int)
    requires |pages| == |boxes|
    decreases |pages|
  {
    pages != [] ==>
      IsMessagePage(boxes[0], cursor, limit, pages[0]) && Reads(pages[1..], boxes[1..], CursorAfter(pages[0], cursor), limit)
  }

  lemma {:induction false} ReadsAreSession(pages: seq<seq<Message>>, boxes: Boxes, gaps: seq<seq<Revocation>>, name: BoxName, cursor: Key, limit: int)
    requires AllWellKeyed(boxes) && |pages| == |gaps|
    requires Reads(pages, BoxAtReads(boxes, gaps, name), cursor, limit)
    ensures Session(pages, BoxAtReads(boxes, gaps, name), cursor, limit, Keys(BoxNamed(boxes, name)))
    decreases |pages|
  {
    if pages != [] {
      var now := AfterAll(boxes, gaps[0]);
      RevocationsKeepKeys(boxes, gaps[0]);
      assert BoxAtReads(boxes, gaps, name)[1..] == BoxAtReads(now, gaps[1..], name);
      ReadsAreSession(pages[1..], now, gaps[1..], name, CursorAfter(pages[0], cursor), limit);
      assert WellKeyed(BoxNamed(now, name));
    }
  }

  /** Whatever revocations happen between the reads, a finished sync of any inbox or group outbox
      from before its first key returns every key of the box, each once and in order. */
  lemma SyncSurvivesRevocations(pages: seq<seq<Message>>, boxes: Boxes, gaps: seq<seq<Revocation>>, name: BoxName, cursor: Key, limit: int)
    requires AllWellKeyed(boxes) && |pages| == |gaps|
    requires Reads(pages, BoxAtReads(boxes, gaps, name), cursor, limit)
    requires Ended(pages, limit)
    requires forall key :: key in Keys(BoxNamed(boxes, name)) ==> Before(cursor, key)
    ensures InSyncOrder(Flatten(pages))
    ensures KeySet(Flatten(pages)) == Keys(BoxNamed(boxes, name))
    ensures |Flatten(pages)| == |Keys(BoxNamed(boxes, name))|
  {
    ReadsAreSession(pages, boxes, gaps, name, cursor, limit);
    SyncIsExact(pages, BoxAtReads(boxes, gaps, name), cursor, limit, Keys(BoxNamed(boxes, name)));
  }
}

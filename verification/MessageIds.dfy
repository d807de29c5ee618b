/** Message ids: durable segments, local generators, and every interleaving of them with crashes, rollbacks
    and commits whose result is unknown. */
module MessageIds {
  import opened Common

  const MAX_ID: Int64 := MAX_MESSAGE_ID as Int64
  const MAX_SEGMENT: Int64 := 1_000_000
  const DEFAULT_SEGMENT: Int64 := 65_536

  datatype Segment = Segment(first: int, last: int)

  datatype IdError = BadSize | Uninitialized | Exhausted | StoreFailed | InvalidSegment | Cancelled

  datatype Result<T> = Ok(value: T) | Error(error: IdError)

  /** How the transaction of one reservation ends. `CommitUnknown` reports an error after the commit took effect. */
  datatype Ending = Committed | RolledBack | CommitUnknown

  // ---- the store ----

  /** The segment a mark offers: `size` ids, or all that are left below 2^53. */
  function Offer(mark: int, size: int): (segment: Segment)
    requires 1 <= mark <= MAX_ID as int && size >= 1
    ensures segment.first == mark
    ensures mark <= segment.last <= MAX_ID as int
    ensures segment.last - segment.first + 1 <= size
    ensures segment.last - segment.first + 1 == size || segment.last == 9007199254740991
  {
    Segment(mark, if mark + size - 1 > MAX_ID as int then MAX_ID as int else mark + size - 1)
  }

  predicate Offers(mark: Option<int>) {
    mark.Some? && 1 <= mark.value <= MAX_ID as int
  }

  class MySqlStore {
    var nextId: Option<Int64>      // the allocator row, if the migration created it

    function Mark(): Option<int>
      reads this
    {
      match nextId case None => None case Some(n) => Some(n as int)
    }

    constructor (nextId: Option<Int64>)
      ensures this.nextId == nextId
    {
      this.nextId := nextId;
    }

    /** The startup check succeeds exactly when a reservation could. */
    method Validate() returns (result: Result<()>)
      ensures result.Ok? <==> nextId.Some? && 1 <= nextId.value <= 9007199254740991
      ensures result == Error(Exhausted) <==> nextId.Some? && nextId.value > 9007199254740991
    {
      if nextId.None? { return Error(Uninitialized); }
      if nextId.value < 1 { return Error(StoreFailed); }
      if nextId.value > MAX_ID { return Error(Exhausted); }
      return Ok(());
    }

    /** Advances the durable mark before it hands out the segment. The mark moves if and only if the commit
        took effect; a segment is returned only then. All of it is 64-bit arithmetic. */
    method Reserve(size: Int64, ending: Ending) returns (result: Result<Segment>)
      modifies this
      ensures var allowed := 1 <= size <= 1000000 && old(nextId).Some? && 1 <= old(nextId).value <= 9007199254740991;
              && (result.Ok? <==> allowed && ending == Committed)
              && Mark() == if allowed && ending != RolledBack then Some(Offer(old(Mark()).value, size as int).last + 1) else old(Mark())
      ensures result.Ok? ==> result.value == Offer(old(Mark()).value, size as int)
      ensures 1 <= size <= 1000000 && old(nextId).Some? && !Offers(old(Mark())) ==> result == Error(Exhausted)
    {
      if size < 1 || size > MAX_SEGMENT { return Error(BadSize); }
      if nextId.None? { return Error(Uninitialized); }
      var first := nextId.value;
      if first < 1 || first > MAX_ID { return Error(Exhausted); }
      var remaining := MAX_ID - first + 1;
      var taken := if size > remaining then remaining else size;
      var last := first + taken - 1;
      var next := last + 1;
      match ending {
        case RolledBack => return Error(StoreFailed);
        case CommitUnknown =>
          nextId := Some(next);
          return Error(StoreFailed);
        case Committed =>
          nextId := Some(next);
          return Ok(Segment(first as int, last as int));
      }
    }
  }

  /** validateSegment. */
  function ValidSegment(segment: Segment, size: int): bool {
    && 1 <= segment.first <= segment.last <= MAX_ID as int
    && segment.last - segment.first + 1 <= size
  }

  /** What the store offers is never refused by the generator. */
  lemma OffersAreValid(mark: int, size: int)
    requires 1 <= mark <= MAX_ID as int && size >= 1
    ensures ValidSegment(Offer(mark, size), size)
  {
  }

  // ---- the generator ----

  /** A generator's local segment; the ids next..last are still to be issued. */
  datatype Local = Local(next: int, last: int)

  predicate Empty(g: Local) {
    g.next == 0 || g.next > g.last
  }

  const FRESH := Local(0, 0)

  class Generator {
    const store: MySqlStore
    const segmentSize: Int64
    var next: Int64
    var last: Int64

    function Held(): Local
      reads this
    {
      Local(next as int, last as int)
    }

    ghost predicate Valid()
      reads this
    {
      1 <= segmentSize <= MAX_SEGMENT && 0 <= next <= MAX_ID + 1 && last <= MAX_ID
    }

    constructor (store: MySqlStore, segmentSize: Int64)
      requires segmentSize == 0 || 1 <= segmentSize <= MAX_SEGMENT
      ensures Valid() && this.store == store && Held() == FRESH
      ensures this.segmentSize == if segmentSize == 0 then DEFAULT_SEGMENT else segmentSize
    {
      this.store := store;
      this.segmentSize := if segmentSize == 0 then DEFAULT_SEGMENT else segmentSize;
      next, last := 0, 0;
    }

    /** A size out of range is refused, and 0 means the default. */
    static method New(store: MySqlStore, segmentSize: Int64) returns (result: Result<Generator>)
      ensures result.Ok? <==> 0 <= segmentSize <= 1000000
      ensures result.Ok? ==> result.value.segmentSize == if segmentSize == 0 then 65536 else segmentSize
      ensures result.Ok? ==> fresh(result.value) && result.value.Valid() && result.value.store == store
    {
      if segmentSize != 0 && (segmentSize < 1 || segmentSize > MAX_SEGMENT) { return Error(BadSize); }
      var generator := new Generator(store, segmentSize);
      return Ok(generator);
    }

    /** Issues the next local id, or reserves a segment first. A failure issues nothing and keeps the local
        segment; the mark has then moved only if the commit's result was unknown. */
    method Next(cancelled: bool, ending: Ending) returns (result: Result<Int64>)
      requires Valid()
      modifies this, store
      ensures Valid()
      ensures cancelled ==> result == Error(Cancelled) && Held() == old(Held()) && store.Mark() == old(store.Mark())
      ensures !cancelled && !Empty(old(Held())) ==>
                result == Ok(old(next)) && Held() == Local(old(next) as int + 1, old(last) as int) && store.Mark() == old(store.Mark())
      ensures !cancelled && Empty(old(Held())) ==>
                var mark := old(store.Mark());
                if !Offers(mark) then result.Error? && Held() == old(Held()) && store.Mark() == mark
                else
                  var offer := Offer(mark.value, segmentSize as int);
                  match ending
                  case Committed =>
                    result.Ok? && result.value as int == offer.first && Held() == Local(offer.first + 1, offer.last)
                    && store.Mark() == Some(offer.last + 1)
                  case CommitUnknown => result.Error? && Held() == old(Held()) && store.Mark() == Some(offer.last + 1)
                  case RolledBack => result.Error? && Held() == old(Held()) && store.Mark() == mark
      ensures result.Ok? ==> 1 <= result.value <= MAX_ID
    {
      if cancelled { return Error(Cancelled); }
      if next == 0 || next > last {
        var reserved := store.Reserve(segmentSize, ending);
        if reserved.Error? { return Error(reserved.error); }
        var segment := reserved.value;
        if !ValidSegment(segment, segmentSize as int) { return Error(InvalidSegment); }
        next := segment.first as Int64;
        last := segment.last as Int64;
      }
      var id := next;
      next := next + 1;
      return Ok(id);
    }
  }

  // ---- any number of generators over one mark ----

  /** A reservation in flight: its generator holds the allocator row from here to its end. */
  datatype Flight = Flight(generator: int, segment: Segment)

  /** `issued` is the history of issued ids with their generators, `abandoned` the ids that crashed or
      unknown reservations lost. */
  datatype System = System(
    mark: int,
    locals: map<int, Local>,
    booted: set<int>,
    flight: Option<Flight>,
    issued: seq<(int, int)>,
    abandoned: set<int>)

  datatype IdAction =
    | Boot(generator: int)
    | LockRow(generator: int, size: int)
    | Finish(ending: Ending)
    | Issue(generator: int)
    | Crash(generator: int)

  /** The ids of a segment. */
  function Span(first: int, last: int): (ids: set<int>)
    ensures forall id :: id in ids <==> first <= id <= last
    decreases last - first
  {
    if first > last then {} else {first} + Span(first + 1, last)
  }

  predicate IdEnabled(s: System, action: IdAction) {
    match action
    case Boot(g) => g !in s.booted
    case LockRow(g, size) =>
      g in s.locals && Empty(s.locals[g]) && s.flight.None? && 1 <= s.mark <= MAX_ID as int && 1 <= size <= MAX_SEGMENT as int
    case Finish(_) => s.flight.Some?
    case Issue(g) => g in s.locals && !Empty(s.locals[g]) && (s.flight.Some? ==> s.flight.value.generator != g)
    case Crash(g) => g in s.locals
  }

  /** A crash drops the local segment; if the generator was reserving, its transaction rolls back. */
  function IdStep(s: System, action: IdAction): System
    requires IdEnabled(s, action)
  {
    match action
    case Boot(g) => s.(locals := s.locals[g := FRESH], booted := s.booted + {g})
    case LockRow(g, size) => s.(flight := Some(Flight(g, Offer(s.mark, size))))
    case Finish(ending) =>
      var g, segment := s.flight.value.generator, s.flight.value.segment;
      match ending {
        case RolledBack => s.(flight := None)
        case CommitUnknown =>
          s.(flight := None, mark := segment.last + 1, abandoned := s.abandoned + Span(segment.first, segment.last))
        case Committed =>
          if g in s.locals then
            s.(flight := None, mark := segment.last + 1, locals := s.locals[g := Local(segment.first, segment.last)])
          else s.(flight := None)
      }
    case Issue(g) =>
      var id := s.locals[g].next;
      s.(locals := s.locals[g := s.locals[g].(next := id + 1)], issued := s.issued + [(g, id)])
    case Crash(g) =>
      s.(locals := s.locals - {g},
         flight := if s.flight.Some? && s.flight.value.generator == g then None else s.flight,
         abandoned := s.abandoned + if Empty(s.locals[g]) then {} else Span(s.locals[g].next, s.locals[g].last))
  }

  predicate HeldBy(s: System, g: int, id: int) {
    g in s.locals && !Empty(s.locals[g]) && s.locals[g].next <= id <= s.locals[g].last
  }

  predicate IssuedAt(s: System, k: int, id: int) {
    0 <= k < |s.issued| && s.issued[k].1 == id
  }

  ghost predicate WasIssued(s: System, id: int) {
    exists k :: IssuedAt(s, k, id)
  }

  ghost predicate IsHeld(s: System, id: int) {
    exists g :: HeldBy(s, g, id)
  }

  /** Every id below the mark has exactly one fate, and nothing at or above it has any. */
  ghost predicate Conserved(s: System, start: int) {
    && (forall id :: start <= id < s.mark ==> WasIssued(s, id) || IsHeld(s, id) || id in s.abandoned)
    && (forall id :: WasIssued(s, id) ==> start <= id < s.mark && !IsHeld(s, id) && id !in s.abandoned)
    && (forall id :: IsHeld(s, id) ==> start <= id < s.mark && id !in s.abandoned)
    && (forall id :: id in s.abandoned ==> start <= id < s.mark)
  }

  ghost predicate Unique(s: System) {
    && (forall i, j :: 0 <= i < j < |s.issued| ==> s.issued[i].1 != s.issued[j].1)
    && (forall g, h, id :: HeldBy(s, g, id) && HeldBy(s, h, id) ==> g == h)
  }

  /** The ids one generator has issued ascend, and lie below its next one. */
  ghost predicate IdsAscend(s: System) {
    && (forall i, j :: 0 <= i < j < |s.issued| && s.issued[i].0 == s.issued[j].0 ==> s.issued[i].1 < s.issued[j].1)
    && (forall k :: 0 <= k < |s.issued| && s.issued[k].0 in s.locals ==> s.issued[k].1 < s.locals[s.issued[k].0].next)
    && (forall k :: 0 <= k < |s.issued| ==> s.issued[k].0 in s.booted)
  }

  ghost predicate IdsOk(s: System, start: int) {
    && 1 <= start <= s.mark <= MAX_ID as int + 1
    && s.locals.Keys <= s.booted
    && (s.flight.Some? ==>
          && s.flight.value.generator in s.locals && Empty(s.locals[s.flight.value.generator])
          && s.flight.value.segment.first == s.mark <= s.flight.value.segment.last <= MAX_ID as int)
    && Conserved(s, start) && Unique(s) && IdsAscend(s)
  }

  lemma BootKeeps(s: System, start: int, g: int)
    requires IdsOk(s, start) && IdEnabled(s, Boot(g))
    ensures IdsOk(IdStep(s, Boot(g)), start)
  {
    var after := IdStep(s, Boot(g));
    SameFates(s, after);
  }

  /** Nothing is issued or held differently. */
  lemma SameFates(s: System, after: System)
    requires after.issued == s.issued
    requires forall g, id :: HeldBy(after, g, id) == HeldBy(s, g, id)
    ensures forall id :: WasIssued(after, id) == WasIssued(s, id) && IsHeld(after, id) == IsHeld(s, id)
  {
    assert forall k, id :: IssuedAt(after, k, id) == IssuedAt(s, k, id);
  }

  lemma LockRowKeeps(s: System, start: int, g: int, size: int)
    requires IdsOk(s, start) && IdEnabled(s, LockRow(g, size))
    ensures IdsOk(IdStep(s, LockRow(g, size)), start)
  {
    SameFates(s, IdStep(s, LockRow(g, size)));
  }

  /** A commit whose answer arrived hands the whole segment to its generator, which held nothing. */
  lemma CommitFates(s: System, start: int)
    requires IdsOk(s, start) && s.flight.Some?
    ensures var after, segment := IdStep(s, Finish(Committed)), s.flight.value.segment;
            && (forall id :: WasIssued(after, id) == WasIssued(s, id))
            && (forall id :: IsHeld(after, id) <==> IsHeld(s, id) || segment.first <= id <= segment.last)
            && (forall g, h, id :: HeldBy(after, g, id) && HeldBy(after, h, id) ==> g == h)
  {
    var after, g, segment := IdStep(s, Finish(Committed)), s.flight.value.generator, s.flight.value.segment;
    assert forall k, id :: IssuedAt(after, k, id) == IssuedAt(s, k, id);
    forall id
      ensures forall h :: HeldBy(after, h, id) <==> if h == g then segment.first <= id <= segment.last else HeldBy(s, h, id)
      ensures IsHeld(after, id) <==> IsHeld(s, id) || segment.first <= id <= segment.last
    {
      assert segment.first <= id <= segment.last ==> HeldBy(after, g, id);
      if IsHeld(s, id) {
        var h :| HeldBy(s, h, id);
        assert HeldBy(after, h, id);
      }
    }
    forall h, k, id | HeldBy(after, h, id) && HeldBy(after, k, id)
      ensures h == k
    {
      if h != g { assert HeldBy(s, h, id) && IsHeld(s, id); }
      if k != g { assert HeldBy(s, k, id) && IsHeld(s, id); }
    }
  }

  lemma FinishKeeps(s: System, start: int, ending: Ending)
    requires IdsOk(s, start) && IdEnabled(s, Finish(ending))
    ensures IdsOk(IdStep(s, Finish(ending)), start)
  {
    if ending == Committed {
      CommitFates(s, start);
      CommitAscends(s, start);
    } else {
      SameFates(s, IdStep(s, Finish(ending)));
    }
  }

  lemma CommitAscends(s: System, start: int)
    requires IdsOk(s, start) && s.flight.Some?
    ensures IdsAscend(IdStep(s, Finish(Committed)))
  {
    forall k | 0 <= k < |s.issued|
      ensures s.issued[k].1 < s.mark
    {
      assert IssuedAt(s, k, s.issued[k].1);
      assert WasIssued(s, s.issued[k].1);
    }
  }

  lemma IssueFates(s: System, start: int, g: int)
    requires IdsOk(s, start) && IdEnabled(s, Issue(g))
    ensures var after, next := IdStep(s, Issue(g)), s.locals[g].next;
            && (forall id :: WasIssued(after, id) <==> WasIssued(s, id) || id == next)
            && (forall id :: IsHeld(after, id) <==> IsHeld(s, id) && id != next)
            && (forall h, id :: HeldBy(after, h, id) ==> HeldBy(s, h, id))
  {
    var after, next := IdStep(s, Issue(g)), s.locals[g].next;
    assert HeldBy(s, g, next) && IsHeld(s, next);
    assert IssuedAt(after, |s.issued|, next);
    forall id
      ensures WasIssued(after, id) <==> WasIssued(s, id) || id == next
      ensures IsHeld(after, id) <==> IsHeld(s, id) && id != next
    {
      if WasIssued(s, id) {
        var k :| IssuedAt(s, k, id);
        assert IssuedAt(after, k, id);
      }
      if WasIssued(after, id) {
        var k :| IssuedAt(after, k, id);
        assert k < |s.issued| ==> IssuedAt(s, k, id);
      }
      if IsHeld(s, id) && id != next {
        var h :| HeldBy(s, h, id);
        assert HeldBy(after, h, id);
      }
      if IsHeld(after, id) {
        var h :| HeldBy(after, h, id);
        assert HeldBy(s, h, id);
        assert h != g ==> id != next;
      }
    }
  }

  lemma IssueKeeps(s: System, start: int, g: int)
    requires IdsOk(s, start) && IdEnabled(s, Issue(g))
    ensures IdsOk(IdStep(s, Issue(g)), start)
  {
    IssueFates(s, start, g);
    IssueOrders(s, start, g);
    assert HeldBy(s, g, s.locals[g].next) && IsHeld(s, s.locals[g].next);
  }

  lemma IssueOrders(s: System, start: int, g: int)
    requires IdsOk(s, start) && IdEnabled(s, Issue(g))
    ensures IdsAscend(IdStep(s, Issue(g)))
    ensures forall i, j :: 0 <= i < j < |s.issued| + 1 ==> IdStep(s, Issue(g)).issued[i].1 != IdStep(s, Issue(g)).issued[j].1
  {
    forall k | 0 <= k < |s.issued|
      ensures s.issued[k].1 != s.locals[g].next
    {
      assert IssuedAt(s, k, s.issued[k].1) && WasIssued(s, s.issued[k].1);
      assert HeldBy(s, g, s.locals[g].next);
    }
  }

  /** A crash turns what its generator held into abandoned ids. */
  lemma CrashFates(s: System, start: int, g: int)
    requires IdsOk(s, start) && IdEnabled(s, Crash(g))
    ensures var after := IdStep(s, Crash(g));
            && (forall id :: WasIssued(after, id) == WasIssued(s, id))
            && (forall id :: IsHeld(after, id) <==> IsHeld(s, id) && !HeldBy(s, g, id))
            && (forall h, id :: HeldBy(after, h, id) ==> HeldBy(s, h, id))
            && (forall id :: id in after.abandoned <==> id in s.abandoned || HeldBy(s, g, id))
  {
    var after := IdStep(s, Crash(g));
    assert forall k, id :: IssuedAt(after, k, id) == IssuedAt(s, k, id);
    forall id
      ensures IsHeld(after, id) <==> IsHeld(s, id) && !HeldBy(s, g, id)
    {
      if IsHeld(after, id) {
        var h :| HeldBy(after, h, id);
        assert HeldBy(s, h, id);
      }
      if IsHeld(s, id) && !HeldBy(s, g, id) {
        var h :| HeldBy(s, h, id);
        assert HeldBy(after, h, id);
      }
    }
  }

  lemma CrashKeeps(s: System, start: int, g: int)
    requires IdsOk(s, start) && IdEnabled(s, Crash(g))
    ensures IdsOk(IdStep(s, Crash(g)), start)
  {
    CrashFates(s, start, g);
    assert forall id :: HeldBy(s, g, id) ==> IsHeld(s, id);
  }

  lemma IdStepKeeps(s: System, start: int, action: IdAction)
    requires IdsOk(s, start) && IdEnabled(s, action)
    ensures IdsOk(IdStep(s, action), start)
  {
    match action
    case Boot(g) => BootKeeps(s, start, g);
    case LockRow(g, size) => LockRowKeeps(s, start, g, size);
    case Finish(ending) => FinishKeeps(s, start, ending);
    case Issue(g) => IssueKeeps(s, start, g);
    case Crash(g) => CrashKeeps(s, start, g);
  }

  function Initially(start: int): System {
    System(start, map[], {}, None, [], {})
  }

  ghost predicate IdRun(s: System, actions: seq<IdAction>, after: System)
    decreases |actions|
  {
    if actions == [] then after == s
    else IdEnabled(s, actions[0]) && IdRun(IdStep(s, actions[0]), actions[1..], after)
  }

  lemma {:induction false} RunsKeep(s: System, start: int, actions: seq<IdAction>, after: System)
    requires IdsOk(s, start) && IdRun(s, actions, after)
    ensures IdsOk(after, start)
    decreases |actions|
  {
    if actions != [] {
      IdStepKeeps(s, start, actions[0]);
      RunsKeep(IdStep(s, actions[0]), start, actions[1..], after);
    }
  }

  /** Conservation: after any interleaving, every id from the initial mark up to the stored one was issued
      once, or is held by one live generator, or is abandoned, and no two of these. */
  lemma Conservation(start: int, actions: seq<IdAction>, s: System, id: int)
    requires 1 <= start <= MAX_ID as int + 1
    requires IdRun(Initially(start), actions, s)
    ensures start <= id < s.mark <==> WasIssued(s, id) || IsHeld(s, id) || id in s.abandoned
    ensures !(WasIssued(s, id) && IsHeld(s, id)) && !(WasIssued(s, id) && id in s.abandoned) && !(IsHeld(s, id) && id in s.abandoned)
    ensures forall i, j :: IssuedAt(s, i, id) && IssuedAt(s, j, id) ==> i == j
    ensures forall g, h :: HeldBy(s, g, id) && HeldBy(s, h, id) ==> g == h
  {
    RunsKeep(Initially(start), start, actions, s);
    if WasIssued(s, id) {
      var k :| IssuedAt(s, k, id);
      assert s.issued[k].1 == id;
    }
  }

  /** Issued ids are positive and exact in a browser, never repeat, and ascend within one generator. */
  lemma IssuedIdsAscend(start: int, actions: seq<IdAction>, s: System, i: nat, j: nat)
    requires 1 <= start <= MAX_ID as int + 1
    requires IdRun(Initially(start), actions, s)
    requires i < j < |s.issued|
    ensures 1 <= s.issued[i].1 <= 9007199254740991
    ensures s.issued[i].1 != s.issued[j].1
    ensures s.issued[i].0 == s.issued[j].0 ==> s.issued[i].1 < s.issued[j].1
  {
    RunsKeep(Initially(start), start, actions, s);
    assert IssuedAt(s, i, s.issued[i].1) && WasIssued(s, s.issued[i].1);
  }

  /** The mark never moves back, never passes 2^53, and once exhausted no reservation ever starts again. */
  lemma {:induction false} ExhaustionIsFinal(s: System, start: int, actions: seq<IdAction>, after: System)
    requires IdsOk(s, start) && IdRun(s, actions, after)
    ensures s.mark <= after.mark <= 9007199254740992
    ensures s.mark == 9007199254740992 ==> forall k :: 0 <= k < |actions| ==> !actions[k].LockRow?
    decreases |actions|
  {
    if actions != [] {
      IdStepKeeps(s, start, actions[0]);
      ExhaustionIsFinal(IdStep(s, actions[0]), start, actions[1..], after);
      assert forall k :: 1 <= k < |actions| ==> actions[k] == actions[1..][k - 1];
    }
  }

  /** A generator that still holds ids can always issue the next one, in every reachable state. */
  lemma HeldCanBeIssued(s: System, start: int, g: int)
    requires IdsOk(s, start) && g in s.locals && 0 != s.locals[g].next <= s.locals[g].last
    ensures IdEnabled(s, Issue(g))
    ensures var after := IdStep(s, Issue(g));
            && after.issued == s.issued + [(g, s.locals[g].next)]
            && after.locals[g] == Local(s.locals[g].next + 1, s.locals[g].last) && after.mark == s.mark
  {
  }

  /** Until the ids are exhausted a fresh generator can always come up and issue one, whoever is reserving now:
      an interrupted reservation rolls back, and the new one hands out the stored mark. */
  lemma NewcomerCanIssue(s: System, start: int, g: int, size: int) returns (actions: seq<IdAction>, after: System)
    requires IdsOk(s, start) && g !in s.booted && s.mark <= 9007199254740991 && 1 <= size <= 1000000
    ensures IdRun(s, actions, after)
    ensures after.issued == s.issued + [(g, s.mark)]
  {
    var clearing := if s.flight.Some? then [Finish(RolledBack)] else [];
    var cleared := if s.flight.Some? then IdStep(s, Finish(RolledBack)) else s;
    if s.flight.Some? { IdStepKeeps(s, start, Finish(RolledBack)); }
    var booted := IdStep(cleared, Boot(g));
    IdStepKeeps(cleared, start, Boot(g));
    RefillIsNext(booted, start, g, size);
    var locked := IdStep(booted, LockRow(g, size));
    var refilled := IdStep(locked, Finish(Committed));
    after := IdStep(refilled, Issue(g));
    var serving := [Boot(g), LockRow(g, size), Finish(Committed), Issue(g)];
    actions := clearing + serving;
    assert serving[1..] == [LockRow(g, size), Finish(Committed), Issue(g)];
    assert serving[1..][1..] == [Finish(Committed), Issue(g)];
    assert serving[1..][1..][1..] == [Issue(g)];
    assert serving[1..][1..][1..][1..] == [];
    assert IdRun(refilled, [Issue(g)], after);
    assert IdRun(locked, serving[1..][1..], after);
    assert IdRun(booted, serving[1..], after);
    assert IdRun(cleared, serving, after);
    assert s.flight.Some? ==> actions[0] == Finish(RolledBack) && actions[1..] == serving;
    assert s.flight.None? ==> actions == serving;
  }

  /** An uninterrupted refill of the machine does what Generator.Next does. */
  lemma RefillIsNext(s: System, start: int, g: int, size: int)
    requires IdsOk(s, start) && g in s.locals && (s.locals[g].next == 0 || s.locals[g].next > s.locals[g].last)
    requires s.flight.None? && s.mark <= 9007199254740991 && 1 <= size <= 1000000
    ensures IdEnabled(s, LockRow(g, size))
    ensures var offer := Offer(s.mark, size);
            var locked := IdStep(s, LockRow(g, size));
            && IdEnabled(locked, Finish(Committed))
            && var refilled := IdStep(locked, Finish(Committed));
            && IdEnabled(refilled, Issue(g))
            && var after := IdStep(refilled, Issue(g));
            && after.locals[g] == Local(offer.first + 1, offer.last)
            && after.mark == offer.last + 1
            && after.issued == s.issued + [(g, offer.first)]
  {
  }
}

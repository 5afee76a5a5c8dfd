/** The calendar-block table and its interval queries. */
module CalendarBlockRepo {
  import opened Common
  import opened Seqs
  import opened CalendarBlockEntity

  datatype CreateCalendarBlockInput = CreateCalendarBlockInput(
    userId: Id,
    title: string,
    startTime: Instant,
    endTime: Instant,
    blockType: Option<BlockType>,
    isRecurring: Option<bool>,
    recurrence: Option<Recurrence>)

  /** `recurrence` may be cleared: `Some(None)` writes null, `None` leaves it alone. */
  datatype UpdateCalendarBlockInput = UpdateCalendarBlockInput(
    title: Option<string>,
    startTime: Option<Instant>,
    endTime: Option<Instant>,
    blockType: Option<BlockType>,
    isRecurring: Option<bool>,
    recurrence: Option<Option<Recurrence>>)

  function IdOf(b: CalendarBlock): Id { b.id }
  function HasId(id: Id): CalendarBlock -> bool { (b: CalendarBlock) => b.id == id }
  function OfUser(userId: Id): CalendarBlock -> bool { (b: CalendarBlock) => b.userId == userId }

  /** Where clause of `findByDateRange`: starts in [startDate, endDate). */
  function StartsIn(userId: Id, startDate: Instant, endDate: Instant): CalendarBlock -> bool {
    (b: CalendarBlock) => b.userId == userId && startDate <= b.startTime < endDate
  }

  /** Where clause of `findOverlapping`. */
  function OverlapsRange(userId: Id, startTime: Instant, endTime: Instant, excludeId: Option<Id>): CalendarBlock -> bool {
    (b: CalendarBlock) =>
      b.userId == userId && (excludeId.None? || b.id != excludeId.value)
      && b.startTime < endTime && b.endTime > startTime
  }

  /** `orderBy: { startTime: 'asc' }`. */
  function StartAsc(a: CalendarBlock, b: CalendarBlock): bool { a.startTime <= b.startTime }

  predicate TableValid(blocks: seq<CalendarBlock>, nextId: Id) {
    KeysUnique(blocks, IdOf) && IdsBelow(blocks, IdOf, nextId)
  }

  /** The block `create` stores: type PRIORITY and not recurring unless given. */
  function NewBlock(id: Id, data: CreateCalendarBlockInput): (b: CalendarBlock)
    ensures b.id == id && b.userId == data.userId && b.title == data.title
    ensures b.startTime == data.startTime && b.endTime == data.endTime && b.recurrence == data.recurrence
    ensures b.blockType == (if data.blockType.Some? then data.blockType.value else Priority)
    ensures b.isRecurring == (data.isRecurring == Some(true))
  {
    CalendarBlock(id, data.userId, data.title, data.startTime, data.endTime,
                  data.blockType.GetOr(Priority), data.isRecurring.GetOr(false), data.recurrence)
  }

  /** The block `update` writes: the provided fields and nothing else. */
  function ApplyUpdate(b: CalendarBlock, data: UpdateCalendarBlockInput): (c: CalendarBlock)
    ensures c.id == b.id && c.userId == b.userId
    ensures c.title == (if data.title.Some? then data.title.value else b.title)
    ensures c.startTime == (if data.startTime.Some? then data.startTime.value else b.startTime)
    ensures c.endTime == (if data.endTime.Some? then data.endTime.value else b.endTime)
    ensures c.blockType == (if data.blockType.Some? then data.blockType.value else b.blockType)
    ensures c.isRecurring == (if data.isRecurring.Some? then data.isRecurring.value else b.isRecurring)
    ensures c.recurrence == (if data.recurrence.Some? then data.recurrence.value else b.recurrence)
  {
    CalendarBlock(b.id, b.userId, data.title.GetOr(b.title), data.startTime.GetOr(b.startTime),
                  data.endTime.GetOr(b.endTime), data.blockType.GetOr(b.blockType),
                  data.isRecurring.GetOr(b.isRecurring), data.recurrence.GetOr(b.recurrence))
  }

  class CalendarBlockRepository {
    var blocks: seq<CalendarBlock>
    var nextId: Id

    predicate Valid()
      reads this
    {
      TableValid(blocks, nextId)
    }

    constructor()
      ensures Valid() && blocks == []
    {
      blocks := [];
      nextId := 0;
    }

    function FindById(id: Id): (r: Option<CalendarBlock>)
      reads this
      ensures r.Some? ==> r.value in blocks && r.value.id == id
      ensures r.None? ==> forall b :: b in blocks ==> b.id != id
    {
      Find(blocks, HasId(id))
    }

    /** All of the user's blocks, earliest first. */
    function FindByUser(userId: Id): (r: seq<CalendarBlock>)
      reads this
      ensures multiset(r) == multiset(Filter(blocks, OfUser(userId)))
      ensures forall b :: b in r <==> b in blocks && b.userId == userId
      ensures Sorted(r, StartAsc)
    {
      var r := SortBy(Filter(blocks, OfUser(userId)), StartAsc);
      r
    }

    /** The user's blocks starting in the half-open range [startDate, endDate), earliest
        first. */
    function FindByDateRange(userId: Id, startDate: Instant, endDate: Instant): (r: seq<CalendarBlock>)
      reads this
      ensures multiset(r) == multiset(Filter(blocks, StartsIn(userId, startDate, endDate)))
      ensures forall b :: b in r <==> b in blocks && b.userId == userId && startDate <= b.startTime < endDate
      ensures Sorted(r, StartAsc)
    {
      var r := SortBy(Filter(blocks, StartsIn(userId, startDate, endDate)), StartAsc);
      r
    }

    /** The user's blocks that overlap [startTime, endTime), leaving out `excludeId`. */
    function FindOverlapping(userId: Id, startTime: Instant, endTime: Instant, excludeId: Option<Id>): (r: seq<CalendarBlock>)
      reads this
      ensures forall b :: b in r <==>
        b in blocks && b.userId == userId && (excludeId.Some? ==> b.id != excludeId.value)
        && BlocksOverlap(b.startTime, b.endTime, startTime, endTime)
    {
      Filter(blocks, OverlapsRange(userId, startTime, endTime, excludeId))
    }

    method Create(data: CreateCalendarBlockInput) returns (b: CalendarBlock)
      requires Valid()
      modifies this
      ensures Valid()
      ensures b == NewBlock(old(nextId), data)
      ensures blocks == old(blocks) + [b] && nextId == old(nextId) + 1
    {
      b := NewBlock(nextId, data);
      blocks := blocks + [b];
      nextId := nextId + 1;
    }

    /** `update`; a missing id is an error and changes nothing. */
    method Update(id: Id, data: UpdateCalendarBlockInput) returns (r: Option<CalendarBlock>)
      requires Valid()
      modifies this
      ensures Valid() && nextId == old(nextId)
      ensures r.None? <==> old(FindById(id)).None?
      ensures r.None? ==> blocks == old(blocks)
      ensures r.Some? ==>
        var i := IndexWhere(old(blocks), HasId(id));
        0 <= i && r.value == ApplyUpdate(old(blocks)[i], data) && blocks == old(blocks)[i := r.value]
    {
      var i := IndexWhere(blocks, HasId(id));
      if i == -1 {
        return None;
      }
      var c := ApplyUpdate(blocks[i], data);
      blocks := blocks[i := c];
      r := Some(c);
    }

    /** `delete`; a missing id is an error and changes nothing. */
    method Delete(id: Id) returns (deleted: bool)
      requires Valid()
      modifies this
      ensures Valid() && nextId == old(nextId)
      ensures deleted <==> old(FindById(id)).Some?
      ensures !deleted ==> blocks == old(blocks)
      ensures deleted ==> blocks == RemoveAt(old(blocks), IndexWhere(old(blocks), HasId(id)))
    {
      var i := IndexWhere(blocks, HasId(id));
      if i == -1 {
        return false;
      }
      blocks := RemoveAt(blocks, i);
      deleted := true;
    }
  }

  /** A range query over a week is the part of the user's listing that starts in it. */
  lemma DateRangeWithinUser(repo: CalendarBlockRepository, userId: Id, startDate: Instant, endDate: Instant)
    ensures forall b :: b in repo.FindByDateRange(userId, startDate, endDate) ==> b in repo.FindByUser(userId)
    ensures |repo.FindByDateRange(userId, startDate, endDate)| <= |repo.FindByUser(userId)|
  {
    FilterNarrower(repo.blocks, userId, startDate, endDate);
  }

  lemma {:induction false} FilterNarrower(s: seq<CalendarBlock>, userId: Id, startDate: Instant, endDate: Instant)
    ensures |Filter(s, StartsIn(userId, startDate, endDate))| <= |Filter(s, OfUser(userId))|
  {
    if s != [] {
      FilterNarrower(s[1..], userId, startDate, endDate);
    }
  }
}

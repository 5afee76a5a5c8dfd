/** The calendar-blocking use cases: reserve a block of time that clashes with none of the
    user's blocks, delete a block and list blocks. Together they keep every user's blocks
    pairwise disjoint. */
module CalendarBlockUseCases {
  import opened Common
  import opened Results
  import opened DomainErrors
  import opened Seqs
  import opened Strings
  import opened CalendarBlockEntity
  import opened CalendarBlockRepo

  const INVALID_RANGE_MESSAGE: string := "La hora de fin debe ser posterior a la de inicio"

  datatype CreateCalendarBlockDto = CreateCalendarBlockDto(
    title: string,
    startTime: Instant,
    endTime: Instant,
    blockType: Option<BlockType>,
    isRecurring: Option<bool>,
    recurrence: Option<Recurrence>)

  /** `CalendarBlockResponseDto`: the block with its length in minutes. */
  datatype CalendarBlockResponse = CalendarBlockResponse(
    id: Id,
    title: string,
    startTime: Instant,
    endTime: Instant,
    durationMinutes: int,
    blockType: BlockType,
    isRecurring: bool,
    recurrence: Option<Recurrence>)

  function ToResponse(b: CalendarBlock): (d: CalendarBlockResponse)
    ensures d.id == b.id && d.title == b.title && d.startTime == b.startTime && d.endTime == b.endTime
    ensures d.durationMinutes == BlockDuration(b.startTime, b.endTime)
    ensures d.blockType == b.blockType && d.isRecurring == b.isRecurring && d.recurrence == b.recurrence
  {
    CalendarBlockResponse(b.id, b.title, b.startTime, b.endTime, BlockDuration(b.startTime, b.endTime),
                          b.blockType, b.isRecurring, b.recurrence)
  }

  /** No two blocks of the same user overlap. */
  predicate Disjoint(blocks: seq<CalendarBlock>) {
    forall i, j :: 0 <= i < j < |blocks| && blocks[i].userId == blocks[j].userId ==>
      !BlocksOverlap(blocks[i].startTime, blocks[i].endTime, blocks[j].startTime, blocks[j].endTime)
  }

  /** Some block of the user overlaps [startTime, endTime). */
  predicate Clashes(blocks: seq<CalendarBlock>, userId: Id, startTime: Instant, endTime: Instant) {
    exists b :: b in blocks && b.userId == userId && BlocksOverlap(b.startTime, b.endTime, startTime, endTime)
  }

  /** Appending a block that clashes with none of its owner's blocks keeps the table
      disjoint. */
  lemma AppendKeepsDisjoint(blocks: seq<CalendarBlock>, b: CalendarBlock)
    requires Disjoint(blocks) && !Clashes(blocks, b.userId, b.startTime, b.endTime)
    ensures Disjoint(blocks + [b])
  {
    var s := blocks + [b];
    forall i, j | 0 <= i < j < |s| && s[i].userId == s[j].userId
      ensures !BlocksOverlap(s[i].startTime, s[i].endTime, s[j].startTime, s[j].endTime)
    {
      if j == |blocks| {
        assert s[i] in blocks;
      }
    }
  }

  /** Removing a block keeps the table disjoint. */
  lemma RemoveKeepsDisjoint(blocks: seq<CalendarBlock>, i: nat)
    requires i < |blocks| && Disjoint(blocks)
    ensures Disjoint(RemoveAt(blocks, i))
  {
    var s := RemoveAt(blocks, i);
    forall a, b | 0 <= a < b < |s| && s[a].userId == s[b].userId
      ensures !BlocksOverlap(s[a].startTime, s[a].endTime, s[b].startTime, s[b].endTime)
    {
      var a' := if a < i then a else a + 1;
      var b' := if b < i then b else b + 1;
      assert s[a] == blocks[a'] && s[b] == blocks[b'] && a' < b';
    }
  }

  /** The record `CreateCalendarBlockUseCase` hands to the repository: the title trimmed,
      the rest as given. */
  function CreateInput(userId: Id, dto: CreateCalendarBlockDto): (data: CreateCalendarBlockInput)
    ensures data.userId == userId && data.title == Trim(dto.title)
    ensures data.startTime == dto.startTime && data.endTime == dto.endTime
    ensures data.blockType == dto.blockType && data.isRecurring == dto.isRecurring && data.recurrence == dto.recurrence
  {
    CreateCalendarBlockInput(userId, Trim(dto.title), dto.startTime, dto.endTime, dto.blockType, dto.isRecurring,
                             dto.recurrence)
  }

  /** `CreateCalendarBlockUseCase.execute`. A range that does not end after it starts is
      rejected, then one that overlaps any of the user's blocks (other users' blocks never
      count, and a block that merely touches another does not overlap it); either failure
      creates nothing. A user's blocks that were disjoint stay disjoint. */
  method CreateCalendarBlock(repo: CalendarBlockRepository, userId: Id, dto: CreateCalendarBlockDto)
    returns (r: Result<CalendarBlockResponse, DomainError>)
    requires repo.Valid()
    modifies repo
    ensures repo.Valid()
    ensures r.Failure? ==> repo.blocks == old(repo.blocks) && repo.nextId == old(repo.nextId)
    ensures !IsValidTimeRange(dto.startTime, dto.endTime) ==> r == Failure(Validation(INVALID_RANGE_MESSAGE))
    ensures (IsValidTimeRange(dto.startTime, dto.endTime) && old(Clashes(repo.blocks, userId, dto.startTime, dto.endTime)))
              ==> r == Failure(CalendarBlockOverlap)
    ensures (IsValidTimeRange(dto.startTime, dto.endTime) && !old(Clashes(repo.blocks, userId, dto.startTime, dto.endTime)))
              ==> var b := NewBlock(old(repo.nextId), CreateInput(userId, dto));
                  repo.blocks == old(repo.blocks) + [b] && r == Success(ToResponse(b))
    ensures old(Disjoint(repo.blocks)) ==> Disjoint(repo.blocks)
  {
    if !IsValidTimeRange(dto.startTime, dto.endTime) {
      return Failure(Validation(INVALID_RANGE_MESSAGE));
    }
    var overlapping := repo.FindOverlapping(userId, dto.startTime, dto.endTime, None);
    if |overlapping| > 0 {
      assert overlapping[0] in overlapping;
      return Failure(CalendarBlockOverlap);
    }
    assert !Clashes(repo.blocks, userId, dto.startTime, dto.endTime) by {
      forall b | b in repo.blocks && b.userId == userId
        ensures !BlocksOverlap(b.startTime, b.endTime, dto.startTime, dto.endTime)
      {
        assert b !in overlapping;
      }
    }
    ghost var before := repo.blocks;
    var b := repo.Create(CreateInput(userId, dto));
    if Disjoint(before) {
      AppendKeepsDisjoint(before, b);
    }
    r := Success(ToResponse(b));
  }

  /** `DeleteCalendarBlockUseCase.execute`: ownership first; on success exactly that block
      is gone, and disjoint blocks stay disjoint. */
  method DeleteCalendarBlock(repo: CalendarBlockRepository, userId: Id, blockId: Id) returns (r: Result<(), DomainError>)
    requires repo.Valid()
    modifies repo
    ensures repo.Valid() && repo.nextId == old(repo.nextId)
    ensures var existing := old(repo.FindById(blockId));
            && (existing.None? || existing.value.userId != userId ==>
                  r == Failure(CalendarBlockNotFound) && repo.blocks == old(repo.blocks))
            && (existing.Some? && existing.value.userId == userId ==>
                  r == Success(()) && repo.blocks == RemoveAt(old(repo.blocks), IndexWhere(old(repo.blocks), HasId(blockId))))
    ensures old(Disjoint(repo.blocks)) ==> Disjoint(repo.blocks)
  {
    var existing := repo.FindById(blockId);
    if existing.None? || existing.value.userId != userId {
      return Failure(CalendarBlockNotFound);
    }
    ghost var before := repo.blocks;
    ghost var i := IndexWhere(repo.blocks, HasId(blockId));
    var deleted := repo.Delete(blockId);
    if !deleted {
      assert false;
    }
    if Disjoint(before) {
      RemoveKeepsDisjoint(before, i);
    }
    r := Success(());
  }

  /** A block the listing asked for holds: the user's, and starting in [startDate,
      endDate) when both dates are given. */
  predicate Listed(b: CalendarBlock, userId: Id, startDate: Option<Instant>, endDate: Option<Instant>) {
    b.userId == userId && (startDate.Some? && endDate.Some? ==> startDate.value <= b.startTime < endDate.value)
  }

  /** The blocks `GetCalendarBlocksUseCase` fetches: those starting in [startDate, endDate)
      when both dates are given, all of the user's otherwise; by start time. */
  function Listing(repo: CalendarBlockRepository, userId: Id, startDate: Option<Instant>, endDate: Option<Instant>)
    : (bs: seq<CalendarBlock>)
    reads repo
    ensures forall b :: b in bs <==> b in repo.blocks && Listed(b, userId, startDate, endDate)
    ensures Sorted(bs, StartAsc)
  {
    if startDate.Some? && endDate.Some? then repo.FindByDateRange(userId, startDate.value, endDate.value)
    else repo.FindByUser(userId)
  }

  /** One response per block, in the blocks' order; start-time order carries over. */
  function Responses(bs: seq<CalendarBlock>): (r: seq<CalendarBlockResponse>)
    ensures |r| == |bs|
    ensures forall k :: 0 <= k < |bs| ==> r[k] == ToResponse(bs[k])
    ensures forall b :: b in bs ==> ToResponse(b) in r
    ensures forall d :: d in r ==> exists b :: b in bs && d == ToResponse(b)
    ensures Sorted(bs, StartAsc) ==> forall i, j :: 0 <= i < j < |r| ==> r[i].startTime <= r[j].startTime
  {
    var r := seq(|bs|, k requires 0 <= k < |bs| => ToResponse(bs[k]));
    assert forall k :: 0 <= k < |bs| ==> r[k] == ToResponse(bs[k]) && r[k] in r && bs[k] in bs;
    assert Sorted(bs, StartAsc) ==> forall i, j :: 0 <= i < j < |bs| ==> StartAsc(bs[i], bs[j]);
    r
  }

  /** `GetCalendarBlocksUseCase.execute`: one response per listed block, in start-time
      order, each with its length in minutes. It never fails. */
  function GetCalendarBlocks(repo: CalendarBlockRepository, userId: Id, startDate: Option<Instant>, endDate: Option<Instant>)
    : (r: Result<seq<CalendarBlockResponse>, DomainError>)
    reads repo
    ensures r.Success?
    ensures forall d :: d in r.value ==>
              exists b :: b in repo.blocks && Listed(b, userId, startDate, endDate) && d == ToResponse(b)
    ensures forall b :: b in repo.blocks && Listed(b, userId, startDate, endDate) ==> ToResponse(b) in r.value
    ensures forall i, j :: 0 <= i < j < |r.value| ==> r.value[i].startTime <= r.value[j].startTime
  {
    Success(Responses(Listing(repo, userId, startDate, endDate)))
  }
}

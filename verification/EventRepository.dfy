/** The event repository and an opened stream, as objects whose methods change them step by step. */
module EventTables {
  import opened Results
  import opened Ordered
  import opened EventLog
  import opened EventStream

  class EventRepository {
    var next: nat
    var rows: map<nat, Row>
    var last: nat

    ghost predicate Valid()
      reads this
    {
      1 <= next && forall id :: id in rows ==> id < next
    }

    constructor ()
      ensures Valid() && rows == map[] && last == 0
    {
      next, rows, last := 1, map[], 0;
    }

    /** The log between two transactions. */
    function Snapshot(): Log
      reads this
    {
      Log(next, map[], rows, last, None)
    }

    /** One event appended by a transaction that commits. */
    method Append(content: Content)
      requires Valid() && next <= MaxId
      modifies this
      ensures Valid()
      ensures Snapshot() == CommitRows(EventLog.Append(old(Snapshot()), content), {old(next)})
    {
      rows := rows[next := Row(content, None)];
      next := next + 1;
      assert Snapshot().rows == CommitRows(EventLog.Append(old(Snapshot()), content), {old(next)}).rows;
    }

    /**
     * Numbers the unpublished rows one by one in the order of their ids. When a number does not fit
     * the transaction is rolled back.
     */
    method PublishPending() returns (result: Result<(), EventError>)
      requires Valid()
      modifies this`rows, this`last
      ensures Valid()
      ensures result.Err? <==> old(last + |Pending(rows)|) > MaxId && old(Pending(rows)) != {}
      ensures result.Err? ==> Snapshot() == old(Snapshot())
      ensures result.Ok? ==> Snapshot() == old(Publish(Snapshot().(publishing := Some(Pending(rows)))))
      ensures result.Ok? ==> Pending(rows) == {}
    {
      if Pending(rows) == {} {
        assert Numbered(rows, {}, last) == rows;
        return Ok(());
      }
      var numbered := NumberBatch(rows, last);
      match numbered
      case Err(error) =>
        return Err(error);
      case Ok(published) =>
        last := last + |Pending(rows)|;
        NonePending(rows, last);
        rows := published;
        return Ok(());
    }

    /** The events after an id, of which the pending ones are published first. */
    method ListAfter(eventId: int, limit: nat) returns (result: Result<seq<AppEvent>, EventError>)
      requires Valid()
      modifies this`rows, this`last
      ensures Valid()
      ensures result.Err? ==> Snapshot() == old(Snapshot()) && old(last + |Pending(rows)|) > MaxId
      ensures result.Ok? ==> Pending(rows) == {} && result.value == Query(rows, eventId, limit)
      ensures result.Ok? ==> Snapshot() == old(Publish(Snapshot().(publishing := Some(Pending(rows)))))
    {
      var published := PublishPending();
      if published.Err? {
        return Err(published.error);
      }
      return Ok(Query(rows, eventId, limit));
    }

    /** What a reader missed since `lastEventId`, when the log can tell. */
    method ReplayWindow(lastEventId: Option<int>, limit: int) returns (result: Result<ReplayWindow, EventError>)
      requires Valid()
      modifies this`rows, this`last
      ensures Valid()
      ensures limit <= 0 ==> result == Err(LimitNotPositive)
      ensures result.Err? ==> Snapshot() == old(Snapshot())
      ensures result.Ok? ==> Pending(rows) == {}
      ensures result.Ok? ==> result == Replay(BoundaryOf(rows), rows, lastEventId, limit)
    {
      if limit <= 0 {
        return Err(LimitNotPositive);
      }
      var published := PublishPending();
      if published.Err? {
        return Err(published.error);
      }
      var window := ReadWindow(rows, lastEventId, limit);
      return Ok(window);
    }
  }

  method ReadWindow(rows: map<nat, Row>, lastEventId: Option<int>, limit: int) returns (window: ReplayWindow)
    requires limit > 0
    ensures Replay(BoundaryOf(rows), rows, lastEventId, limit) == Ok(window)
  {
    var boundary := BoundaryOf(rows);
    if boundary.Empty? || lastEventId.None? || lastEventId.value <= 0 {
      return Window([], boundary, false, false);
    }
    var requested := lastEventId.value;
    if requested < boundary.oldest - 1 || requested > boundary.latest {
      return Window([], boundary, true, false);
    }
    var effective := Capped(limit, MaxReplayLimit);
    var found := Query(rows, requested, effective + 1);
    return Window(found[..Capped(|found|, effective)], boundary, false, |found| > effective);
  }

  /** `ids` lists `batch` in ascending order, said by position. */
  ghost predicate Ranked(batch: set<nat>, ids: seq<nat>) {
    && |ids| == |batch|
    && (forall k :: 0 <= k < |ids| ==> ids[k] in batch && Rank(batch, ids[k]) == k)
    && (forall id :: id in batch ==> Rank(batch, id) < |ids| && ids[Rank(batch, id)] == id)
  }

  lemma SortedIsRanked(batch: set<nat>)
    ensures Ranked(batch, Sorted(batch))
  {
    var ids := Sorted(batch);
    forall k | 0 <= k < |ids|
      ensures ids[k] in batch && Rank(batch, ids[k]) == k
    {
      SortedRank(batch, k);
    }
    forall id | id in batch
      ensures Rank(batch, id) < |ids| && ids[Rank(batch, id)] == id
    {
      RankWithin(batch, id);
    }
  }

  method NumberBatch(rows: map<nat, Row>, last: nat) returns (result: Result<map<nat, Row>, EventError>)
    ensures result.Err? <==> last + |Pending(rows)| > MaxId && Pending(rows) != {}
    ensures result.Ok? ==> result.value == Numbered(rows, Pending(rows), last)
  {
    SortedIsRanked(Pending(rows));
    result := NumberRows(rows, Pending(rows), Sorted(Pending(rows)), last);
  }

  /** Numbers the listed rows one by one; fails as soon as a number does not fit. */
  method NumberRows(rows: map<nat, Row>, ghost batch: set<nat>, ids: seq<nat>, last: nat)
    returns (result: Result<map<nat, Row>, EventError>)
    requires Ranked(batch, ids) && batch <= rows.Keys
    ensures result.Err? <==> last + |batch| > MaxId && batch != {}
    ensures result.Ok? ==> result.value == Numbered(rows, batch, last)
  {
    var published, publishedId := rows, last;
    var k := 0;
    while k < |ids|
      invariant 0 <= k <= |ids| && publishedId == last + k
      invariant published == NumberedFirst(rows, batch, last, k)
      invariant k > 0 ==> publishedId <= MaxId
    {
      if publishedId >= MaxId {
        return Err(PublicationOverflow);
      }
      publishedId := publishedId + 1;
      NumberNext(rows, batch, last, k, ids[k]);
      published := published[ids[k] := published[ids[k]].(published := Some(publishedId))];
      k := k + 1;
    }
    NumberedAll(rows, batch, ids, last);
    return Ok(published);
  }

  /** `rows` with the first `k` rows of `batch` numbered upwards from `last`. */
  function NumberedFirst(rows: map<nat, Row>, batch: set<nat>, last: nat, k: nat): map<nat, Row>
    requires k <= |batch|
  {
    map id | id in rows ::
      if id in batch && Rank(batch, id) < k then rows[id].(published := Some(last + 1 + Rank(batch, id))) else rows[id]
  }

  lemma NumberNext(rows: map<nat, Row>, batch: set<nat>, last: nat, k: nat, id: nat)
    requires k < |batch| && batch <= rows.Keys && id in batch && Rank(batch, id) == k
    requires forall x :: x in batch && Rank(batch, x) == k ==> x == id
    ensures var before := NumberedFirst(rows, batch, last, k);
      && id in before
      && before[id := before[id].(published := Some(last + 1 + k))] == NumberedFirst(rows, batch, last, k + 1)
  {
  }

  lemma NumberedAll(rows: map<nat, Row>, batch: set<nat>, ids: seq<nat>, last: nat)
    requires Ranked(batch, ids)
    ensures NumberedFirst(rows, batch, last, |batch|) == Numbered(rows, batch, last)
  {
  }

  lemma NonePending(rows: map<nat, Row>, last: nat)
    ensures Pending(Numbered(rows, Pending(rows), last)) == {}
  {
  }

  class OpenedEventStream {
    const repository: EventRepository
    const batchLimit: nat
    var cursor: int
    var pending: seq<StreamEvent>

    /** The stream as the reader of the log that it is; what it delivered is not stored. */
    function Reading(delivered: seq<AppEvent>, origin: int): Reader
      reads this
    {
      Reader.Reading(cursor, pending, delivered, origin)
    }

    constructor (repository: EventRepository, batchLimit: nat, window: ReplayWindow, lastEventId: Option<int>)
      ensures this.repository == repository && this.batchLimit == batchLimit
      ensures cursor == InitialCursor(window, lastEventId) && pending == InitialPending(window)
    {
      this.repository, this.batchLimit := repository, batchLimit;
      cursor := InitialCursor(window, lastEventId);
      pending := if window.snapshotRefresh
        then [SnapshotRefresh(if window.boundary.Span? then window.boundary.latest else 0)]
        else AsPending(window.events);
    }

    /**
     * One turn of the stream's loop: the next event if one is waiting, and otherwise a poll, after
     * which the loop turns again unless the poll failed.
     */
    method Turn() returns (item: Option<Result<StreamEvent, EventError>>)
      requires repository.Valid()
      modifies this`cursor, this`pending, repository`rows, repository`last
      ensures repository.Valid()
      ensures old(pending) != [] ==>
        && item == Some(Ok(old(pending)[0]))
        && repository.Snapshot() == old(repository.Snapshot())
        && forall delivered, origin ::
             && Reading(delivered, origin).pending == Pop(old(Reading(delivered, origin))).pending
             && Reading(delivered, origin).cursor == Pop(old(Reading(delivered, origin))).cursor
      ensures old(pending) == [] && item.None? ==>
        && Pending(repository.rows) == {}
        && forall delivered, origin ::
             Reading(delivered, origin) == Poll(old(Reading(delivered, origin)), repository.rows, batchLimit)
      ensures old(pending) == [] && item.Some? ==>
        && item.value.Err?
        && cursor == old(cursor) && pending == []
        && repository.Snapshot() == old(repository.Snapshot())
    {
      if pending != [] {
        var event := pending[0];
        pending := pending[1..];
        if event.Event? {
          cursor := event.event.id;
        }
        return Some(Ok(event));
      }
      var listed := repository.ListAfter(cursor, batchLimit);
      match listed
      case Ok(events) =>
        pending := pending + AsPending(events);
        return None;
      case Err(error) =>
        return Some(Err(error));
    }
  }

  /** Opens a stream: a replay of what was missed, then whatever is published. */
  method OpenAfter(repository: EventRepository, lastEventId: Option<int>, batchLimit: nat)
    returns (result: Result<OpenedEventStream, EventError>)
    requires repository.Valid() && batchLimit > 0
    modifies repository`rows, repository`last
    ensures repository.Valid()
    ensures result.Err? ==> repository.Snapshot() == old(repository.Snapshot())
    ensures result.Ok? ==>
      && fresh(result.value) && result.value.repository == repository && Pending(repository.rows) == {}
      && result.value.Reading([], Origin(BoundaryOf(repository.rows), lastEventId))
         == Open(Opening(lastEventId, BoundaryOf(repository.rows)), repository.rows, batchLimit)
  {
    var window := repository.ReplayWindow(lastEventId, batchLimit);
    match window
    case Err(error) =>
      return Err(error);
    case Ok(replay) =>
      var stream := new OpenedEventStream(repository, batchLimit, replay, lastEventId);
      return Ok(stream);
  }
}

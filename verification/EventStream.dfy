/**
 * Resumable streams over the event log. A reader opens with the last publication id it saw, is
 * handed a replay of what it missed, and then polls; the log moves on between any two of its reads.
 */
module EventStream {
  import opened Results
  import opened Ordered
  import opened EventLog

  const MaxReplayLimit: nat := 1000

  datatype AppEvent = AppEvent(id: nat, content: Content)

  datatype StreamEvent = Event(event: AppEvent) | SnapshotRefresh(latest: nat)

  datatype EventError = LimitNotPositive | PublicationOverflow

  /** The least and the greatest publication id, when there are any. */
  datatype Boundary = Empty | Span(oldest: nat, latest: nat)

  datatype ReplayWindow = Window(events: seq<AppEvent>, boundary: Boundary, snapshotRefresh: bool, hasMore: bool)

  // ----- Queries -----------------------------------------------------------------------------

  function After(rows: map<nat, Row>, cursor: int): set<nat> {
    set p | p in Published(rows) && p > cursor
  }

  function Holders(rows: map<nat, Row>, p: nat): set<nat> {
    set id | id in rows && rows[id].published == Some(p)
  }

  function EventAt(rows: map<nat, Row>, p: nat): AppEvent
    requires p in Published(rows)
  {
    var id :| id in rows && rows[id].published == Some(p);
    assert id in Holders(rows, p);
    AppEvent(p, rows[Min(Holders(rows, p))].content)
  }

  function EventsAt(rows: map<nat, Row>, ids: seq<nat>): seq<AppEvent>
    requires forall p :: p in ids ==> p in Published(rows)
  {
    seq(|ids|, i requires 0 <= i < |ids| => EventAt(rows, ids[i]))
  }

  function Capped(n: nat, limit: nat): nat {
    if n < limit then n else limit
  }

  /** `WHERE published_id > cursor ORDER BY published_id LIMIT limit` */
  function Query(rows: map<nat, Row>, cursor: int, limit: nat): seq<AppEvent> {
    var ids := Sorted(After(rows, cursor));
    assert forall p :: p in ids[..Capped(|ids|, limit)] ==> p in ids;
    EventsAt(rows, ids[..Capped(|ids|, limit)])
  }

  function BoundaryOf(rows: map<nat, Row>): Boundary {
    var ids := Sorted(Published(rows));
    if ids == [] then Empty else Span(ids[0], ids[|ids| - 1])
  }

  /** The replay computed from a boundary read first and rows read afterwards. */
  function Replay(boundary: Boundary, rows: map<nat, Row>, requested: Option<int>, limit: int)
    : Result<ReplayWindow, EventError>
  {
    if limit <= 0 then Err(LimitNotPositive)
    else if boundary.Empty? || requested.None? || requested.value <= 0 then
      Ok(Window([], boundary, false, false))
    else if requested.value < boundary.oldest - 1 || requested.value > boundary.latest then
      Ok(Window([], boundary, true, false))
    else
      var effective := Capped(limit, MaxReplayLimit);
      var rows := Query(rows, requested.value, effective + 1);
      Ok(Window(rows[..Capped(|rows|, effective)], boundary, false, |rows| > effective))
  }

  // ----- The reader --------------------------------------------------------------------------

  /** `delivered` and `origin` record what the reader was given and where it started from. */
  datatype Reader =
    | Opening(requested: Option<int>, boundary: Boundary)
    | Reading(cursor: int, pending: seq<StreamEvent>, delivered: seq<AppEvent>, origin: int)

  function AsPending(events: seq<AppEvent>): seq<StreamEvent> {
    seq(|events|, i requires 0 <= i < |events| => Event(events[i]))
  }

  function InitialCursor(window: ReplayWindow, requested: Option<int>): int {
    if window.events != [] then window.events[|window.events| - 1].id
    else if window.boundary.Span? then window.boundary.latest
    else if requested.Some? then requested.value
    else 0
  }

  function InitialPending(window: ReplayWindow): seq<StreamEvent> {
    if window.snapshotRefresh then [SnapshotRefresh(if window.boundary.Span? then window.boundary.latest else 0)]
    else AsPending(window.events)
  }

  /** The publication id after which the reader is owed every event. */
  function Origin(boundary: Boundary, requested: Option<int>): int {
    if boundary.Empty? then (if requested.Some? then requested.value else 0)
    else if requested.None? || requested.value <= 0 then boundary.latest
    else if requested.value < boundary.oldest - 1 || requested.value > boundary.latest then boundary.latest
    else requested.value
  }

  function Open(reader: Reader, rows: map<nat, Row>, limit: int): Reader
    requires reader.Opening?
  {
    match Replay(reader.boundary, rows, reader.requested, limit)
    case Err(_) => reader
    case Ok(window) =>
      Reading(InitialCursor(window, reader.requested), InitialPending(window), [],
        Origin(reader.boundary, reader.requested))
  }

  function Pop(reader: Reader): Reader
    requires reader.Reading? && reader.pending != []
  {
    var rest := reader.(pending := reader.pending[1..]);
    match reader.pending[0]
    case Event(event) => rest.(cursor := event.id, delivered := reader.delivered + [event])
    case SnapshotRefresh(_) => rest
  }

  function Poll(reader: Reader, rows: map<nat, Row>, limit: nat): Reader
    requires reader.Reading?
  {
    reader.(pending := reader.pending + AsPending(Query(rows, reader.cursor, limit)))
  }

  datatype System = System(log: Log, reader: Reader)

  datatype Step = LogMoves(action: Action) | ReaderReads | ReaderTakes

  /** A reader reads the log only while opening, or when it has handed out all it had. */
  function Next(sys: System, step: Step, limit: nat): System {
    match step
    case LogMoves(action) => sys.(log := Apply(sys.log, action))
    case ReaderReads =>
      if sys.reader.Opening? then sys.(reader := Open(sys.reader, sys.log.rows, limit))
      else if sys.reader.pending != [] then sys
      else sys.(reader := Poll(sys.reader, sys.log.rows, limit))
    case ReaderTakes =>
      if sys.reader.Reading? && sys.reader.pending != [] then sys.(reader := Pop(sys.reader)) else sys
  }

  function Run(sys: System, steps: seq<Step>, limit: nat): System
    decreases |steps|
  {
    if steps == [] then sys else Run(Next(sys, steps[0], limit), steps[1..], limit)
  }

  /** A reader whose opening has read the boundary of `log` and nothing else yet. */
  function Started(log: Log, requested: Option<int>): System {
    System(log, Opening(requested, BoundaryOf(log.rows)))
  }

  // ----- What the reader has been handed -----------------------------------------------------

  function EventsIn(pending: seq<StreamEvent>): seq<AppEvent>
    decreases |pending|
  {
    if pending == [] then []
    else (if pending[0].Event? then [pending[0].event] else []) + EventsIn(pending[1..])
  }

  /** Everything delivered or waiting to be. */
  function Handed(reader: Reader): seq<AppEvent>
    requires reader.Reading?
  {
    reader.delivered + EventsIn(reader.pending)
  }

  function Ids(events: seq<AppEvent>): seq<nat> {
    seq(|events|, i requires 0 <= i < |events| => events[i].id)
  }

  /** The last publication id among `events`, or `origin` when there is none. */
  function Bound(events: seq<AppEvent>, origin: int): int {
    if events == [] then origin else events[|events| - 1].id
  }

  function Between(rows: map<nat, Row>, low: int, high: int): set<nat> {
    set p | p in Published(rows) && low < p <= high
  }

  ghost predicate Recorded(rows: map<nat, Row>, event: AppEvent) {
    event.id in Published(rows) && EventAt(rows, event.id) == event
  }

  /** `events` are the log's own, and are all those from `origin` up to the last of them, in order. */
  ghost predicate HandedOut(rows: map<nat, Row>, events: seq<AppEvent>, origin: int) {
    && origin <= Bound(events, origin)
    && Ids(events) == Sorted(Between(rows, origin, Bound(events, origin)))
    && (forall e :: e in events ==> Recorded(rows, e))
  }

  ghost predicate ReaderInv(rows: map<nat, Row>, reader: Reader)
    requires reader.Reading?
  {
    && HandedOut(rows, Handed(reader), reader.origin)
    && (EventsIn(reader.pending) == [] ==> reader.cursor == Bound(Handed(reader), reader.origin))
  }

  ghost predicate OpeningInv(rows: map<nat, Row>, reader: Reader)
    requires reader.Opening?
  {
    reader.boundary.Span? ==> reader.boundary.latest in Published(rows)
  }

  ghost predicate SystemInv(sys: System) {
    if sys.reader.Opening? then OpeningInv(sys.log.rows, sys.reader) else ReaderInv(sys.log.rows, sys.reader)
  }

  lemma {:induction false} EventsInPending(events: seq<AppEvent>)
    ensures EventsIn(AsPending(events)) == events
    decreases |events|
  {
    if events != [] {
      EventsInPending(events[1..]);
      assert AsPending(events)[1..] == AsPending(events[1..]);
    }
  }

  lemma EventsAtIds(rows: map<nat, Row>, ids: seq<nat>)
    requires forall p :: p in ids ==> p in Published(rows)
    ensures Ids(EventsAt(rows, ids)) == ids
    ensures forall e :: e in EventsAt(rows, ids) ==> Recorded(rows, e)
  {
  }

  lemma QueryIds(rows: map<nat, Row>, cursor: int, limit: nat)
    ensures var events := Query(rows, cursor, limit); var n := Capped(|After(rows, cursor)|, limit);
      && |events| == n
      && Ids(events) == Sorted(After(rows, cursor))[..n]
      && (forall e :: e in events ==> Recorded(rows, e))
  {
  }

  /** A bounded query hands out the published ids from the cursor to the last one it returned. */
  lemma QueryHands(rows: map<nat, Row>, cursor: int, limit: nat)
    ensures HandedOut(rows, Query(rows, cursor, limit), cursor)
  {
    var events := Query(rows, cursor, limit);
    QueryIds(rows, cursor, limit);
    PrefixHandedOut(rows, events, cursor, |events|);
  }

  lemma PrefixHandedOut(rows: map<nat, Row>, events: seq<AppEvent>, cursor: int, n: nat)
    requires n == |events| <= |After(rows, cursor)| && Ids(events) == Sorted(After(rows, cursor))[..n]
    requires forall e :: e in events ==> Recorded(rows, e)
    ensures HandedOut(rows, events, cursor)
  {
    if n > 0 {
      PrefixBetween(rows, cursor, n);
      assert Ids(events)[n - 1] == events[n - 1].id;
    } else {
      NothingBetween(rows, cursor);
    }
  }

  lemma NothingBetween(rows: map<nat, Row>, cursor: int)
    ensures Between(rows, cursor, cursor) == {} && Sorted(Between(rows, cursor, cursor)) == []
  {
  }

  lemma PrefixBetween(rows: map<nat, Row>, cursor: int, n: nat)
    requires 0 < n <= |After(rows, cursor)|
    ensures var last := Sorted(After(rows, cursor))[n - 1];
      cursor < last && Sorted(After(rows, cursor))[..n] == Sorted(Between(rows, cursor, last))
  {
    var last := Sorted(After(rows, cursor))[n - 1];
    SortedIn(After(rows, cursor), n - 1);
    SortedPrefix(After(rows, cursor), n);
    AfterUpTo(rows, cursor, last);
  }

  function UpTo(s: set<nat>, last: nat): set<nat> {
    set p | p in s && p <= last
  }

  lemma SortedIn(s: set<nat>, i: nat)
    requires i < |s|
    ensures Sorted(s)[i] in s
  {
  }

  lemma AfterUpTo(rows: map<nat, Row>, cursor: int, last: nat)
    ensures UpTo(After(rows, cursor), last) == Between(rows, cursor, last)
  {
  }

  lemma SortedPrefix(s: set<nat>, n: nat)
    requires 0 < n <= |s|
    ensures Sorted(s)[..n] == Sorted(UpTo(s, Sorted(s)[n - 1]))
  {
    var q := Sorted(s);
    AscendingMembers(q, n - 1);
    AscendingExtended(q, n);
    AscendingUnique(q[..n], Sorted(UpTo(s, q[n - 1])));
  }

  lemma AscendingExtended(q: seq<nat>, n: nat)
    requires Ascending(q) && 0 < n <= |q|
    requires forall p :: p in q[..n - 1] <==> p in q && p < q[n - 1]
    ensures Ascending(q[..n]) && forall p :: p in q[..n] <==> p in q && p <= q[n - 1]
  {
  }

  lemma JoinBetween(rows: map<nat, Row>, low: int, mid: int, high: int)
    requires low <= mid <= high
    ensures Sorted(Between(rows, low, high)) == Sorted(Between(rows, low, mid)) + Sorted(Between(rows, mid, high))
  {
    SortedUnion(Between(rows, low, mid), Between(rows, mid, high));
    assert Between(rows, low, high) == Between(rows, low, mid) + Between(rows, mid, high);
  }

  /** Handing out what follows the bound keeps the whole in order. */
  lemma HandMore(rows: map<nat, Row>, first: seq<AppEvent>, more: seq<AppEvent>, origin: int)
    requires HandedOut(rows, first, origin) && HandedOut(rows, more, Bound(first, origin))
    ensures HandedOut(rows, first + more, origin)
  {
    var mid := Bound(first, origin);
    JoinBetween(rows, origin, mid, Bound(more, mid));
    IdsJoin(first, more, origin);
  }

  lemma IdsJoin(first: seq<AppEvent>, more: seq<AppEvent>, origin: int)
    ensures Ids(first + more) == Ids(first) + Ids(more)
    ensures Bound(first + more, origin) == Bound(more, Bound(first, origin))
  {
  }

  lemma PollInv(rows: map<nat, Row>, reader: Reader, limit: nat)
    requires reader.Reading? && reader.pending == [] && ReaderInv(rows, reader)
    ensures ReaderInv(rows, Poll(reader, rows, limit))
  {
    var more := Query(rows, reader.cursor, limit);
    var later := Poll(reader, rows, limit);
    QueryHands(rows, reader.cursor, limit);
    assert Handed(reader) == reader.delivered;
    HandMore(rows, reader.delivered, more, reader.origin);
    assert later.pending == AsPending(more);
    EventsInPending(more);
  }

  lemma PopInv(rows: map<nat, Row>, reader: Reader)
    requires reader.Reading? && reader.pending != [] && ReaderInv(rows, reader)
    ensures ReaderInv(rows, Pop(reader))
  {
    PopHanded(reader);
  }

  lemma PopHanded(reader: Reader)
    requires reader.Reading? && reader.pending != []
    ensures Handed(Pop(reader)) == Handed(reader)
    ensures EventsIn(Pop(reader).pending) == [] ==>
      if EventsIn(reader.pending) == [] then Pop(reader).cursor == reader.cursor
      else Pop(reader).cursor == Bound(Handed(reader), reader.origin)
  {
  }

  /** The rows read while opening start the reader at its origin. */
  lemma OpenInv(rows: map<nat, Row>, reader: Reader, limit: int)
    requires reader.Opening? && OpeningInv(rows, reader)
    ensures limit <= 0 ==> Open(reader, rows, limit) == reader
    ensures limit > 0 ==> Open(reader, rows, limit).Reading? && ReaderInv(rows, Open(reader, rows, limit))
  {
    if limit > 0 {
      var boundary, origin := reader.boundary, Origin(reader.boundary, reader.requested);
      if InWindow(boundary, reader.requested) {
        OpenReplays(rows, reader, limit);
      } else {
        OpenEmpty(rows, reader, limit);
        NothingBetween(rows, origin);
      }
    }
  }

  predicate InWindow(boundary: Boundary, requested: Option<int>) {
    && boundary.Span?
    && requested.Some?
    && requested.value > 0
    && boundary.oldest - 1 <= requested.value <= boundary.latest
  }

  lemma OpenEmpty(rows: map<nat, Row>, reader: Reader, limit: int)
    requires reader.Opening? && limit > 0 && !InWindow(reader.boundary, reader.requested)
    ensures var reading := Open(reader, rows, limit);
      reading.Reading? && Handed(reading) == [] && reading.cursor == reading.origin
  {
    var pending := Open(reader, rows, limit).pending;
    assert |pending| <= 1;
    assert EventsIn(pending) == [];
  }

  lemma OpenReplays(rows: map<nat, Row>, reader: Reader, limit: int)
    requires reader.Opening? && OpeningInv(rows, reader) && limit > 0 && InWindow(reader.boundary, reader.requested)
    ensures Open(reader, rows, limit).Reading? && ReaderInv(rows, Open(reader, rows, limit))
  {
    var origin, effective := reader.requested.value, Capped(limit, MaxReplayLimit);
    var events := Query(rows, origin, effective);
    OpenShape(rows, reader, limit);
    QueryHands(rows, origin, effective);
    if events == [] {
      NothingAfter(rows, origin, effective, reader.boundary.latest);
    }
    EventsInPending(events);
    assert Handed(Open(reader, rows, limit)) == events;
  }

  /** Inside the window the reader starts with a plain query's events, after the requested id. */
  lemma OpenShape(rows: map<nat, Row>, reader: Reader, limit: int)
    requires reader.Opening? && limit > 0 && InWindow(reader.boundary, reader.requested)
    ensures var events := Query(rows, reader.requested.value, Capped(limit, MaxReplayLimit));
      Open(reader, rows, limit)
        == Reading(if events == [] then reader.boundary.latest else events[|events| - 1].id, AsPending(events), [],
                   reader.requested.value)
  {
    var hasMore := ReplayInWindow(reader.boundary, rows, reader.requested, limit);
  }

  lemma ReplayInWindow(boundary: Boundary, rows: map<nat, Row>, requested: Option<int>, limit: int)
    returns (hasMore: bool)
    requires limit > 0 && InWindow(boundary, requested)
    ensures Replay(boundary, rows, requested, limit)
      == Ok(Window(Query(rows, requested.value, Capped(limit, MaxReplayLimit)), boundary, false, hasMore))
  {
    var effective := Capped(limit, MaxReplayLimit);
    ReplayIsQuery(rows, requested.value, effective);
    hasMore := |Query(rows, requested.value, effective + 1)| > effective;
  }

  /** Asking for one row more than wanted and dropping it hands out what a plain query would. */
  lemma ReplayIsQuery(rows: map<nat, Row>, cursor: int, effective: nat)
    ensures var events := Query(rows, cursor, effective + 1);
      && events[..Capped(|events|, effective)] == Query(rows, cursor, effective)
      && (|events| > effective <==> |After(rows, cursor)| > effective)
  {
  }

  lemma NothingAfter(rows: map<nat, Row>, cursor: int, limit: nat, p: nat)
    requires limit > 0 && Query(rows, cursor, limit) == [] && p in Published(rows)
    ensures p <= cursor
  {
    QueryIds(rows, cursor, limit);
    assert After(rows, cursor) == {};
    assert p > cursor ==> p in After(rows, cursor);
  }

  // ----- The log moves on --------------------------------------------------------------------

  lemma EventStays(log: Log, later: Log, p: nat)
    requires Extends(log, later) && p in Published(log.rows) && p <= log.last
    ensures p in Published(later.rows) && EventAt(later.rows, p) == EventAt(log.rows, p)
  {
    var id :| id in log.rows && log.rows[id].published == Some(p);
    PublishedHas(later.rows, id);
    assert Holders(later.rows, p) == Holders(log.rows, p);
    assert id in Holders(log.rows, p);
    assert Min(Holders(log.rows, p)) in log.rows;
  }

  lemma BetweenStays(log: Log, later: Log, low: int, high: int)
    requires Extends(log, later) && (high <= log.last || high <= low)
    ensures Between(later.rows, low, high) == Between(log.rows, low, high)
  {
  }

  lemma HandedStays(log: Log, later: Log, events: seq<AppEvent>, origin: int)
    requires HandedOut(log.rows, events, origin) && Extends(log, later)
    requires forall p :: p in Published(log.rows) ==> p <= log.last
    ensures HandedOut(later.rows, events, origin)
  {
    forall e | e in events
      ensures Recorded(later.rows, e)
    {
      assert Recorded(log.rows, e);
      EventStays(log, later, e.id);
    }
    if events != [] {
      assert Recorded(log.rows, events[|events| - 1]);
    }
    BetweenStays(log, later, origin, Bound(events, origin));
  }

  lemma LogMovesInv(sys: System, action: Action, base: set<nat>, from: nat)
    requires SystemInv(sys) && Inv(sys.log, base, from)
    ensures SystemInv(sys.(log := Apply(sys.log, action)))
  {
    var later := Apply(sys.log, action);
    StepExtends(sys.log, action);
    if sys.reader.Reading? {
      HandedStays(sys.log, later, Handed(sys.reader), sys.reader.origin);
    } else if sys.reader.boundary.Span? {
      EventStays(sys.log, later, sys.reader.boundary.latest);
    }
  }

  lemma NextInv(sys: System, step: Step, limit: nat, base: set<nat>, from: nat)
    requires SystemInv(sys) && Inv(sys.log, base, from)
    ensures SystemInv(Next(sys, step, limit)) && Inv(Next(sys, step, limit).log, base, from)
  {
    match step
    case LogMoves(action) =>
      StepInv(sys.log, action, base, from);
      LogMovesInv(sys, action, base, from);
    case ReaderReads =>
      if sys.reader.Opening? {
        OpenInv(sys.log.rows, sys.reader, limit);
      } else if sys.reader.pending == [] {
        PollInv(sys.log.rows, sys.reader, limit);
      }
    case ReaderTakes =>
      if sys.reader.Reading? && sys.reader.pending != [] {
        PopInv(sys.log.rows, sys.reader);
      }
  }

  /** The origin is decided by the boundary read, and a reader never forgets it. */
  ghost predicate StartsAt(reader: Reader, origin: int) {
    match reader
    case Opening(requested, boundary) => Origin(boundary, requested) == origin
    case Reading(_, _, _, start) => start == origin
  }

  lemma NextStartsAt(sys: System, step: Step, limit: nat, origin: int)
    requires StartsAt(sys.reader, origin)
    ensures StartsAt(Next(sys, step, limit).reader, origin)
  {
  }

  ghost predicate AllInv(sys: System, base: set<nat>, from: nat, origin: int) {
    SystemInv(sys) && Inv(sys.log, base, from) && StartsAt(sys.reader, origin)
  }

  lemma NextAllInv(sys: System, step: Step, limit: nat, base: set<nat>, from: nat, origin: int)
    requires AllInv(sys, base, from, origin)
    ensures AllInv(Next(sys, step, limit), base, from, origin)
  {
    NextInv(sys, step, limit, base, from);
    NextStartsAt(sys, step, limit, origin);
  }

  lemma {:induction false} RunInv(sys: System, steps: seq<Step>, limit: nat, base: set<nat>, from: nat, origin: int)
    requires AllInv(sys, base, from, origin)
    ensures AllInv(Run(sys, steps, limit), base, from, origin)
    decreases |steps|
  {
    if steps != [] {
      NextAllInv(sys, steps[0], limit, base, from, origin);
      RunInv(Next(sys, steps[0], limit), steps[1..], limit, base, from, origin);
    }
  }

  lemma StartedInv(log: Log, requested: Option<int>)
    ensures SystemInv(Started(log, requested))
  {
  }

  // ----- Delivery ----------------------------------------------------------------------------

  /** All the events published above `origin`, in publication order. */
  function Owed(rows: map<nat, Row>, origin: int): seq<AppEvent> {
    EventsAt(rows, Sorted(After(rows, origin)))
  }

  /**
   * Whatever is appended and published while a reader opens, polls and takes events, what it has
   * been given is a prefix of the events published above its origin: no gap, no duplicate, in
   * order, and with their contents.
   */
  lemma StreamDelivers(log: Log, requested: Option<int>, steps: seq<Step>, limit: nat, base: set<nat>, from: nat)
    requires Inv(log, base, from)
    ensures var sys := Run(Started(log, requested), steps, limit);
      sys.reader.Reading? ==>
        && sys.reader.origin == Origin(BoundaryOf(log.rows), requested)
        && sys.reader.delivered <= Owed(sys.log.rows, sys.reader.origin)
  {
    StartedInv(log, requested);
    RunInv(Started(log, requested), steps, limit, base, from, Origin(BoundaryOf(log.rows), requested));
    var sys := Run(Started(log, requested), steps, limit);
    if sys.reader.Reading? {
      HandedIsPrefix(sys.log.rows, Handed(sys.reader), sys.reader.origin);
    }
  }

  lemma HandedIsPrefix(rows: map<nat, Row>, events: seq<AppEvent>, origin: int)
    requires HandedOut(rows, events, origin)
    ensures Owed(rows, origin) == events + Owed(rows, Bound(events, origin))
  {
    var high := Bound(events, origin);
    SortedAfter(rows, origin, high);
    EventsAtIds(rows, Sorted(After(rows, high)));
    HandedAreRows(rows, events, Sorted(After(rows, high)), Sorted(After(rows, origin)));
  }

  lemma HandedAreRows(rows: map<nat, Row>, events: seq<AppEvent>, rest: seq<nat>, all: seq<nat>)
    requires forall e :: e in events ==> Recorded(rows, e)
    requires forall p :: p in rest ==> p in Published(rows)
    requires forall p :: p in all ==> p in Published(rows)
    requires all == Ids(events) + rest
    ensures EventsAt(rows, all) == events + EventsAt(rows, rest)
  {
    forall i | 0 <= i < |all|
      ensures EventsAt(rows, all)[i] == (events + EventsAt(rows, rest))[i]
    {
      if i < |events| {
        assert Recorded(rows, events[i]);
        assert Ids(events)[i] == events[i].id;
      }
    }
  }

  lemma SortedAfter(rows: map<nat, Row>, low: int, high: int)
    requires low <= high
    ensures Sorted(After(rows, low)) == Sorted(Between(rows, low, high)) + Sorted(After(rows, high))
  {
    SortedUnion(Between(rows, low, high), After(rows, high));
    assert After(rows, low) == Between(rows, low, high) + After(rows, high);
  }

  /** A reader with nothing waiting gets something from its next poll exactly when it is behind. */
  lemma PollAdvances(sys: System, limit: nat)
    requires sys.reader.Reading? && SystemInv(sys) && sys.reader.pending == [] && limit > 0
    ensures Next(sys, ReaderReads, limit).reader.pending == [] <==>
            sys.reader.delivered == Owed(sys.log.rows, sys.reader.origin)
  {
    assert Handed(sys.reader) == sys.reader.delivered;
    HandedIsPrefix(sys.log.rows, sys.reader.delivered, sys.reader.origin);
    QueryIds(sys.log.rows, sys.reader.cursor, limit);
  }

  /**
   * Where every number above the origin has been used, which on a log that started empty is always
   * so, the reader counts: the first id after the origin, the next, and so on.
   */
  lemma StreamCounts(log: Log, requested: Option<int>, steps: seq<Step>, limit: nat, base: set<nat>, from: nat)
    requires Inv(log, base, from)
    requires forall p :: 1 <= p <= from && p > Origin(BoundaryOf(log.rows), requested) ==> p in base
    ensures var reader := Run(Started(log, requested), steps, limit).reader;
      reader.Reading? ==>
        forall i :: 0 <= i < |reader.delivered| ==>
          reader.delivered[i].id == 1 + i + (if reader.origin < 0 then 0 else reader.origin)
  {
    var origin := Origin(BoundaryOf(log.rows), requested);
    var sys := Run(Started(log, requested), steps, limit);
    StartedInv(log, requested);
    RunInv(Started(log, requested), steps, limit, base, from, origin);
    StreamDelivers(log, requested, steps, limit, base, from);
    if sys.reader.Reading? {
      var rows, low := sys.log.rows, if origin < 0 then 0 else origin;
      var ids := Sorted(After(rows, origin));
      EventsAtIds(rows, ids);
      DenseAfter(sys.log, base, from, origin);
      SortedInterval(After(rows, origin), low, if sys.log.last < low then low else sys.log.last);
      forall i | 0 <= i < |sys.reader.delivered|
        ensures sys.reader.delivered[i].id == 1 + i + low
      {
        assert sys.reader.delivered[i] == Owed(rows, origin)[i];
      }
    }
  }

  lemma DenseAfter(log: Log, base: set<nat>, from: nat, origin: int)
    requires Dense(log.rows, log.last, base, from)
    requires forall p :: 1 <= p <= from && p > origin ==> p in base
    ensures forall p :: p in After(log.rows, origin) <==> (if origin < 0 then 0 else origin) < p <= log.last
  {
  }

  // ----- Events published after the opening --------------------------------------------------

  /** Whether a reader that opens now is owed everything that is published from now on. */
  ghost predicate StartsInTime(log: Log, requested: Option<int>) {
    forall actions, p :: p in Published(Exec(log, actions).rows) && p > log.last
      ==> p in After(Exec(log, actions).rows, Origin(BoundaryOf(log.rows), requested))
  }

  /**
   * A reader misses nothing published after it opened, except on an empty log when it asks to
   * continue from an id that the log has not reached: it then waits above the ids still to come.
   */
  lemma MissesOnlyAfterStaleId(log: Log, requested: Option<int>, base: set<nat>, from: nat)
    requires Inv(log, base, from) && log.next <= MaxId && log.last + |Pending(log.rows)| < MaxId
    ensures StartsInTime(log, requested) <==>
      !(Published(log.rows) == {} && requested.Some? && requested.value > log.last)
  {
    var origin := Origin(BoundaryOf(log.rows), requested);
    OriginReached(log, requested);
    if origin > log.last {
      FirstPublication(log, base, from);
      var later := Exec(log, OneEvent(log));
      assert log.last + 1 in Published(later.rows);
      assert log.last + 1 !in After(later.rows, origin);
    }
  }

  lemma OriginReached(log: Log, requested: Option<int>)
    requires forall p :: p in Published(log.rows) ==> p <= log.last
    ensures Origin(BoundaryOf(log.rows), requested) > log.last <==>
      Published(log.rows) == {} && requested.Some? && requested.value > log.last
  {
    var ids := Sorted(Published(log.rows));
    if ids != [] {
      assert ids[|ids| - 1] in ids;
    }
  }

  /** A publisher that was under way gives up; one event is appended, committed and published. */
  function OneEvent(log: Log): seq<Action> {
    [RollbackPublish, Insert(0), Commit({log.next}), BeginPublish, CommitPublish]
  }

  lemma FirstPublication(log: Log, base: set<nat>, from: nat)
    requires Inv(log, base, from) && log.next <= MaxId && log.last + |Pending(log.rows)| < MaxId
    ensures log.last + 1 in Published(Exec(log, OneEvent(log)).rows)
  {
    var idle := log.(publishing := None);
    var b := CommitRows(Append(idle, 0), {log.next});
    var batch := Pending(b.rows);
    assert batch == Pending(log.rows) + {log.next};
    assert OneEvent(log)[1..] == [Insert(0), Commit({log.next}), BeginPublish, CommitPublish];
    assert Exec(log, OneEvent(log)) == Exec(idle, OneEvent(log)[1..]);
    ExecFour(idle, Insert(0), Commit({log.next}), BeginPublish, CommitPublish);
    NumberedPublishes(b.rows, batch, log.last);
    assert Publish(b.(publishing := Some(batch))).rows == Numbered(b.rows, batch, log.last);
  }

  lemma ExecFour(log: Log, a: Action, b: Action, c: Action, d: Action)
    ensures Exec(log, [a, b, c, d]) == Apply(Apply(Apply(Apply(log, a), b), c), d)
  {
    var one := Apply(log, a);
    var two := Apply(one, b);
    var three := Apply(two, c);
    assert [a, b, c, d][1..] == [b, c, d] && [b, c, d][1..] == [c, d] && [c, d][1..] == [d] && [d][1..] == [];
    assert Exec(three, [d]) == Exec(Apply(three, d), []);
    assert Exec(two, [c, d]) == Exec(three, [d]);
    assert Exec(one, [b, c, d]) == Exec(two, [c, d]);
  }
}

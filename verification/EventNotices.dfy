/**
 * The notice that tells a reader to reload: who gets it, when, and how often. A reader whose last id
 * lies outside what the log still covers cannot be caught up by a replay.
 */
module EventNotices {
  import opened Results
  import opened Ordered
  import opened EventLog
  import opened EventStream

  /** The reader has seen an id that the log has not reached, or has missed events that are gone. */
  ghost predicate OutOfReach(rows: map<nat, Row>, requested: Option<int>) {
    && Published(rows) != {} && requested.Some? && requested.value > 0
    && ((forall p :: p in Published(rows) ==> requested.value + 1 < p)
        || (forall p :: p in Published(rows) ==> p < requested.value))
  }

  ghost predicate IsLatest(rows: map<nat, Row>, latest: nat) {
    latest in Published(rows) && forall p :: p in Published(rows) ==> p <= latest
  }

  ghost predicate NoNotice(items: seq<StreamEvent>) {
    forall i :: 0 <= i < |items| ==> items[i].Event?
  }

  lemma BoundarySpans(rows: map<nat, Row>)
    ensures match BoundaryOf(rows)
      case Empty => Published(rows) == {}
      case Span(oldest, latest) =>
        oldest in Published(rows) && (forall p :: p in Published(rows) ==> oldest <= p) && IsLatest(rows, latest)
  {
    var ids := Sorted(Published(rows));
    if ids != [] {
      assert ids[0] in ids && ids[|ids| - 1] in ids;
      forall p | p in Published(rows)
        ensures ids[0] <= p <= ids[|ids| - 1]
      {
        assert p in ids;
      }
    }
  }

  /** What the boundary and the request say about a reader that opens. */
  predicate OutOfWindow(boundary: Boundary, requested: Option<int>) {
    && boundary.Span? && requested.Some? && requested.value > 0
    && (requested.value < boundary.oldest - 1 || requested.value > boundary.latest)
  }

  /** A reader opens with the notice alone when its id is outside the window, and otherwise without one. */
  lemma OpensWithNotice(rows: map<nat, Row>, reader: Reader, limit: int)
    requires reader.Opening? && limit > 0
    ensures var reading := Open(reader, rows, limit);
      && reading.Reading?
      && (OutOfWindow(reader.boundary, reader.requested) <==>
            reader.boundary.Span? && reading.pending == [SnapshotRefresh(reader.boundary.latest)])
      && (!OutOfWindow(reader.boundary, reader.requested) ==> NoNotice(reading.pending))
  {
    if InWindow(reader.boundary, reader.requested) {
      OpenShape(rows, reader, limit);
      assert NoNotice(Open(reader, rows, limit).pending);
      assert Open(reader, rows, limit).pending != [] ==> Open(reader, rows, limit).pending[0].Event?;
    }
  }

  /** How much of `n` rows a query with the limit hands out. */
  function AtMost(n: nat, limit: nat): nat {
    if limit < n then limit else n
  }

  /** A query hands out the first events above the cursor, as many as there are up to its limit. */
  lemma QueryTakes(rows: map<nat, Row>, cursor: int, limit: nat)
    ensures var events := Query(rows, cursor, limit);
      |events| == AtMost(|After(rows, cursor)|, limit) && events <= Owed(rows, cursor)
  {
  }

  /**
   * A replay answers a request inside the window with the events above it, a thousand at most and no more
   * than asked for, and says whether there are others; outside it asks for a reload; and otherwise it says
   * only what the log covers.
   */
  lemma ReplayIs(boundary: Boundary, rows: map<nat, Row>, requested: Option<int>, limit: int)
    ensures var outcome := Replay(boundary, rows, requested, limit);
      && (outcome.Err? <==> limit <= 0)
      && (outcome.Err? ==> outcome.error == LimitNotPositive)
      && (outcome.Ok? ==> outcome.value.boundary == boundary)
      && (outcome.Ok? ==> (outcome.value.snapshotRefresh <==> OutOfWindow(boundary, requested)))
      && (outcome.Ok? && !InWindow(boundary, requested) ==> outcome.value.events == [] && !outcome.value.hasMore)
      && (outcome.Ok? && InWindow(boundary, requested) ==>
            var most := AtMost(limit, 1000);
            && outcome.value.events <= Owed(rows, requested.value)
            && |outcome.value.events| == AtMost(|After(rows, requested.value)|, most)
            && (outcome.value.hasMore <==> |After(rows, requested.value)| > most))
  {
    if limit > 0 && InWindow(boundary, requested) {
      QueryTakes(rows, requested.value, AtMost(limit, 1000));
      ReplayIsQuery(rows, requested.value, AtMost(limit, 1000));
    }
  }

  /** Everything a reader takes, in order. */
  function Taken(sys: System, steps: seq<Step>, limit: nat): seq<StreamEvent>
    decreases |steps|
  {
    if steps == [] then []
    else
      (if steps[0].ReaderTakes? && sys.reader.Reading? && sys.reader.pending != [] then [sys.reader.pending[0]] else [])
      + Taken(Next(sys, steps[0], limit), steps[1..], limit)
  }

  lemma {:induction false} TakesNoNotice(sys: System, steps: seq<Step>, limit: nat)
    requires sys.reader.Reading? && NoNotice(sys.reader.pending)
    ensures NoNotice(Taken(sys, steps, limit))
    decreases |steps|
  {
    if steps != [] {
      TakesNoNotice(Next(sys, steps[0], limit), steps[1..], limit);
    }
  }

  /** `items` begin with the notice, as soon as there are any, and hold no other. */
  ghost predicate NoticeFirst(items: seq<StreamEvent>, latest: nat) {
    items == [] || (items[0] == SnapshotRefresh(latest) && NoNotice(items[1..]))
  }

  lemma {:induction false} TakesNoticeFirst(sys: System, steps: seq<Step>, limit: nat, latest: nat)
    requires sys.reader.Reading? && sys.reader.pending == [SnapshotRefresh(latest)]
    ensures NoticeFirst(Taken(sys, steps, limit), latest)
    decreases |steps|
  {
    if steps != [] {
      var next := Next(sys, steps[0], limit);
      if steps[0].ReaderTakes? {
        TakesNoNotice(next, steps[1..], limit);
        assert Taken(sys, steps, limit)[1..] == Taken(next, steps[1..], limit);
      } else {
        TakesNoticeFirst(next, steps[1..], limit, latest);
      }
    }
  }

  lemma {:induction false} TakesAsOpened(sys: System, steps: seq<Step>, limit: nat)
    requires sys.reader.Opening? && limit > 0
    ensures var items := Taken(sys, steps, limit); var boundary := sys.reader.boundary;
      if OutOfWindow(boundary, sys.reader.requested) then NoticeFirst(items, boundary.latest) else NoNotice(items)
    decreases |steps|
  {
    if steps != [] {
      var next := Next(sys, steps[0], limit);
      if steps[0].ReaderReads? {
        OpensWithNotice(sys.log.rows, sys.reader, limit);
        if OutOfWindow(sys.reader.boundary, sys.reader.requested) {
          TakesNoticeFirst(next, steps[1..], limit, sys.reader.boundary.latest);
        } else {
          TakesNoNotice(next, steps[1..], limit);
        }
      } else {
        TakesAsOpened(next, steps[1..], limit);
      }
    }
  }

  /**
   * Over every run a reader is told to reload exactly when the log it opened on could not catch it up:
   * then that is the first thing it takes, with the log's latest id, and it is told only once; any other
   * reader is never told.
   */
  lemma ToldToReload(log: Log, requested: Option<int>, steps: seq<Step>, limit: nat)
    requires limit > 0
    ensures var items := Taken(Started(log, requested), steps, limit);
      && (!OutOfReach(log.rows, requested) ==> NoNotice(items))
      && (OutOfReach(log.rows, requested) ==>
            exists latest :: IsLatest(log.rows, latest) && NoticeFirst(items, latest))
  {
    BoundarySpans(log.rows);
    TakesAsOpened(Started(log, requested), steps, limit);
    var boundary := BoundaryOf(log.rows);
    if boundary.Span? {
      assert boundary.oldest in Published(log.rows) && boundary.latest in Published(log.rows);
      assert IsLatest(log.rows, boundary.latest);
    }
  }

  function Delivered(reader: Reader): seq<AppEvent> {
    if reader.Reading? then reader.delivered else []
  }

  lemma StepDelivers(sys: System, step: Step, limit: nat)
    ensures var next := Next(sys, step, limit);
      Delivered(next.reader) == Delivered(sys.reader)
        + if step.ReaderTakes? && sys.reader.Reading? && sys.reader.pending != [] then EventsIn([sys.reader.pending[0]])
          else []
  {
    if sys.reader.Reading? && sys.reader.pending != [] {
      assert EventsIn([sys.reader.pending[0]][1..]) == [];
    }
  }

  lemma EventsInFirst(item: StreamEvent, rest: seq<StreamEvent>)
    ensures EventsIn([item] + rest) == EventsIn([item]) + EventsIn(rest)
  {
    assert ([item] + rest)[1..] == rest && [item][1..] == [];
  }

  /** What a reader takes are its notices and, in order, the events it counts as delivered. */
  lemma {:induction false} TakenAreDelivered(sys: System, steps: seq<Step>, limit: nat)
    ensures Delivered(Run(sys, steps, limit).reader) == Delivered(sys.reader) + EventsIn(Taken(sys, steps, limit))
    decreases |steps|
  {
    if steps != [] {
      var rest := Taken(Next(sys, steps[0], limit), steps[1..], limit);
      StepDelivers(sys, steps[0], limit);
      TakenAreDelivered(Next(sys, steps[0], limit), steps[1..], limit);
      if steps[0].ReaderTakes? && sys.reader.Reading? && sys.reader.pending != [] {
        EventsInFirst(sys.reader.pending[0], rest);
      } else {
        assert [] + rest == rest;
      }
    }
  }
}

/**
 * The application event log. An event takes its row id inside the transaction that appends it, so
 * ids become visible out of order; a publisher later numbers the visible rows, and readers only
 * ever see those publication ids.
 */
module EventLog {
  import opened Results
  import opened Ordered

  /** Resource, resource id and payload, compared as one value. */
  type Content = nat

  const MaxId: nat := 0x7FFF_FFFF_FFFF_FFFF

  datatype Row = Row(content: Content, published: Option<nat>)

  /**
   * `open` holds rows inserted by transactions that have not ended. `publishing` is the set of rows
   * that the holder of the publication cursor has read as unpublished.
   */
  datatype Log = Log(next: nat, open: map<nat, Content>, rows: map<nat, Row>, last: nat, publishing: Option<set<nat>>)

  datatype Action =
    | Insert(content: Content)
    | Commit(ids: set<nat>)
    | Abort(ids: set<nat>)
    | BeginPublish
    | CommitPublish
    | RollbackPublish

  function Pending(rows: map<nat, Row>): set<nat> {
    set id | id in rows && rows[id].published.None?
  }

  function Published(rows: map<nat, Row>): set<nat> {
    set id | id in rows && rows[id].published.Some? :: rows[id].published.value
  }

  /** `rows` with the rows of `pending` numbered upwards from `last`, in the order of their ids. */
  function Numbered(rows: map<nat, Row>, pending: set<nat>, last: nat): map<nat, Row> {
    map id | id in rows ::
      if id in pending then rows[id].(published := Some(last + 1 + Rank(pending, id))) else rows[id]
  }

  function Append(log: Log, content: Content): Log {
    if log.next > MaxId then log
    else log.(next := log.next + 1, open := log.open[log.next := content])
  }

  function CommitRows(log: Log, ids: set<nat>): Log {
    log.(open := log.open - ids,
         rows := log.rows + map id | id in log.open && id in ids :: Row(log.open[id], None))
  }

  /** The whole batch is numbered, or nothing is when its last number would not fit. */
  function Publish(log: Log): Log
    requires log.publishing.Some?
  {
    var batch := log.publishing.value;
    if log.last + |batch| > MaxId then log.(publishing := None)
    else log.(publishing := None, rows := Numbered(log.rows, batch, log.last), last := log.last + |batch|)
  }

  function Apply(log: Log, action: Action): Log {
    match action
    case Insert(content) => Append(log, content)
    case Commit(ids) => CommitRows(log, ids)
    case Abort(ids) => log.(open := log.open - ids)
    case BeginPublish => if log.publishing.Some? then log else log.(publishing := Some(Pending(log.rows)))
    case CommitPublish => if log.publishing.None? then log else Publish(log)
    case RollbackPublish => log.(publishing := None)
  }

  function Exec(log: Log, actions: seq<Action>): Log
    decreases |actions|
  {
    if actions == [] then log else Exec(Apply(log, actions[0]), actions[1..])
  }

  /** The log as the migration that introduced publication ids leaves it. */
  function Migrated(legacy: map<nat, Content>, next: nat): Log {
    Log(next, map[], map id | id in legacy :: Row(legacy[id], Some(id)),
        if legacy == map[] then 0 else var ids := Sorted(legacy.Keys); ids[|ids| - 1], None)
  }

  // ----- The invariant -----------------------------------------------------------------------

  ghost predicate Unique(rows: map<nat, Row>) {
    forall i, j :: i in rows && j in rows && rows[i].published.Some? && rows[i].published == rows[j].published ==>
      i == j
  }

  ghost predicate Dense(rows: map<nat, Row>, last: nat, base: set<nat>, from: nat) {
    && from <= last
    && (forall p :: p in base ==> 1 <= p <= from)
    && (forall p :: p in Published(rows) <==> p in base || from < p <= last)
  }

  ghost predicate IdsAllocated(log: Log) {
    && log.open.Keys !! log.rows.Keys
    && (forall id :: id in log.open || id in log.rows ==> 1 <= id < log.next)
    && 1 <= log.next
  }

  ghost predicate BatchPending(log: Log) {
    log.publishing.Some? ==> log.publishing.value <= Pending(log.rows)
  }

  ghost predicate Inv(log: Log, base: set<nat>, from: nat) {
    && IdsAllocated(log)
    && BatchPending(log)
    && Unique(log.rows)
    && Dense(log.rows, log.last, base, from)
  }

  lemma PublishedHas(rows: map<nat, Row>, id: nat)
    requires id in rows && rows[id].published.Some?
    ensures rows[id].published.value in Published(rows)
  {
  }

  lemma MigratedPublished(legacy: map<nat, Content>, next: nat)
    ensures Published(Migrated(legacy, next).rows) == legacy.Keys && Unique(Migrated(legacy, next).rows)
  {
    var rows := Migrated(legacy, next).rows;
    forall p | p in legacy
      ensures p in Published(rows)
    {
      PublishedHas(rows, p);
    }
  }

  lemma MigratedInv(legacy: map<nat, Content>, next: nat)
    requires 1 <= next && forall id :: id in legacy ==> 1 <= id < next
    ensures Inv(Migrated(legacy, next), legacy.Keys, Migrated(legacy, next).last)
  {
    MigratedPublished(legacy, next);
    forall p | p in legacy.Keys
      ensures p <= Migrated(legacy, next).last
    {
      LastIsGreatest(legacy.Keys, p);
    }
  }

  lemma LastIsGreatest(s: set<nat>, p: nat)
    requires p in s
    ensures s != {} && p <= Sorted(s)[|s| - 1]
  {
  }

  // ----- One publication ---------------------------------------------------------------------

  /** A batch takes exactly the numbers that follow `last`. */
  lemma NumberedPublishes(rows: map<nat, Row>, batch: set<nat>, last: nat)
    requires batch <= Pending(rows)
    ensures forall p ::
      p in Published(Numbered(rows, batch, last)) <==> p in Published(rows) || last < p <= last + |batch|
  {
    forall p: nat
      ensures p in Published(Numbered(rows, batch, last)) <==> p in Published(rows) || last < p <= last + |batch|
    {
      NumberedKeeps(rows, batch, last, p);
      NumberedAdds(rows, batch, last, p);
      NumberedOnly(rows, batch, last, p);
    }
  }

  lemma NumberedKeeps(rows: map<nat, Row>, batch: set<nat>, last: nat, p: nat)
    requires batch <= Pending(rows)
    ensures p in Published(rows) ==> p in Published(Numbered(rows, batch, last))
  {
    if p in Published(rows) {
      var id :| id in rows && rows[id].published == Some(p);
      PublishedHas(Numbered(rows, batch, last), id);
    }
  }

  lemma NumberedAdds(rows: map<nat, Row>, batch: set<nat>, last: nat, p: nat)
    requires batch <= Pending(rows)
    ensures last < p <= last + |batch| ==> p in Published(Numbered(rows, batch, last))
  {
    if last < p <= last + |batch| {
      var id := NumberTaker(rows, batch, last, p);
      PublishedHas(Numbered(rows, batch, last), id);
    }
  }

  /** The row of the batch that gets the number `p`. */
  lemma NumberTaker(rows: map<nat, Row>, batch: set<nat>, last: nat, p: nat) returns (id: nat)
    requires batch <= Pending(rows) && last < p <= last + |batch|
    ensures id in rows && Numbered(rows, batch, last)[id].published == Some(p)
  {
    id := Ranked(batch, p - last - 1);
    NumberOf(rows, batch, last, id);
  }

  lemma Ranked(s: set<nat>, k: nat) returns (x: nat)
    requires k < |s|
    ensures x in s && Rank(s, x) == k
  {
    x := Sorted(s)[k];
    SortedRank(s, k);
  }

  lemma NumberOf(rows: map<nat, Row>, batch: set<nat>, last: nat, id: nat)
    requires batch <= Pending(rows) && id in batch
    ensures id in rows && Numbered(rows, batch, last)[id].published == Some(last + 1 + Rank(batch, id))
  {
  }

  lemma NumberedOnly(rows: map<nat, Row>, batch: set<nat>, last: nat, p: nat)
    requires batch <= Pending(rows)
    ensures p in Published(Numbered(rows, batch, last)) ==> p in Published(rows) || last < p <= last + |batch|
  {
    var out := Numbered(rows, batch, last);
    if p in Published(out) {
      var id :| id in out && out[id].published == Some(p);
      if id in batch {
        RankWithin(batch, id);
      } else {
        PublishedHas(rows, id);
      }
    }
  }

  lemma RankWithin(s: set<nat>, x: nat)
    requires x in s
    ensures Rank(s, x) < |s| && Sorted(s)[Rank(s, x)] == x
  {
    assert x in Sorted(s);
    var i :| 0 <= i < |s| && Sorted(s)[i] == x;
    SortedRank(s, i);
  }

  lemma NumberedUnique(rows: map<nat, Row>, batch: set<nat>, last: nat)
    requires batch <= Pending(rows) && Unique(rows)
    requires forall p :: p in Published(rows) ==> p <= last
    ensures Unique(Numbered(rows, batch, last))
  {
    var out := Numbered(rows, batch, last);
    forall i, j | i in out && j in out && out[i].published.Some? && out[i].published == out[j].published
      ensures i == j
    {
      if i in batch && j in batch {
        RankWithin(batch, i);
        RankWithin(batch, j);
      } else if i !in batch && j !in batch {
        assert rows[i].published == rows[j].published;
      } else {
        var k := if i in batch then j else i;
        PublishedHas(rows, k);
      }
    }
  }

  lemma PublishInv(log: Log, base: set<nat>, from: nat)
    requires Inv(log, base, from) && log.publishing.Some?
    ensures Inv(Publish(log), base, from)
  {
    NumberedPublishes(log.rows, log.publishing.value, log.last);
    NumberedUnique(log.rows, log.publishing.value, log.last);
  }

  lemma CommitInv(log: Log, ids: set<nat>, base: set<nat>, from: nat)
    requires Inv(log, base, from)
    ensures Inv(CommitRows(log, ids), base, from)
  {
    var rows := CommitRows(log, ids).rows;
    assert forall id :: id in log.rows ==> id in rows && rows[id] == log.rows[id];
    assert forall id :: id in rows && rows[id].published.Some? ==> id in log.rows && rows[id] == log.rows[id];
    SamePublished(log.rows, rows);
  }

  lemma SamePublished(rows: map<nat, Row>, more: map<nat, Row>)
    requires forall id :: id in rows ==> id in more && more[id] == rows[id]
    requires forall id :: id in more && more[id].published.Some? ==> id in rows
    ensures Published(more) == Published(rows)
  {
  }

  lemma StepInv(log: Log, action: Action, base: set<nat>, from: nat)
    requires Inv(log, base, from)
    ensures Inv(Apply(log, action), base, from)
  {
    match action
    case Commit(ids) => CommitInv(log, ids, base, from);
    case CommitPublish => if log.publishing.Some? { PublishInv(log, base, from); }
    case _ =>
  }

  lemma {:induction false} ExecInv(log: Log, actions: seq<Action>, base: set<nat>, from: nat)
    requires Inv(log, base, from)
    ensures Inv(Exec(log, actions), base, from)
    decreases |actions|
  {
    if actions != [] {
      StepInv(log, actions[0], base, from);
      ExecInv(Apply(log, actions[0]), actions[1..], base, from);
    }
  }

  // ----- Whole runs --------------------------------------------------------------------------

  /**
   * However the appending transactions interleave, a log that starts empty has published exactly
   * `1 .. last`, each number on one row.
   */
  lemma PublishedExactly(actions: seq<Action>)
    ensures var log := Exec(Migrated(map[], 1), actions);
      && (forall p :: p in Published(log.rows) <==> 1 <= p <= log.last)
      && Unique(log.rows)
  {
    MigratedInv(map[], 1);
    ExecInv(Migrated(map[], 1), actions, {}, 0);
  }

  /** A log migrated with events keeps their ids and continues densely above the greatest. */
  lemma PublishedAfterMigration(legacy: map<nat, Content>, next: nat, actions: seq<Action>)
    requires 1 <= next && forall id :: id in legacy ==> 1 <= id < next
    ensures var start := Migrated(legacy, next); var log := Exec(start, actions);
      && (forall p :: p in Published(log.rows) <==> p in legacy || start.last < p <= log.last)
      && Unique(log.rows)
  {
    MigratedInv(legacy, next);
    ExecInv(Migrated(legacy, next), actions, legacy.Keys, Migrated(legacy, next).last);
  }

  /** What later states of the log keep of `log`: published rows, and numbers only above its last. */
  ghost predicate Extends(log: Log, later: Log) {
    && log.last <= later.last
    && (forall id :: id in log.rows && log.rows[id].published.Some? ==>
          id in later.rows && later.rows[id] == log.rows[id])
    && (forall id :: id in later.rows && later.rows[id].published.Some? ==>
          (id in log.rows && later.rows[id] == log.rows[id]) || log.last < later.rows[id].published.value)
  }

  lemma StepExtends(log: Log, action: Action)
    requires IdsAllocated(log) && BatchPending(log)
    ensures Extends(log, Apply(log, action))
  {
  }

  lemma ExtendsTransitive(a: Log, b: Log, c: Log)
    requires Extends(a, b) && Extends(b, c)
    ensures Extends(a, c)
  {
  }

  /** A publication id is never taken back or moved, and each new one is above all earlier ones. */
  lemma {:induction false} PublicationsOnlyGrow(log: Log, actions: seq<Action>, base: set<nat>, from: nat)
    requires Inv(log, base, from)
    ensures Extends(log, Exec(log, actions))
    decreases |actions|
  {
    if actions != [] {
      var next := Apply(log, actions[0]);
      StepInv(log, actions[0], base, from);
      StepExtends(log, actions[0]);
      PublicationsOnlyGrow(next, actions[1..], base, from);
      ExtendsTransitive(log, next, Exec(next, actions[1..]));
    }
  }

  /**
   * A publisher that began after a row was committed publishes it, whatever happens until it
   * commits, as long as it does not roll back and its numbers fit.
   */
  lemma {:induction false} BatchIsPublished(log: Log, actions: seq<Action>, id: nat)
    requires IdsAllocated(log) && BatchPending(log) && id in log.rows
    requires log.publishing.Some? && (id in log.publishing.value || log.rows[id].published.Some?)
    requires RollbackPublish !in actions && CommitPublish !in actions
    ensures var later := Exec(log, actions); var done := Apply(later, CommitPublish);
      && later.publishing == log.publishing && later.last == log.last
      && (later.last + |log.publishing.value| <= MaxId ==> id in done.rows && done.rows[id].published.Some?)
    decreases |actions|
  {
    if actions != [] {
      var next := Apply(log, actions[0]);
      assert actions[0] in actions;
      assert forall a :: a in actions[1..] ==> a in actions;
      WaitingStep(log, actions[0], id);
      BatchIsPublished(next, actions[1..], id);
    }
  }

  lemma WaitingStep(log: Log, action: Action, id: nat)
    requires IdsAllocated(log) && BatchPending(log) && id in log.rows && log.publishing.Some?
    requires action != RollbackPublish && action != CommitPublish
    ensures var next := Apply(log, action);
      && IdsAllocated(next) && BatchPending(next)
      && id in next.rows && next.rows[id] == log.rows[id]
      && next.publishing == log.publishing && next.last == log.last
  {
  }

  /** Within one batch, publication follows row ids. */
  lemma BatchKeepsOrder(log: Log, i: nat, j: nat)
    requires IdsAllocated(log) && BatchPending(log) && log.publishing.Some?
    requires i in log.publishing.value && j in log.publishing.value
    requires log.last + |log.publishing.value| <= MaxId
    ensures var rows := Publish(log).rows;
      && i in rows && j in rows && rows[i].published.Some? && rows[j].published.Some?
      && (i < j <==> rows[i].published.value < rows[j].published.value)
  {
    RankOrder(log.publishing.value, i, j);
  }

  lemma RankOrder(s: set<nat>, i: nat, j: nat)
    requires i in s && j in s
    ensures i < j <==> Rank(s, i) < Rank(s, j)
  {
    RankWithin(s, i);
    RankWithin(s, j);
    AscendingAt(Sorted(s), Rank(s, i), Rank(s, j));
  }

  lemma AscendingAt(q: seq<nat>, a: nat, b: nat)
    requires Ascending(q) && a < |q| && b < |q|
    ensures a < b <==> q[a] < q[b]
  {
  }

  // ----- What the steps do, and what they keep -----------------------------------------------

  /**
   * An event waits under the next id with its content, while there are ids; a commit makes rows of those
   * that wait, unpublished; an abort forgets them.
   */
  lemma AppendsAre(log: Log, content: Content, ids: set<nat>)
    ensures Apply(log, Insert(content))
      == if log.next < 0x8000_0000_0000_0000
         then log.(next := log.next + 1, open := log.open[log.next := content]) else log
    ensures var later := Apply(log, Commit(ids));
      && later == log.(open := log.open - ids, rows := later.rows)
      && later.rows.Keys == log.rows.Keys + (log.open.Keys * ids)
      && (forall id :: id in log.open && id in ids ==> later.rows[id] == Row(log.open[id], None))
      && (forall id :: id in log.rows && !(id in log.open && id in ids) ==> later.rows[id] == log.rows[id])
    ensures Apply(log, Abort(ids)) == log.(open := log.open - ids)
  {
  }

  /** In every run a row stays and says what it said. */
  lemma {:induction false} ContentsStay(log: Log, actions: seq<Action>, id: nat)
    requires IdsAllocated(log) && BatchPending(log) && id in log.rows
    ensures var later := Exec(log, actions); id in later.rows && later.rows[id].content == log.rows[id].content
    decreases |actions|
  {
    if actions != [] {
      ContentStays(log, actions[0], id);
      ContentsStay(Apply(log, actions[0]), actions[1..], id);
    }
  }

  lemma ContentStays(log: Log, action: Action, id: nat)
    requires IdsAllocated(log) && BatchPending(log) && id in log.rows
    ensures var later := Apply(log, action);
      IdsAllocated(later) && BatchPending(later) && id in later.rows && later.rows[id].content == log.rows[id].content
  {
  }

  /** A publisher takes what is unpublished when it begins; a batch whose numbers do not fit is given up. */
  lemma PublishersAre(log: Log)
    ensures log.publishing.None? ==>
      var later := Apply(log, BeginPublish);
      && later == log.(publishing := later.publishing) && later.publishing.Some?
      && forall id :: id in later.publishing.value <==> id in log.rows && log.rows[id].published == None
    ensures log.publishing.Some? ==> Apply(log, BeginPublish) == log
    ensures Apply(log, RollbackPublish) == log.(publishing := None)
    ensures log.publishing.Some? && log.last + |log.publishing.value| >= 0x8000_0000_0000_0000 ==>
      Apply(log, CommitPublish) == log.(publishing := None)
  {
  }

  /** The migration numbers every old event by its row id and keeps what it says. */
  lemma MigrationKeeps(legacy: map<nat, Content>, next: nat)
    ensures var log := Migrated(legacy, next);
      && log.rows.Keys == legacy.Keys && log.next == next && log.open == map[] && log.publishing == None
      && forall id :: id in legacy ==> log.rows[id] == Row(legacy[id], Some(id))
  {
  }
}

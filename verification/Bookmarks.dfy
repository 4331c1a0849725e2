/**
 * The local record of an account's Pixiv bookmarks, and the full reconcile that replaces what is
 * active by what was just read, announcing a new revision only when something changed. A work is
 * named by its Pixiv id, which is unique among works.
 */
module Bookmarks {
  import opened Results

  type AccountId = nat
  type WorkId = int

  datatype Visibility = Public | Private

  datatype Entry = Entry(work: WorkId, visibility: Visibility)

  datatype Bookmark = Bookmark(remoteId: Option<int>, visibility: Visibility, active: bool, firstSeen: int,
    lastSeen: int)

  type Rows = map<WorkId, Bookmark>

  datatype SyncState = SyncState(lastFull: Option<int>, revision: int)

  datatype Announced = Announced(account: AccountId, revision: int)

  /** `works` are the works known here; a bookmark is always one of theirs. */
  datatype Tables = Tables(
    works: set<WorkId>, bookmarks: map<AccountId, Rows>, sync: map<AccountId, SyncState>, events: seq<Announced>)

  datatype SyncError = LeaseLost | RemoteIdRefused

  function RowsOf(t: Tables, account: AccountId): Rows {
    if account in t.bookmarks then t.bookmarks[account] else map[]
  }

  ghost predicate Valid(t: Tables) {
    forall account :: account in t.bookmarks ==> t.bookmarks[account].Keys <= t.works
  }

  // ----- The statements of the reconcile transaction -----------------------------------------

  function Listed(entries: seq<Entry>): set<WorkId> {
    set i | 0 <= i < |entries| :: entries[i].work
  }

  /** One row for each listed work: the first in an order that puts private before public. */
  function Seen(entries: seq<Entry>): map<WorkId, Visibility> {
    map w | w in Listed(entries) :: if Entry(w, Private) in entries then Private else Public
  }

  function Matched(works: set<WorkId>, seen: map<WorkId, Visibility>): map<WorkId, Visibility> {
    map w | w in seen && w in works :: seen[w]
  }

  /** The matched works whose row is missing, inactive or of the other visibility. */
  function Changed(rows: Rows, matched: map<WorkId, Visibility>): set<WorkId> {
    set w | w in matched && (w !in rows || rows[w].visibility != matched[w] || !rows[w].active)
  }

  function Upserted(rows: Rows, matched: map<WorkId, Visibility>, at: int): Rows {
    map w | w in rows.Keys + matched.Keys ::
      if w !in matched then rows[w]
      else if w in rows then rows[w].(visibility := matched[w], active := true, lastSeen := at)
      else Bookmark(None, matched[w], true, at, at)
  }

  /** The active bookmarks of works that were not listed. */
  function Dropped(rows: Rows, listed: set<WorkId>): set<WorkId> {
    set w | w in rows && rows[w].active && w !in listed
  }

  function Deactivated(rows: Rows, dropped: set<WorkId>, at: int): Rows {
    map w | w in rows :: if w in dropped then rows[w].(active := false, lastSeen := at) else rows[w]
  }

  function Replaced(works: set<WorkId>, rows: Rows, entries: seq<Entry>, at: int): Rows {
    var upserted := Upserted(rows, Matched(works, Seen(entries)), at);
    Deactivated(upserted, Dropped(upserted, Listed(entries)), at)
  }

  /** Whether any statement touched a row for a reason other than its time stamps. */
  predicate Touched(works: set<WorkId>, rows: Rows, entries: seq<Entry>, at: int) {
    var matched := Matched(works, Seen(entries));
    Changed(rows, matched) != {} || Dropped(Upserted(rows, matched, at), Listed(entries)) != {}
  }

  function Revision(t: Tables, account: AccountId): int {
    if account in t.sync then t.sync[account].revision else 0
  }

  function LastFull(t: Tables, account: AccountId): Option<int> {
    if account in t.sync then t.sync[account].lastFull else None
  }

  function Announce(t: Tables, account: AccountId, changed: bool): Tables {
    if !changed then t
    else
      var revision := Revision(t, account) + 1;
      t.(sync := t.sync[account := SyncState(LastFull(t, account), revision)],
         events := t.events + [Announced(account, revision)])
  }

  function Reconciled(t: Tables, account: AccountId, entries: seq<Entry>, at: int): Tables {
    var rows := RowsOf(t, account);
    var synced := t.(bookmarks := t.bookmarks[account := Replaced(t.works, rows, entries, at)],
                     sync := t.sync[account := SyncState(Some(at), Revision(t, account))]);
    Announce(synced, account, Touched(t.works, rows, entries, at))
  }

  // ----- What the reconcile is for -----------------------------------------------------------

  /** What is bookmarked, and how. */
  function Active(rows: Rows): map<WorkId, Visibility> {
    map w | w in rows && rows[w].active :: rows[w].visibility
  }

  /** `found` are the known works of the list, each private if it is listed as private at all. */
  ghost predicate Wanted(works: set<WorkId>, entries: seq<Entry>, found: map<WorkId, Visibility>) {
    && (forall w :: w in found <==> w in works && (Entry(w, Public) in entries || Entry(w, Private) in entries))
    && (forall w :: w in found ==> (found[w] == Private <==> Entry(w, Private) in entries))
  }

  lemma ListedAt(entries: seq<Entry>, w: WorkId)
    ensures w in Listed(entries) <==> Entry(w, Public) in entries || Entry(w, Private) in entries
  {
    if w in Listed(entries) {
      var i :| 0 <= i < |entries| && entries[i].work == w;
      assert entries[i] == Entry(w, entries[i].visibility);
      assert entries[i].visibility == Public || entries[i].visibility == Private;
    }
  }

  lemma MatchedIsWanted(works: set<WorkId>, entries: seq<Entry>)
    ensures Wanted(works, entries, Matched(works, Seen(entries)))
  {
    forall w
      ensures w in Listed(entries) <==> Entry(w, Public) in entries || Entry(w, Private) in entries
    {
      ListedAt(entries, w);
    }
  }

  lemma ReplacedIsMatched(works: set<WorkId>, rows: Rows, entries: seq<Entry>, at: int)
    requires rows.Keys <= works
    ensures Active(Replaced(works, rows, entries, at)) == Matched(works, Seen(entries))
  {
  }

  /**
   * A full reconcile makes the active bookmarks of the account exactly the known works of the list,
   * private winning over public, and leaves those of every other account alone.
   */
  lemma ReconcileReplaces(t: Tables, account: AccountId, entries: seq<Entry>, at: int)
    requires Valid(t)
    ensures var later := Reconciled(t, account, entries, at);
      && Valid(later)
      && Wanted(t.works, entries, Active(RowsOf(later, account)))
      && (forall other :: other != account ==> RowsOf(later, other) == RowsOf(t, other))
  {
    ReplacedIsMatched(t.works, RowsOf(t, account), entries, at);
    MatchedIsWanted(t.works, entries);
  }

  /** No row is lost, and what the list does not say about a bookmark stays as it was. */
  lemma ReconcileKeepsRows(t: Tables, account: AccountId, entries: seq<Entry>, at: int, w: WorkId)
    requires w in RowsOf(t, account)
    ensures var rows, later := RowsOf(t, account), RowsOf(Reconciled(t, account, entries, at), account);
      && w in later && later[w].remoteId == rows[w].remoteId && later[w].firstSeen == rows[w].firstSeen
      && (!rows[w].active && !later[w].active ==> later[w] == rows[w])
  {
  }

  /** When each row was seen: listed ones now, dropped ones at their end, all first when they came. */
  lemma ReconcileStamps(t: Tables, account: AccountId, entries: seq<Entry>, at: int, w: WorkId)
    ensures var rows, later := RowsOf(t, account), RowsOf(Reconciled(t, account, entries, at), account);
      var listed := Entry(w, Public) in entries || Entry(w, Private) in entries;
      && (w in t.works && listed ==>
            && w in later && later[w].lastSeen == at
            && later[w].firstSeen == (if w in rows then rows[w].firstSeen else at)
            && later[w].remoteId == (if w in rows then rows[w].remoteId else None))
      && (w in rows && !listed ==>
            w in later && later[w] == if rows[w].active then rows[w].(active := false, lastSeen := at) else rows[w])
      && (w !in rows && !(w in t.works && listed) ==> w !in later)
  {
    ListedAt(entries, w);
  }

  lemma TouchedWhenChanged(works: set<WorkId>, rows: Rows, entries: seq<Entry>, at: int)
    requires rows.Keys <= works
    ensures Touched(works, rows, entries, at) <==> Active(Replaced(works, rows, entries, at)) != Active(rows)
  {
    var matched := Matched(works, Seen(entries));
    ReplacedIsMatched(works, rows, entries, at);
    TouchedMatched(rows, matched, Listed(entries), at);
  }

  lemma TouchedMatched(rows: Rows, matched: map<WorkId, Visibility>, listed: set<WorkId>, at: int)
    requires matched.Keys <= listed && forall w :: w in rows && w in listed ==> w in matched
    ensures Changed(rows, matched) == {} && Dropped(Upserted(rows, matched, at), listed) == {}
      <==> matched == Active(rows)
  {
    var dropped := Dropped(Upserted(rows, matched, at), listed);
    forall w
      ensures w in dropped <==> w in Active(rows) && w !in matched
    {
    }
    if matched == Active(rows) {
      assert Changed(rows, matched) == {};
    }
    if Changed(rows, matched) == {} && dropped == {} {
      forall w
        ensures w in matched <==> w in Active(rows)
        ensures w in matched ==> matched[w] == Active(rows)[w]
      {
        assert w !in Changed(rows, matched) && w !in dropped;
      }
    }
  }

  /**
   * The revision moves, by one and with one event, exactly when the reconcile changed which works
   * are bookmarked or how.
   */
  lemma AnnouncedWhenChanged(t: Tables, account: AccountId, entries: seq<Entry>, at: int)
    requires Valid(t)
    ensures var later := Reconciled(t, account, entries, at);
      var changed := Active(RowsOf(t, account)) != Active(RowsOf(later, account));
      && Revision(later, account) == Revision(t, account) + (if changed then 1 else 0)
      && later.events == t.events + (if changed then [Announced(account, Revision(later, account))] else [])
      && LastFull(later, account) == Some(at)
  {
    TouchedWhenChanged(t.works, RowsOf(t, account), entries, at);
  }

  lemma WantedOnce(works: set<WorkId>, entries: seq<Entry>, a: map<WorkId, Visibility>, b: map<WorkId, Visibility>)
    requires Wanted(works, entries, a) && Wanted(works, entries, b)
    ensures a == b
  {
    assert forall w :: w in a <==> w in b;
    forall w | w in a
      ensures a[w] == b[w]
    {
      assert a[w] == Private <==> b[w] == Private;
      assert a[w] == Public || a[w] == Private;
    }
  }

  /** Reconciling the same list again announces nothing and changes nothing that is bookmarked. */
  lemma ReconcileTwice(t: Tables, account: AccountId, entries: seq<Entry>, at: int, again: int)
    requires Valid(t)
    ensures var once := Reconciled(t, account, entries, at); var twice := Reconciled(once, account, entries, again);
      && Active(RowsOf(twice, account)) == Active(RowsOf(once, account))
      && twice.events == once.events && Revision(twice, account) == Revision(once, account)
  {
    var once := Reconciled(t, account, entries, at);
    var twice := Reconciled(once, account, entries, again);
    ReconcileReplaces(t, account, entries, at);
    ReconcileReplaces(once, account, entries, again);
    AnnouncedWhenChanged(once, account, entries, again);
    WantedOnce(t.works, entries, Active(RowsOf(once, account)), Active(RowsOf(twice, account)));
  }

  // ----- Single bookmarks --------------------------------------------------------------------

  /** The table refuses a remote id that is not positive or that another bookmark of the account has. */
  predicate Refused(rows: Rows, work: WorkId, remoteId: Option<int>) {
    remoteId.Some? && (remoteId.value <= 0 || exists w :: w in rows && w != work && rows[w].remoteId == remoteId)
  }

  predicate AddChanges(rows: Rows, work: WorkId, remoteId: Option<int>, visibility: Visibility) {
    work !in rows || rows[work].remoteId != remoteId || rows[work].visibility != visibility || !rows[work].active
  }

  function Added(t: Tables, account: AccountId, work: WorkId, remoteId: Option<int>, visibility: Visibility, now: int)
    : Tables
  {
    var rows := RowsOf(t, account);
    if work !in t.works || Refused(rows, work, remoteId) then t
    else
      var firstSeen := if work in rows then rows[work].firstSeen else now;
      var saved := rows[work := Bookmark(remoteId, visibility, true, firstSeen, now)];
      Announce(t.(bookmarks := t.bookmarks[account := saved]), account, AddChanges(rows, work, remoteId, visibility))
  }

  function Removed(t: Tables, account: AccountId, work: WorkId, now: int): Tables {
    var rows := RowsOf(t, account);
    if work !in rows || !rows[work].active then t
    else
      var saved := rows[work := rows[work].(active := false, lastSeen := now)];
      Announce(t.(bookmarks := t.bookmarks[account := saved]), account, true)
  }

  /** The rows of other accounts, what is known and what was reconciled stay as they were. */
  ghost predicate OnlyAccount(t: Tables, later: Tables, account: AccountId) {
    && later.works == t.works && LastFull(later, account) == LastFull(t, account)
    && forall other :: other != account ==>
         RowsOf(later, other) == RowsOf(t, other) && Revision(later, other) == Revision(t, other)
  }

  /** The next revision is announced, or nothing is. */
  ghost predicate AnnouncedIf(t: Tables, later: Tables, account: AccountId, changed: bool) {
    && Revision(later, account) == Revision(t, account) + (if changed then 1 else 0)
    && later.events == t.events + (if changed then [Announced(account, Revision(t, account) + 1)] else [])
  }

  /**
   * Adding a bookmark of a known work makes its row that bookmark, active and seen now, unless another row
   * of the account has the remote id; it announces exactly what differs from the row before.
   */
  lemma AddIs(t: Tables, account: AccountId, work: WorkId, remoteId: Option<int>, visibility: Visibility, now: int)
    ensures var later := Added(t, account, work, remoteId, visibility, now); var rows := RowsOf(t, account);
      var refused := remoteId.Some?
        && (remoteId.value <= 0 || exists w :: w in rows && w != work && rows[w].remoteId == remoteId);
      && (work !in t.works || refused ==> later == t)
      && (work in t.works && !refused ==>
            var row := Bookmark(remoteId, visibility, true, if work in rows then rows[work].firstSeen else now, now);
            && OnlyAccount(t, later, account) && RowsOf(later, account) == rows[work := row]
            && AnnouncedIf(t, later, account,
                           work !in rows || rows[work] != row.(lastSeen := rows[work].lastSeen)))
  {
  }

  /** Removing an active bookmark deactivates its row now and announces that; any other is left alone. */
  lemma RemoveIs(t: Tables, account: AccountId, work: WorkId, now: int)
    ensures var later := Removed(t, account, work, now); var rows := RowsOf(t, account);
      if work in rows && rows[work].active then
        && OnlyAccount(t, later, account) && AnnouncedIf(t, later, account, true)
        && RowsOf(later, account) == rows[work := rows[work].(active := false, lastSeen := now)]
      else later == t
  {
  }

  datatype Action =
    | Reconcile(account: AccountId, entries: seq<Entry>, at: int)
    | Add(account: AccountId, work: WorkId, remoteId: Option<int>, visibility: Visibility, at: int)
    | Remove(account: AccountId, work: WorkId, at: int)

  function Apply(t: Tables, action: Action): Tables {
    match action
    case Reconcile(account, entries, at) => Reconciled(t, account, entries, at)
    case Add(account, work, remoteId, visibility, at) => Added(t, account, work, remoteId, visibility, at)
    case Remove(account, work, at) => Removed(t, account, work, at)
  }

  function Exec(t: Tables, actions: seq<Action>): Tables
    decreases |actions|
  {
    if actions == [] then t else Exec(Apply(t, actions[0]), actions[1..])
  }

  /** A run does these one after the other. */
  lemma RunsAreSteps(
    t: Tables, account: AccountId, entries: seq<Entry>, work: WorkId, remoteId: Option<int>, visibility: Visibility,
    at: int)
    ensures Exec(t, [Reconcile(account, entries, at)]) == Reconciled(t, account, entries, at)
    ensures Exec(t, [Add(account, work, remoteId, visibility, at)]) == Added(t, account, work, remoteId, visibility, at)
    ensures Exec(t, [Remove(account, work, at)]) == Removed(t, account, work, at)
  {
    ExecOne(t, Reconcile(account, entries, at));
    ExecOne(t, Add(account, work, remoteId, visibility, at));
    ExecOne(t, Remove(account, work, at));
  }

  lemma ExecOne(t: Tables, action: Action)
    ensures Exec(t, [action]) == Apply(t, action)
  {
    assert [action][1..] == [];
    assert Exec(Apply(t, action), []) == Apply(t, action);
  }

  /** The revisions an account has announced, in order. */
  function RevisionsOf(events: seq<Announced>, account: AccountId): seq<int>
    decreases |events|
  {
    if events == [] then []
    else
      var last := events[|events| - 1];
      RevisionsOf(events[..|events| - 1], account) + (if last.account == account then [last.revision] else [])
  }

  ghost predicate CountsUp(events: seq<Announced>, account: AccountId, revision: int) {
    var revisions := RevisionsOf(events, account);
    |revisions| == revision && forall i :: 0 <= i < |revisions| ==> revisions[i] == i + 1
  }

  lemma ApplyCounts(t: Tables, action: Action, account: AccountId)
    requires CountsUp(t.events, account, Revision(t, account))
    ensures CountsUp(Apply(t, action).events, account, Revision(Apply(t, action), account))
  {
    AnnounceShape(t, action);
    AnnounceCounts(t, Apply(t, action), account, action.account);
  }

  /** An action announces the next revision of one account, or nothing. */
  ghost predicate Announces(t: Tables, later: Tables, changed: AccountId) {
    && (forall other :: other != changed ==> Revision(later, other) == Revision(t, other))
    && ((later.events == t.events && Revision(later, changed) == Revision(t, changed))
        || (later.events == t.events + [Announced(changed, Revision(t, changed) + 1)]
            && Revision(later, changed) == Revision(t, changed) + 1))
  }

  lemma AnnounceShape(t: Tables, action: Action)
    ensures Announces(t, Apply(t, action), action.account)
  {
  }

  lemma AnnounceCounts(t: Tables, later: Tables, account: AccountId, changed: AccountId)
    requires CountsUp(t.events, account, Revision(t, account)) && Announces(t, later, changed)
    ensures CountsUp(later.events, account, Revision(later, account))
  {
    assert (t.events + [Announced(changed, Revision(t, changed) + 1)])[..|t.events|] == t.events;
  }

  /** Over every run an account announces the revisions 1, 2, 3 and so on, up to the one it is at. */
  lemma {:induction false} RevisionsAreConsecutive(t: Tables, actions: seq<Action>, account: AccountId)
    requires CountsUp(t.events, account, Revision(t, account))
    ensures var later := Exec(t, actions); CountsUp(later.events, account, Revision(later, account))
    decreases |actions|
  {
    if actions != [] {
      ApplyCounts(t, actions[0], account);
      RevisionsAreConsecutive(Apply(t, actions[0]), actions[1..], account);
    }
  }

  // ----- The repository ----------------------------------------------------------------------

  class BookmarkRepository {
    var works: set<WorkId>
    var bookmarks: map<AccountId, Rows>
    var sync: map<AccountId, SyncState>
    var events: seq<Announced>

    function Contents(): Tables
      reads this
    {
      Tables(works, bookmarks, sync, events)
    }

    constructor (works: set<WorkId>)
      ensures Contents() == Tables(works, map[], map[], [])
    {
      this.works, bookmarks, sync, events := works, map[], map[], [];
    }

    /** The whole reconcile transaction; without the lease nothing happens. */
    method ReconcileFull(leaseHeld: bool, account: AccountId, entries: seq<Entry>, at: int)
      returns (result: Result<(), SyncError>)
      modifies this`bookmarks, this`sync, this`events
      ensures result == if leaseHeld then Ok(()) else Err(LeaseLost)
      ensures Contents() == if leaseHeld then Reconciled(old(Contents()), account, entries, at) else old(Contents())
    {
      if !leaseHeld {
        return Err(LeaseLost);
      }
      var rows := RowsOf(Contents(), account);
      var matched := Matched(works, Seen(entries));
      var changed := Changed(rows, matched);
      rows := Upserted(rows, matched, at);
      var dropped := Dropped(rows, Listed(entries));
      bookmarks := bookmarks[account := Deactivated(rows, dropped, at)];
      sync := sync[account := SyncState(Some(at), if account in sync then sync[account].revision else 0)];
      AppendEvent(account, changed != {} || dropped != {});
      return Ok(());
    }

    method AppendEvent(account: AccountId, changed: bool)
      modifies this`sync, this`events
      ensures Contents() == Announce(old(Contents()), account, changed)
    {
      if !changed {
        return;
      }
      var revision := if account in sync then sync[account].revision + 1 else 1;
      sync := sync[account := SyncState(if account in sync then sync[account].lastFull else None, revision)];
      events := events + [Announced(account, revision)];
    }

    method MarkAdded(account: AccountId, work: WorkId, remoteId: Option<int>, visibility: Visibility, now: int)
      returns (result: Result<(), SyncError>)
      modifies this`bookmarks, this`sync, this`events
      ensures Contents() == Added(old(Contents()), account, work, remoteId, visibility, now)
      ensures result.Err? <==> work in works && Refused(RowsOf(old(Contents()), account), work, remoteId)
    {
      if work !in works {
        return Ok(());
      }
      var rows := RowsOf(Contents(), account);
      if Refused(rows, work, remoteId) {
        return Err(RemoteIdRefused);
      }
      var previous := if work in rows then Some(rows[work]) else None;
      var firstSeen := if previous.Some? then previous.value.firstSeen else now;
      bookmarks := bookmarks[account := rows[work := Bookmark(remoteId, visibility, true, firstSeen, now)]];
      AppendEvent(account, previous.None? || previous.value.remoteId != remoteId
                           || previous.value.visibility != visibility || !previous.value.active);
      return Ok(());
    }

    method MarkRemovedByWork(account: AccountId, work: WorkId, now: int)
      modifies this`bookmarks, this`sync, this`events
      ensures Contents() == Removed(old(Contents()), account, work, now)
    {
      var rows := RowsOf(Contents(), account);
      if work !in rows || !rows[work].active {
        return;
      }
      bookmarks := bookmarks[account := rows[work := rows[work].(active := false, lastSeen := now)]];
      AppendEvent(account, true);
    }
  }
}

/**
 * One run of a bookmark subscription: it reads the public and then the private bookmarks page by
 * page, saves the works it found, and hands a complete reading to the full reconcile.
 */
module BookmarkPages {
  import opened Results
  import opened Bookmarks
  import Sorting

  const U32Max: nat := 0xFFFF_FFFF
  const I64Max: nat := 0x7FFF_FFFF_FFFF_FFFF

  datatype UnitError = RemoteFailure | InvalidResponse | ProcessingFailed | Refused(error: SyncError)

  // ----- Pages -------------------------------------------------------------------------------

  datatype Response = Failed | Body(ids: seq<int>, total: int)

  datatype Page = Page(ids: seq<WorkId>, next: Option<nat>)

  /** How Pixiv answers a request for a visibility and an offset; the call number lets it change its mind. */
  type Server = (Visibility, nat, nat) -> Response

  predicate ValidIds(ids: seq<int>) {
    forall i :: 0 <= i < |ids| ==> 0 < ids[i] <= I64Max
  }

  function MapPage(offset: nat, response: Response): Result<Page, UnitError> {
    if response.Failed? then Err(RemoteFailure)
    else if !(0 <= response.total <= U32Max) || !ValidIds(response.ids) then Err(InvalidResponse)
    else if offset + |response.ids| > U32Max then Err(InvalidResponse)
    else
      var next := offset + |response.ids|;
      Ok(Page(response.ids, if response.ids != [] && next < response.total then Some(next) else None))
  }

  function Marked(ids: seq<WorkId>, visibility: Visibility): seq<Entry> {
    seq(|ids|, i requires 0 <= i < |ids| => Entry(ids[i], visibility))
  }

  /** An incremental run has read enough after so many pages; a full one goes on to the last. */
  predicate Enough(limit: Option<nat>, pages: nat) {
    limit.Some? && pages >= limit.value
  }

  /** What is read from `offset` on, after `pages` pages, and the number of the next call. */
  function ReadFrom(
    server: Server, visibility: Visibility, limit: Option<nat>, offset: nat, pages: nat, call: nat, entries: seq<Entry>)
    : Result<(seq<Entry>, nat), UnitError>
    requires offset <= U32Max
    decreases U32Max - offset
  {
    match MapPage(offset, server(visibility, offset, call))
    case Err(error) => Err(error)
    case Ok(page) =>
      assert page.next.Some? ==> offset < page.next.value <= U32Max;
      var read := entries + Marked(page.ids, visibility);
      if Enough(limit, pages + 1) || page.next.None? then Ok((read, call + 1))
      else ReadFrom(server, visibility, limit, page.next.value, pages + 1, call + 1, read)
  }

  function Read(server: Server, limit: Option<nat>): Result<seq<Entry>, UnitError> {
    match ReadFrom(server, Public, limit, 0, 0, 0, [])
    case Err(error) => Err(error)
    case Ok(shown) =>
      match ReadFrom(server, Private, limit, 0, 0, shown.1, shown.0)
      case Err(error) => Err(error)
      case Ok(all) => Ok(all.0)
  }

  // ----- The unit ----------------------------------------------------------------------------

  /** How the processing of a work ends: a transient failure is put off, a fatal one ends the unit. */
  datatype Outcome = Saved | Passed | Transient | Fatal

  type Processor = WorkId -> Outcome

  /** The works known after the listed ones were processed, each once, and whether any is to be retried. */
  function Process(works: set<WorkId>, process: Processor, entries: seq<Entry>): (set<WorkId>, Result<bool, UnitError>)
    decreases |entries|
  {
    if entries == [] then (works, Ok(false))
    else
      var n := |entries| - 1;
      var before := Process(works, process, entries[..n]);
      var work := entries[n].work;
      if before.1.Err? || work in Listed(entries[..n]) then before
      else
        match process(work)
        case Saved => (before.0 + {work}, before.1)
        case Passed => before
        case Transient => (before.0, Ok(true))
        case Fatal => (before.0, Err(ProcessingFailed))
  }

  function WorkOf(entry: Entry): int {
    entry.work
  }

  /** Everything is read again for a backfill, and when the last full reconcile is old or missing. */
  predicate Due(t: Tables, account: AccountId, backfill: bool, interval: int, now: int) {
    backfill || LastFull(t, account).None? || now - LastFull(t, account).value >= interval
  }

  /** The tables after the unit, and whether it reconciled. */
  function UnitDone(
    t: Tables, server: Server, process: Processor, account: AccountId, full: bool, lookback: int, leaseHeld: bool,
    at: int)
    : (Tables, Result<bool, UnitError>)
  {
    match Read(server, Limit(full, lookback))
    case Err(error) => (t, Err(error))
    case Ok(entries) =>
      var processed := Process(t.works, process, entries);
      var saved := t.(works := processed.0);
      match processed.1
      case Err(error) => (saved, Err(error))
      case Ok(pending) =>
        if !full || pending then (saved, Ok(false))
        else if !leaseHeld then (saved, Err(Refused(LeaseLost)))
        else (Reconciled(saved, account, Sorting.SortBy(WorkOf, entries), at), Ok(true))
  }

  function Limit(full: bool, lookback: int): Option<nat> {
    if full then None else Some(if lookback < 1 then 1 else lookback)
  }

  /**
   * A page is taken when its ids are positive and its numbers fit 32 bits. It names the next offset exactly
   * when it holds something and ends before the total it states.
   */
  lemma PageIs(offset: nat, response: Response)
    ensures var page := MapPage(offset, response);
      && (page.Ok? <==>
            && response.Body? && 0 <= response.total < 0x1_0000_0000 && offset + |response.ids| < 0x1_0000_0000
            && (forall i :: 0 <= i < |response.ids| ==> 1 <= response.ids[i] < 0x8000_0000_0000_0000))
      && (page.Err? ==> page.error == if response.Failed? then RemoteFailure else InvalidResponse)
      && (page.Ok? ==>
            var end := offset + |response.ids|;
            && page.value.ids == response.ids
            && page.value.next == if end > offset && end < response.total then Some(end) else None)
  {
  }

  /**
   * A unit fails as its reading fails, or because a work failed for good, or at the end because its lease
   * is gone; it reports a reconcile only when it was to read in full.
   */
  lemma UnitFailsWhen(
    t: Tables, server: Server, process: Processor, account: AccountId, full: bool, lookback: int, leaseHeld: bool,
    at: int)
    ensures var read := Read(server, if full then None else Some(if lookback < 1 then 1 else lookback));
      var done := UnitDone(t, server, process, account, full, lookback, leaseHeld, at).1;
      && (read.Err? ==> done == Err(read.error))
      && (read.Ok? ==>
            var fatal := exists w :: w in Listed(read.value) && process(w).Fatal?;
            var pending := exists w :: w in Listed(read.value) && process(w).Transient?;
            && (fatal <==> done == Err(ProcessingFailed))
            && (!fatal && (pending || !full) ==> done == Ok(false))
            && (!fatal && !pending && full ==> done == if leaseHeld then Ok(true) else Err(Refused(LeaseLost))))
  {
    var read := Read(server, Limit(full, lookback));
    if read.Ok? {
      ProcessEnds(t.works, process, read.value);
    }
  }

  /** Processing fails exactly at a fatal work, and leaves something to retry exactly after a transient one. */
  lemma {:induction false} ProcessEnds(works: set<WorkId>, process: Processor, entries: seq<Entry>)
    ensures var done := Process(works, process, entries).1;
      var fatal := exists w :: w in Listed(entries) && process(w).Fatal?;
      var pending := exists w :: w in Listed(entries) && process(w).Transient?;
      done == if fatal then Err(ProcessingFailed) else Ok(pending)
    decreases |entries|
  {
    if entries != [] {
      var n := |entries| - 1;
      ProcessEnds(works, process, entries[..n]);
      ListedSnoc(entries);
      assert entries[n].work in Listed(entries);
    }
  }

  // ----- What is read ------------------------------------------------------------------------

  /** `response` is a part of a fixed list, from `offset` on; it may be empty, and may misstate the total. */
  ghost predicate PartOf(response: Response, ids: seq<WorkId>, offset: nat) {
    && response.Body? && 0 <= response.total <= U32Max
    && offset + |response.ids| <= |ids|
    && response.ids == ids[offset..offset + |response.ids|]
  }

  ghost predicate Serves(server: Server, visibility: Visibility, ids: seq<WorkId>) {
    forall offset: nat, call: nat :: offset <= |ids| ==> PartOf(server(visibility, offset, call), ids, offset)
  }

  /** A list that its pages can address. */
  ghost predicate Addressable(ids: seq<WorkId>) {
    ValidIds(ids) && |ids| <= U32Max
  }

  /** The reading goes on after a page that holds something and ends before the total it states. */
  predicate GoesOn(response: Response, offset: nat) {
    response.Body? && response.ids != [] && offset + |response.ids| < response.total
  }

  function After(response: Response, offset: nat): nat {
    if response.Body? then offset + |response.ids| else offset
  }

  /** Where a full reading of a list of `size` comes to its end, and the number of the next call. */
  function EndOf(server: Server, visibility: Visibility, size: nat, offset: nat, call: nat): (nat, nat)
    requires offset <= size
    decreases size - offset
  {
    var response := server(visibility, offset, call);
    var next := After(response, offset);
    if GoesOn(response, offset) && next <= size then EndOf(server, visibility, size, next, call + 1)
    else (next, call + 1)
  }

  /**
   * No page that is asked for breaks the reading off: until one reaches the end of the list, each holds
   * something and states a total that it does not reach.
   */
  predicate Unbroken(server: Server, visibility: Visibility, size: nat, offset: nat, call: nat)
    requires offset <= size
    decreases size - offset
  {
    || offset == size
    || (var response := server(visibility, offset, call); var next := After(response, offset);
        offset < next && (next == size || (next < size && GoesOn(response, offset)
                                           && Unbroken(server, visibility, size, next, call + 1))))
  }

  lemma {:induction false} EndsWhenUnbroken(
    server: Server, visibility: Visibility, ids: seq<WorkId>, offset: nat, call: nat)
    requires Serves(server, visibility, ids) && offset <= |ids|
    ensures var end := EndOf(server, visibility, |ids|, offset, call).0;
      offset <= end <= |ids| && (end == |ids| <==> Unbroken(server, visibility, |ids|, offset, call))
    decreases |ids| - offset
  {
    var response := server(visibility, offset, call);
    assert PartOf(response, ids, offset);
    if GoesOn(response, offset) {
      EndsWhenUnbroken(server, visibility, ids, After(response, offset), call + 1);
    }
  }

  /** One page of a fixed list is taken whole, and the next is asked for unless it ends the reading. */
  lemma ReadsPage(
    server: Server, visibility: Visibility, ids: seq<WorkId>, limit: Option<nat>, offset: nat, pages: nat, call: nat,
    entries: seq<Entry>)
    requires PartOf(server(visibility, offset, call), ids, offset) && Addressable(ids) && offset <= |ids|
    ensures var response := server(visibility, offset, call); var next := After(response, offset);
      && offset <= next <= |ids|
      && ReadFrom(server, visibility, limit, offset, pages, call, entries) ==
         var read := entries + Marked(ids[offset..next], visibility);
         if Enough(limit, pages + 1) || !GoesOn(response, offset) then Ok((read, call + 1))
         else ReadFrom(server, visibility, limit, next, pages + 1, call + 1, read)
  {
    var response := server(visibility, offset, call);
    var next := After(response, offset);
    assert MapPage(offset, response)
      == Ok(Page(ids[offset..next], if GoesOn(response, offset) then Some(next) else None));
  }

  lemma MarkedJoin(ids: seq<WorkId>, from: nat, middle: nat, to: nat, visibility: Visibility)
    requires from <= middle <= to <= |ids|
    ensures Marked(ids[from..middle], visibility) + Marked(ids[middle..to], visibility)
      == Marked(ids[from..to], visibility)
  {
  }

  /** The reading got to `to`: to where a full one ends, or over an entry at least for each page it looks back. */
  ghost predicate Reaches(limit: Option<nat>, pages: nat, from: nat, to: nat, end: nat) {
    from <= to <= end && (to == end || (limit.Some? && to - from >= limit.value - pages))
  }

  lemma {:induction false} ReadsPrefix(
    server: Server, visibility: Visibility, ids: seq<WorkId>, limit: Option<nat>, offset: nat, pages: nat, call: nat,
    entries: seq<Entry>)
    returns (to: nat)
    requires Serves(server, visibility, ids) && Addressable(ids) && offset <= |ids|
    ensures Reaches(limit, pages, offset, to, EndOf(server, visibility, |ids|, offset, call).0) && to <= |ids|
    ensures var read := ReadFrom(server, visibility, limit, offset, pages, call, entries);
      && read.Ok? && read.value.0 == entries + Marked(ids[offset..to], visibility)
      && (limit.None? ==> read.value.1 == EndOf(server, visibility, |ids|, offset, call).1)
    decreases |ids| - offset
  {
    var response := server(visibility, offset, call);
    assert PartOf(response, ids, offset);
    ReadsPage(server, visibility, ids, limit, offset, pages, call, entries);
    EndsWhenUnbroken(server, visibility, ids, offset, call);
    to := After(response, offset);
    if GoesOn(response, offset) {
      EndsWhenUnbroken(server, visibility, ids, to, call + 1);
      if !Enough(limit, pages + 1) {
        var middle, read := to, entries + Marked(ids[offset..to], visibility);
        to := ReadsPrefix(server, visibility, ids, limit, middle, pages + 1, call + 1, read);
        MarkedJoin(ids, offset, middle, to, visibility);
      }
    }
  }

  /** What a full run reads of the two lists. */
  function ReadOf(server: Server, shown: seq<WorkId>, hidden: seq<WorkId>): (nat, nat) {
    var first := EndOf(server, Public, |shown|, 0, 0);
    (first.0, EndOf(server, Private, |hidden|, 0, first.1).0)
  }

  /** No page of either list breaks a full run off. */
  predicate Whole(server: Server, shown: seq<WorkId>, hidden: seq<WorkId>) {
    && Unbroken(server, Public, |shown|, 0, 0)
    && Unbroken(server, Private, |hidden|, 0, EndOf(server, Public, |shown|, 0, 0).1)
  }

  function Both(shown: seq<WorkId>, hidden: seq<WorkId>): seq<Entry> {
    Marked(shown, Public) + Marked(hidden, Private)
  }

  /**
   * Against fixed lists, however they are cut into pages, a full run reads the beginnings of both; it
   * reads all of both exactly when no page breaks it off.
   */
  lemma ReadsBothLists(server: Server, shown: seq<WorkId>, hidden: seq<WorkId>)
    requires Serves(server, Public, shown) && Serves(server, Private, hidden)
    requires Addressable(shown) && Addressable(hidden)
    ensures var (a, b) := ReadOf(server, shown, hidden);
      a <= |shown| && b <= |hidden| && Read(server, None) == Ok(Both(shown[..a], hidden[..b]))
    ensures Read(server, None) == Ok(Both(shown, hidden)) <==> Whole(server, shown, hidden)
  {
    var a := ReadsPrefix(server, Public, shown, None, 0, 0, 0, []);
    var first := ReadFrom(server, Public, None, 0, 0, 0, []).value;
    var b := ReadsPrefix(server, Private, hidden, None, 0, 0, first.1, first.0);
    assert shown[0..a] == shown[..a] && hidden[0..b] == hidden[..b];
    assert [] + Marked(shown[..a], Public) == Marked(shown[..a], Public);
    EndsWhenUnbroken(server, Public, shown, 0, 0);
    EndsWhenUnbroken(server, Private, hidden, 0, first.1);
    assert |Both(shown[..a], hidden[..b])| == a + b;
    assert a == |shown| && b == |hidden| ==> shown[..a] == shown && hidden[..b] == hidden;
  }

  /**
   * An incremental run reads the newest of both lists: as much as a full one would, or an entry for each
   * page at least.
   */
  lemma ReadsTheNewest(server: Server, shown: seq<WorkId>, hidden: seq<WorkId>, lookback: int) returns (a: nat, b: nat)
    requires Serves(server, Public, shown) && Serves(server, Private, hidden)
    requires Addressable(shown) && Addressable(hidden)
    ensures var limit := Some(if lookback < 1 then 1 else lookback);
      var first := ReadFrom(server, Public, limit, 0, 0, 0, []);
      && first.Ok? && a <= |shown| && b <= |hidden|
      && Reaches(limit, 0, 0, a, EndOf(server, Public, |shown|, 0, 0).0)
      && Reaches(limit, 0, 0, b, EndOf(server, Private, |hidden|, 0, first.value.1).0)
    ensures Read(server, Limit(false, lookback)) == Ok(Both(shown[..a], hidden[..b]))
  {
    var limit := Limit(false, lookback);
    a := ReadsPrefix(server, Public, shown, limit, 0, 0, 0, []);
    var first := ReadFrom(server, Public, limit, 0, 0, 0, []).value;
    b := ReadsPrefix(server, Private, hidden, limit, 0, 0, first.1, first.0);
    assert shown[0..a] == shown[..a] && hidden[0..b] == hidden[..b];
    assert [] + Marked(shown[..a], Public) == Marked(shown[..a], Public);
  }

  /** Whatever the server answers, an incremental run asks for no more pages than it looks back. */
  lemma {:induction false} LookbackIsBounded(
    server: Server, visibility: Visibility, limit: nat, offset: nat, pages: nat, call: nat, entries: seq<Entry>)
    requires offset <= U32Max && pages < limit
    ensures var read := ReadFrom(server, visibility, Some(limit), offset, pages, call, entries);
      read.Ok? ==> call < read.value.1 <= call + (limit - pages)
    decreases limit - pages
  {
    var page := MapPage(offset, server(visibility, offset, call));
    if page.Ok? && page.value.next.Some? && pages + 1 < limit {
      LookbackIsBounded(server, visibility, limit, page.value.next.value, pages + 1, call + 1,
                        entries + Marked(page.value.ids, visibility));
    }
  }

  // ----- What becomes of it ------------------------------------------------------------------

  /** The reconcile does not depend on the order of the list, so sorting it changes nothing. */
  lemma SortedReconciles(t: Tables, account: AccountId, entries: seq<Entry>, at: int)
    ensures Reconciled(t, account, Sorting.SortBy(WorkOf, entries), at) == Reconciled(t, account, entries, at)
  {
    var sorted := Sorting.SortBy(WorkOf, entries);
    Sorting.SortedMembers(WorkOf, entries);
    forall w
      ensures w in Listed(sorted) <==> w in Listed(entries)
    {
      ListedAt(sorted, w);
      ListedAt(entries, w);
    }
    assert Listed(sorted) == Listed(entries);
    assert Seen(sorted) == Seen(entries);
  }

  ghost predicate Settles(process: Processor, w: WorkId) {
    process(w).Saved? || process(w).Passed?
  }

  function SavedOf(process: Processor, entries: seq<Entry>): set<WorkId> {
    set w | w in Listed(entries) && process(w).Saved?
  }

  /** Nothing is left to retry exactly when every listed work was saved or passed over for good. */
  lemma {:induction false} ProcessSettles(works: set<WorkId>, process: Processor, entries: seq<Entry>)
    ensures var processed := Process(works, process, entries);
      && (processed.1 == Ok(false) <==> forall w :: w in Listed(entries) ==> Settles(process, w))
      && (processed.1.Ok? ==> processed.0 == works + SavedOf(process, entries))
      && works <= processed.0 <= works + SavedOf(process, entries)
    decreases |entries|
  {
    if entries != [] {
      var n := |entries| - 1;
      ProcessSettles(works, process, entries[..n]);
      assert entries[..n] + [entries[n]] == entries;
      ListedSnoc(entries);
      assert Settles(process, entries[n].work) <==> process(entries[n].work) in {Saved, Passed};
    }
  }

  lemma ListedSnoc(entries: seq<Entry>)
    requires entries != []
    ensures Listed(entries) == Listed(entries[..|entries| - 1]) + {entries[|entries| - 1].work}
  {
    var n := |entries| - 1;
    assert forall i :: 0 <= i < n ==> entries[..n][i] == entries[i];
  }

  lemma FullUnit(
    t: Tables, server: Server, process: Processor, account: AccountId, lookback: int, leaseHeld: bool, at: int,
    entries: seq<Entry>)
    requires Valid(t) && Read(server, None) == Ok(entries)
    ensures var done := UnitDone(t, server, process, account, true, lookback, leaseHeld, at);
      var processed := Process(t.works, process, entries);
      && (done.1 == Ok(true) <==> leaseHeld && processed.1 == Ok(false))
      && (done.1 == Ok(true) ==> done.0 == Reconciled(t.(works := processed.0), account, entries, at))
  {
    SortedReconciles(t.(works := Process(t.works, process, entries).0), account, entries, at);
  }

  lemma ReconciledMirrors(t: Tables, works: set<WorkId>, account: AccountId, entries: seq<Entry>, at: int)
    requires Valid(t) && t.works <= works
    ensures var later := Reconciled(t.(works := works), account, entries, at);
      && later.works == works && LastFull(later, account) == Some(at)
      && Wanted(works, entries, Active(RowsOf(later, account)))
  {
    ReconcileReplaces(t.(works := works), account, entries, at);
    AnnouncedWhenChanged(t.(works := works), account, entries, at);
  }

  /** Every known work of the lists was read, and read as private if it is listed as private. */
  ghost predicate NoneMissed(works: set<WorkId>, entries: seq<Entry>, read: seq<Entry>) {
    && (forall w :: w in works && w in Listed(entries) ==> w in Listed(read))
    && (forall w :: w in works && Entry(w, Private) in entries ==> Entry(w, Private) in read)
  }

  lemma WantedOfMore(works: set<WorkId>, entries: seq<Entry>, read: seq<Entry>, found: map<WorkId, Visibility>)
    requires Wanted(works, read, found) && forall e :: e in read ==> e in entries
    ensures Wanted(works, entries, found) <==> NoneMissed(works, entries, read)
  {
    forall w
      ensures w in Listed(entries) <==> Entry(w, Public) in entries || Entry(w, Private) in entries
      ensures w in Listed(read) <==> Entry(w, Public) in read || Entry(w, Private) in read
    {
      ListedAt(entries, w);
      ListedAt(read, w);
    }
  }

  lemma PrefixesAreIn(shown: seq<WorkId>, hidden: seq<WorkId>, a: nat, b: nat)
    requires a <= |shown| && b <= |hidden|
    ensures forall e :: e in Both(shown[..a], hidden[..b]) ==> e in Both(shown, hidden)
  {
    forall e | e in Both(shown[..a], hidden[..b])
      ensures e in Both(shown, hidden)
    {
      var i :| 0 <= i < a + b && Both(shown[..a], hidden[..b])[i] == e;
      assert e == Both(shown, hidden)[if i < a then i else i - a + |shown|];
    }
  }

  /**
   * Against fixed lists a unit reconciles exactly when it reads in full, holds its lease and has no
   * work left to retry among those it read, and then the account's active bookmarks are the known works
   * it read, private winning over public. They are those of the whole lists exactly when no known work
   * stands only behind a page that broke the reading off, so that no bookmark is dropped that is still
   * there; and no page does when the reading is whole.
   */
  lemma UnitMirrors(
    t: Tables, server: Server, process: Processor, account: AccountId, full: bool, lookback: int, leaseHeld: bool,
    at: int, shown: seq<WorkId>, hidden: seq<WorkId>)
    requires Valid(t)
    requires Serves(server, Public, shown) && Serves(server, Private, hidden)
    requires Addressable(shown) && Addressable(hidden)
    ensures var (a, b) := ReadOf(server, shown, hidden);
      a <= |shown| && b <= |hidden|
      && var read := Both(shown[..a], hidden[..b]);
         var done := UnitDone(t, server, process, account, full, lookback, leaseHeld, at);
         && (done.1 == Ok(true) <==> full && leaseHeld && forall w :: w in Listed(read) ==> Settles(process, w))
         && (done.1 == Ok(true) ==>
               && done.0.works == t.works + SavedOf(process, read) && LastFull(done.0, account) == Some(at)
               && Wanted(done.0.works, read, Active(RowsOf(done.0, account)))
               && (Wanted(done.0.works, Both(shown, hidden), Active(RowsOf(done.0, account)))
                   <==> NoneMissed(done.0.works, Both(shown, hidden), read)))
         && (Whole(server, shown, hidden) ==> read == Both(shown, hidden))
  {
    ReadsBothLists(server, shown, hidden);
    var (a, b) := ReadOf(server, shown, hidden);
    var read := Both(shown[..a], hidden[..b]);
    ProcessSettles(t.works, process, read);
    PrefixesAreIn(shown, hidden, a, b);
    if full {
      FullUnit(t, server, process, account, lookback, leaseHeld, at, read);
      UnitReconciles(t, Process(t.works, process, read).0, account, Both(shown, hidden), read, at);
    }
  }

  /** Two empty pages drop every bookmark of the account, however long the lists are. */
  lemma EmptyPagesDropAll(
    t: Tables, server: Server, process: Processor, account: AccountId, lookback: int, at: int, shown: seq<WorkId>,
    hidden: seq<WorkId>)
    requires Valid(t)
    requires Serves(server, Public, shown) && Serves(server, Private, hidden)
    requires Addressable(shown) && Addressable(hidden)
    requires After(server(Public, 0, 0), 0) == 0 && After(server(Private, 0, 1), 0) == 0
    ensures var done := UnitDone(t, server, process, account, true, lookback, true, at);
      done.1 == Ok(true) && Active(RowsOf(done.0, account)) == map[]
  {
    UnitMirrors(t, server, process, account, true, lookback, true, at, shown, hidden);
    assert ReadOf(server, shown, hidden) == (0, 0);
    assert Listed(Both(shown[..0], hidden[..0])) == {};
  }

  lemma UnitReconciles(
    t: Tables, works: set<WorkId>, account: AccountId, entries: seq<Entry>, read: seq<Entry>, at: int)
    requires Valid(t) && t.works <= works && forall e :: e in read ==> e in entries
    ensures var later := Reconciled(t.(works := works), account, read, at);
      && later.works == works && LastFull(later, account) == Some(at)
      && Wanted(works, read, Active(RowsOf(later, account)))
      && (Wanted(works, entries, Active(RowsOf(later, account))) <==> NoneMissed(works, entries, read))
  {
    ReconciledMirrors(t, works, account, read, at);
    WantedOfMore(works, entries, read, Active(RowsOf(Reconciled(t.(works := works), account, read, at), account)));
  }

  /**
   * Whatever the server answers, a unit that does not reconcile leaves every bookmark alone and
   * announces nothing, and one that was due in full stays so: the next unit reads everything again.
   */
  lemma UnreconciledStaysDue(
    t: Tables, server: Server, process: Processor, account: AccountId, backfill: bool, interval: int, lookback: int,
    leaseHeld: bool, now: int, later: int)
    requires now <= later
    ensures var full := Due(t, account, backfill, interval, now);
      var done := UnitDone(t, server, process, account, full, lookback, leaseHeld, now);
      done.1 != Ok(true) ==>
        && done.0 == t.(works := done.0.works) && t.works <= done.0.works
        && (full ==> Due(done.0, account, backfill, interval, later))
  {
    var read := Read(server, Limit(Due(t, account, backfill, interval, now), lookback));
    if read.Ok? {
      ProcessSettles(t.works, process, read.value);
    }
  }

  /** An account that was never reconciled is due; after a reconcile it is due again an interval later. */
  lemma DueAgain(
    t: Tables, server: Server, process: Processor, account: AccountId, lookback: int, leaseHeld: bool, at: int,
    backfill: bool, interval: int, later: int)
    ensures LastFull(t, account) == None || backfill ==> Due(t, account, backfill, interval, at)
    ensures var done := UnitDone(t, server, process, account, true, lookback, leaseHeld, at);
      done.1 == Ok(true) ==> (Due(done.0, account, backfill, interval, later) <==> backfill || at + interval <= later)
  {
    var read := Read(server, None);
    if read.Ok? {
      var works := Process(t.works, process, read.value).0;
      ReconcileDates(t.(works := works), account, Sorting.SortBy(WorkOf, read.value), at);
    }
  }

  lemma ReconcileDates(t: Tables, account: AccountId, entries: seq<Entry>, at: int)
    ensures LastFull(Reconciled(t, account, entries, at), account) == Some(at)
  {
  }

  // ----- The service -------------------------------------------------------------------------

  /** Asks for page after page; it ends whatever the server answers, for the offset only grows. */
  method ReadPages(server: Server, visibility: Visibility, limit: Option<nat>, call: nat, collected: seq<Entry>)
    returns (result: Result<(seq<Entry>, nat), UnitError>)
    ensures result == ReadFrom(server, visibility, limit, 0, 0, call, collected)
  {
    var offset, pages, calls, entries := 0, 0, call, collected;
    while true
      invariant offset <= U32Max
      invariant ReadFrom(server, visibility, limit, 0, 0, call, collected)
        == ReadFrom(server, visibility, limit, offset, pages, calls, entries)
      decreases U32Max - offset
    {
      var page := MapPage(offset, server(visibility, offset, calls));
      if page.Err? {
        return Err(page.error);
      }
      entries := entries + Marked(page.value.ids, visibility);
      pages, calls := pages + 1, calls + 1;
      if limit.Some? && pages >= limit.value {
        break;
      }
      if page.value.next.None? {
        break;
      }
      offset := page.value.next.value;
    }
    return Ok((entries, calls));
  }

  /** Processes each listed work once; what was saved stays saved when a later one fails. */
  method SaveWorks(repository: BookmarkRepository, process: Processor, entries: seq<Entry>)
    returns (result: Result<bool, UnitError>)
    modifies repository`works
    ensures (repository.works, result) == Process(old(repository.works), process, entries)
  {
    var seen: set<WorkId>, pending := {}, false;
    var i := 0;
    while i < |entries|
      invariant 0 <= i <= |entries|
      invariant seen == Listed(entries[..i])
      invariant (repository.works, Ok(pending)) == Process(old(repository.works), process, entries[..i])
    {
      var work := entries[i].work;
      assert entries[..i + 1][..i] == entries[..i];
      ListedSnoc(entries[..i + 1]);
      if work !in seen {
        seen := seen + {work};
        match process(work) {
          case Saved => repository.works := repository.works + {work};
          case Passed =>
          case Transient => pending := true;
          case Fatal =>
            FailureStays(old(repository.works), process, entries, i + 1);
            return Err(ProcessingFailed);
        }
      }
      i := i + 1;
    }
    assert entries[..i] == entries;
    return Ok(pending);
  }

  lemma {:induction false} FailureStays(works: set<WorkId>, process: Processor, entries: seq<Entry>, n: nat)
    requires n <= |entries| && Process(works, process, entries[..n]).1.Err?
    ensures Process(works, process, entries) == Process(works, process, entries[..n])
    decreases |entries|
  {
    var m := |entries| - 1;
    if n == |entries| {
      assert entries[..n] == entries;
    } else {
      assert entries[..m][..n] == entries[..n];
      FailureStays(works, process, entries[..m], n);
    }
  }

  method RunUnit(
    repository: BookmarkRepository, server: Server, process: Processor, account: AccountId, backfill: bool,
    interval: int, lookback: int, leaseHeld: bool, now: int)
    returns (result: Result<bool, UnitError>)
    modifies repository
    ensures var t := old(repository.Contents());
      (repository.Contents(), result)
        == UnitDone(t, server, process, account, Due(t, account, backfill, interval, now), lookback, leaseHeld, now)
  {
    var lastFull := if account in repository.sync then repository.sync[account].lastFull else None;
    var full := backfill || lastFull.None? || now - lastFull.value >= interval;
    var limit := Limit(full, lookback);
    var shown := ReadPages(server, Public, limit, 0, []);
    if shown.Err? {
      return Err(shown.error);
    }
    var all := ReadPages(server, Private, limit, shown.value.1, shown.value.0);
    if all.Err? {
      return Err(all.error);
    }
    var pending := SaveWorks(repository, process, all.value.0);
    if pending.Err? {
      return Err(pending.error);
    }
    if full && !pending.value {
      var synced := repository.ReconcileFull(leaseHeld, account, Sorting.SortBy(WorkOf, all.value.0), now);
      if synced.Err? {
        return Err(Refused(synced.error));
      }
      return Ok(true);
    }
    return Ok(false);
  }
}

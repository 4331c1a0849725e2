/**
 * Batches of settings updates. A batch locks its groups one by one in a fixed order, compares every
 * expected revision with the stored one, writes its rows and commits; other batches take their own
 * steps in between.
 */
module SettingsBatch {
  import opened Results
  import opened Sorting

  datatype Group = Security | Storage | Retry | Queue | Processing | Derivative | Ugoira | Pixiv | Content

  type Value = nat
  type BatchId = nat

  function LockOrder(group: Group): int {
    match group
    case Security => 0
    case Storage => 1
    case Retry => 2
    case Queue => 3
    case Processing => 4
    case Derivative => 5
    case Ugoira => 6
    case Pixiv => 7
    case Content => 8
  }

  datatype Write = Write(group: Group, expected: Option<int>, value: Value)

  datatype Setting = Setting(value: Value, revision: int)

  datatype Changed = Changed(group: Group, revision: int)

  datatype Store = Store(rows: map<Group, Setting>, events: seq<Changed>)

  datatype BatchError = DuplicateGroups | RevisionConflict

  function WriteOrder(write: Write): int {
    LockOrder(write.group)
  }

  // ----- One batch as a single atomic step ---------------------------------------------------

  predicate Expected(rows: map<Group, Setting>, write: Write) {
    if write.group in rows then write.expected == Some(rows[write.group].revision) else write.expected.None?
  }

  /** The row a write leaves: its value, at the next revision or the first. */
  function NewRow(rows: map<Group, Setting>, write: Write): Setting {
    if write.expected.Some? && write.group in rows then Setting(write.value, rows[write.group].revision + 1)
    else Setting(write.value, 1)
  }

  function NewRows(rows: map<Group, Setting>, writes: seq<Write>): map<Group, Setting>
    decreases |writes|
  {
    if writes == [] then map[]
    else
      var last := writes[|writes| - 1];
      NewRows(rows, writes[..|writes| - 1])[last.group := NewRow(rows, last)]
  }

  function NewEvents(rows: map<Group, Setting>, writes: seq<Write>): seq<Changed> {
    seq(|writes|, i requires 0 <= i < |writes| => Changed(writes[i].group, NewRow(rows, writes[i]).revision))
  }

  predicate AllExpected(rows: map<Group, Setting>, writes: seq<Write>) {
    forall i :: 0 <= i < |writes| ==> Expected(rows, writes[i])
  }

  function Saved(store: Store, writes: seq<Write>): Store {
    Store(store.rows + NewRows(store.rows, writes), store.events + NewEvents(store.rows, writes))
  }

  /** Compare and swap of a whole batch. */
  function Atomic(store: Store, writes: seq<Write>): Result<Store, BatchError> {
    var ordered := SortBy(WriteOrder, writes);
    if Repeats(WriteOrder, ordered) then Err(DuplicateGroups)
    else if !AllExpected(store.rows, ordered) then Err(RevisionConflict)
    else Ok(Saved(store, ordered))
  }

  ghost predicate DistinctGroups(writes: seq<Write>) {
    forall i, j :: 0 <= i < j < |writes| ==> writes[i].group != writes[j].group
  }

  lemma RepeatsAreDuplicates(writes: seq<Write>)
    ensures Repeats(WriteOrder, SortBy(WriteOrder, writes)) <==> !DistinctGroups(writes)
  {
    RepeatsWhenDuplicate(WriteOrder, writes);
    forall i, j | 0 <= i < j < |writes|
      ensures WriteOrder(writes[i]) == WriteOrder(writes[j]) <==> writes[i].group == writes[j].group
    {
    }
  }

  lemma OrderedExpected(rows: map<Group, Setting>, writes: seq<Write>)
    ensures AllExpected(rows, SortBy(WriteOrder, writes)) <==> AllExpected(rows, writes)
  {
    var ordered := SortBy(WriteOrder, writes);
    SortedMembers(WriteOrder, writes);
    forall i | 0 <= i < |writes|
      ensures writes[i] in ordered
    {
    }
    forall i | 0 <= i < |ordered|
      ensures ordered[i] in writes
    {
    }
  }

  /** The write expects what is stored: the revision of the group's row, or no row. */
  predicate Agrees(rows: map<Group, Setting>, write: Write) {
    write.expected == if write.group in rows then Some(rows[write.group].revision) else None
  }

  /**
   * A batch commits exactly when its groups are distinct and every write expects what is stored, and is
   * refused for a repeated group before anything else.
   */
  lemma CommitsWhenExpected(store: Store, writes: seq<Write>)
    ensures var outcome := Atomic(store, writes);
      && (outcome.Ok? <==> DistinctGroups(writes) && forall w :: w in writes ==> Agrees(store.rows, w))
      && (outcome == Err(DuplicateGroups) <==> !DistinctGroups(writes))
  {
    RepeatsAreDuplicates(writes);
    OrderedExpected(store.rows, writes);
    forall w | w in writes
      ensures Agrees(store.rows, w) <==> Expected(store.rows, w)
    {
    }
    forall i | 0 <= i < |writes|
      ensures writes[i] in writes
    {
    }
  }

  /** The events of a batch come in the order in which its locks are taken: security first, content last. */
  lemma EventsInLockOrder(store: Store, writes: seq<Write>)
    requires Atomic(store, writes).Ok?
    ensures var added := Atomic(store, writes).value.events[|store.events|..];
      forall i, j :: 0 <= i < j < |added| ==> LockOrder(added[i].group) < LockOrder(added[j].group)
    ensures LockOrder(Security) < LockOrder(Storage) < LockOrder(Retry) < LockOrder(Queue) < LockOrder(Processing)
    ensures LockOrder(Processing) < LockOrder(Derivative) < LockOrder(Ugoira) < LockOrder(Pixiv) < LockOrder(Content)
  {
    var ordered := SortBy(WriteOrder, writes);
    SortBySorts(WriteOrder, writes);
    NoRepeatStrict(WriteOrder, ordered);
    assert Atomic(store, writes).value.events[|store.events|..] == NewEvents(store.rows, ordered);
    forall i, j | 0 <= i < j < |ordered|
      ensures LockOrder(ordered[i].group) < LockOrder(ordered[j].group)
    {
      assert WriteOrder(ordered[i]) < WriteOrder(ordered[j]);
    }
  }

  lemma {:induction false} NewRowsAt(rows: map<Group, Setting>, writes: seq<Write>, i: nat)
    requires StrictlyAscends(WriteOrder, writes) && i < |writes|
    ensures writes[i].group in NewRows(rows, writes)
    ensures NewRows(rows, writes)[writes[i].group] == NewRow(rows, writes[i])
    decreases |writes|
  {
    var n := |writes| - 1;
    if i < n {
      NewRowsAt(rows, writes[..n], i);
      assert WriteOrder(writes[i]) < WriteOrder(writes[n]);
    }
  }

  lemma {:induction false} NewRowsKeys(rows: map<Group, Setting>, writes: seq<Write>)
    ensures forall g :: g in NewRows(rows, writes) <==> exists i :: 0 <= i < |writes| && writes[i].group == g
    decreases |writes|
  {
    if writes != [] {
      var n := |writes| - 1;
      NewRowsKeys(rows, writes[..n]);
      forall g
        ensures g in NewRows(rows, writes) <==> exists i :: 0 <= i < |writes| && writes[i].group == g
      {
        if g == writes[n].group {
          assert g in NewRows(rows, writes);
        } else {
          assert forall i :: 0 <= i < n ==> writes[..n][i] == writes[i];
        }
      }
    }
  }

  lemma WriteLands(rows: map<Group, Setting>, writes: seq<Write>, w: Write) returns (k: nat)
    requires w in writes && !Repeats(WriteOrder, SortBy(WriteOrder, writes))
    ensures var ordered := SortBy(WriteOrder, writes);
      && k < |ordered| && ordered[k] == w
      && w.group in NewRows(rows, ordered) && NewRows(rows, ordered)[w.group] == NewRow(rows, w)
  {
    var ordered := SortBy(WriteOrder, writes);
    SortBySorts(WriteOrder, writes);
    SortedMembers(WriteOrder, writes);
    NoRepeatStrict(WriteOrder, ordered);
    k :| 0 <= k < |ordered| && ordered[k] == w;
    NewRowsAt(rows, ordered, k);
  }

  lemma GroupStays(rows: map<Group, Setting>, writes: seq<Write>, g: Group)
    requires forall w :: w in writes ==> w.group != g
    ensures g !in NewRows(rows, SortBy(WriteOrder, writes))
  {
    var ordered := SortBy(WriteOrder, writes);
    SortedMembers(WriteOrder, writes);
    NewRowsKeys(rows, ordered);
    assert forall k :: 0 <= k < |ordered| ==> ordered[k] in writes;
  }

  /** A committed batch moves each of its groups to its next revision and leaves every other alone. */
  lemma CommitMovesItsGroups(store: Store, writes: seq<Write>)
    requires Atomic(store, writes).Ok?
    ensures var later := Atomic(store, writes).value.rows;
      && (forall w :: w in writes ==>
            w.group in later &&
            later[w.group] == Setting(w.value, if w.group in store.rows then store.rows[w.group].revision + 1 else 1))
      && (forall g :: (forall w :: w in writes ==> w.group != g) ==>
            (g in later <==> g in store.rows) && (g in store.rows ==> later[g] == store.rows[g]))
  {
    OrderedExpected(store.rows, writes);
    forall w | w in writes
      ensures w.group in NewRows(store.rows, SortBy(WriteOrder, writes))
      ensures NewRows(store.rows, SortBy(WriteOrder, writes))[w.group] == NewRow(store.rows, w)
      ensures Expected(store.rows, w)
    {
      var _ := WriteLands(store.rows, writes, w);
    }
    forall g | forall w :: w in writes ==> w.group != g
      ensures g !in NewRows(store.rows, SortBy(WriteOrder, writes))
    {
      GroupStays(store.rows, writes, g);
    }
  }

  lemma NewRowIs(rows: map<Group, Setting>, write: Write)
    requires Expected(rows, write)
    ensures NewRow(rows, write)
      == Setting(write.value, if write.group in rows then rows[write.group].revision + 1 else 1)
  {
  }

  lemma EventOf(store: Store, writes: seq<Write>, w: Write)
    requires Atomic(store, writes).Ok? && w in writes
    ensures var revision := if w.group in store.rows then store.rows[w.group].revision + 1 else 1;
      Changed(w.group, revision) in NewEvents(store.rows, SortBy(WriteOrder, writes))
  {
    var ordered := SortBy(WriteOrder, writes);
    var k := WriteLands(store.rows, writes, w);
    OrderedExpected(store.rows, writes);
    assert Expected(store.rows, w);
    NewRowIs(store.rows, w);
    assert NewEvents(store.rows, ordered)[k] == Changed(w.group, NewRow(store.rows, w).revision);
  }

  /** It adds one event for each of its groups and no other, naming the revision reached. */
  lemma CommitAnnouncesItsGroups(store: Store, writes: seq<Write>)
    requires Atomic(store, writes).Ok?
    ensures var later := Atomic(store, writes).value;
      && |later.events| == |store.events| + |writes|
      && later.events[..|store.events|] == store.events
      && (forall w :: w in writes ==>
            var revision := if w.group in store.rows then store.rows[w.group].revision + 1 else 1;
            Changed(w.group, revision) in later.events[|store.events|..])
  {
    var ordered := SortBy(WriteOrder, writes);
    SortedMembers(WriteOrder, writes);
    assert Atomic(store, writes).value.events[|store.events|..] == NewEvents(store.rows, ordered);
    forall w | w in writes
      ensures var revision := if w.group in store.rows then store.rows[w.group].revision + 1 else 1;
        Changed(w.group, revision) in NewEvents(store.rows, ordered)
    {
      EventOf(store, writes, w);
    }
  }
}

/** The settings table and the transaction that updates several groups, step by step. */
module SettingsTables {
  import opened Results
  import opened Sorting
  import opened SettingsBatch

  datatype StoredSetting = StoredSetting(group: Group, setting: Setting)

  class SettingsRepository {
    var rows: map<Group, Setting>
    var events: seq<Changed>

    function Contents(): Store
      reads this
    {
      Store(rows, events)
    }

    constructor (rows: map<Group, Setting>)
      ensures Contents() == Store(rows, [])
    {
      this.rows, events := rows, [];
    }

    /** Writes all the groups of a batch and returns their rows, or changes nothing. */
    method UpdateMany(writes: seq<Write>) returns (result: Result<seq<StoredSetting>, BatchError>)
      modifies this
      ensures match Atomic(old(Contents()), writes)
        case Err(error) => result == Err(error) && Contents() == old(Contents())
        case Ok(store) =>
          Contents() == store && result == Ok(Stored(old(rows), SortBy(WriteOrder, writes)))
    {
      var ordered := SortBy(WriteOrder, writes);
      SortedMembers(WriteOrder, writes);
      if Repeats(WriteOrder, ordered) {
        return Err(DuplicateGroups);
      }
      SortBySorts(WriteOrder, writes);
      NoRepeatStrict(WriteOrder, ordered);
      var i := 0;
      while i < |ordered|
        invariant 0 <= i <= |ordered|
        invariant forall k :: 0 <= k < i ==> Expected(rows, ordered[k])
        invariant Contents() == old(Contents())
      {
        var write := ordered[i];
        var current := if write.group in rows then Some(rows[write.group].revision) else None;
        if current.Some? && write.expected != current {
          return Err(RevisionConflict);
        }
        if current.None? && write.expected.Some? {
          return Err(RevisionConflict);
        }
        i := i + 1;
      }
      var saved := Write(ordered);
      return Ok(saved);
    }

    /** The second half of a batch: every row, then its event, in lock order. */
    method Write(ordered: seq<SettingsBatch.Write>) returns (saved: seq<StoredSetting>)
      requires StrictlyAscends(WriteOrder, ordered) && AllExpected(rows, ordered)
      modifies this
      ensures Contents() == Saved(old(Contents()), ordered)
      ensures saved == Stored(old(rows), ordered)
    {
      ghost var before := Contents();
      saved := [];
      var i := 0;
      assert Saved(before, ordered[..0]) == before;
      while i < |ordered|
        invariant 0 <= i <= |ordered|
        invariant Contents() == Saved(before, ordered[..i])
        invariant saved == Stored(before.rows, ordered[..i])
      {
        var write := ordered[i];
        WriteNext(before, ordered, i);
        var row := if write.expected.Some?
          then Setting(write.value, rows[write.group].revision + 1) else Setting(write.value, 1);
        rows := rows[write.group := row];
        events := events + [Changed(write.group, row.revision)];
        saved := saved + [StoredSetting(write.group, row)];
        i := i + 1;
      }
      assert ordered[..i] == ordered;
    }
  }

  /** The rows a batch returns, in lock order. */
  function Stored(rows: map<Group, Setting>, ordered: seq<SettingsBatch.Write>): seq<StoredSetting> {
    seq(|ordered|, i requires 0 <= i < |ordered| => StoredSetting(ordered[i].group, NewRow(rows, ordered[i])))
  }

  lemma OrderIsStrict(writes: seq<SettingsBatch.Write>)
    requires DistinctGroups(writes)
    ensures var ordered := SortBy(WriteOrder, writes);
      forall i, j :: 0 <= i < j < |ordered| ==> LockOrder(ordered[i].group) < LockOrder(ordered[j].group)
  {
    var ordered := SortBy(WriteOrder, writes);
    RepeatsAreDuplicates(writes);
    SortBySorts(WriteOrder, writes);
    NoRepeatStrict(WriteOrder, ordered);
    forall i, j | 0 <= i < j < |ordered|
      ensures LockOrder(ordered[i].group) < LockOrder(ordered[j].group)
    {
      assert WriteOrder(ordered[i]) < WriteOrder(ordered[j]);
    }
  }

  lemma StoredRow(store: Store, writes: seq<SettingsBatch.Write>, write: SettingsBatch.Write)
    requires Atomic(store, writes).Ok? && write in writes
    ensures write.group in Atomic(store, writes).value.rows
    ensures Atomic(store, writes).value.rows[write.group] == NewRow(store.rows, write)
  {
    CommitMovesItsGroups(store, writes);
    OrderedExpected(store.rows, writes);
    assert Expected(store.rows, write);
    NewRowIs(store.rows, write);
  }

  /** A batch returns the rows it has stored, one for each of its writes, in lock order. */
  lemma ReturnsWhatIsStored(store: Store, writes: seq<SettingsBatch.Write>)
    requires Atomic(store, writes).Ok?
    ensures var saved, rows := Stored(store.rows, SortBy(WriteOrder, writes)), Atomic(store, writes).value.rows;
      && |saved| == |writes|
      && (forall i :: 0 <= i < |saved| ==> saved[i].group in rows && rows[saved[i].group] == saved[i].setting)
      && (forall i, j :: 0 <= i < j < |saved| ==> LockOrder(saved[i].group) < LockOrder(saved[j].group))
  {
    var ordered := SortBy(WriteOrder, writes);
    SortedMembers(WriteOrder, writes);
    CommitsWhenExpected(store, writes);
    OrderIsStrict(writes);
    forall i | 0 <= i < |ordered|
      ensures ordered[i].group in Atomic(store, writes).value.rows
      ensures Atomic(store, writes).value.rows[ordered[i].group] == NewRow(store.rows, ordered[i])
    {
      assert ordered[i] in ordered;
      StoredRow(store, writes, ordered[i]);
    }
  }

  /** One more write moves its own row, which is still as it was when the batch began. */
  lemma WriteNext(before: Store, ordered: seq<SettingsBatch.Write>, i: nat)
    requires StrictlyAscends(WriteOrder, ordered) && AllExpected(before.rows, ordered) && i < |ordered|
    ensures var write := ordered[i]; var row := NewRow(before.rows, write); var now := Saved(before, ordered[..i]);
      && (write.group in now.rows <==> write.group in before.rows)
      && (write.group in now.rows ==> now.rows[write.group] == before.rows[write.group])
      && (write.expected.Some? <==> write.group in before.rows)
      && Saved(before, ordered[..i + 1])
         == Store(now.rows[write.group := row], now.events + [Changed(write.group, row.revision)])
      && Stored(before.rows, ordered[..i + 1]) == Stored(before.rows, ordered[..i]) + [StoredSetting(write.group, row)]
  {
    assert Expected(before.rows, ordered[i]);
    NotYetWritten(before.rows, ordered, i);
    SavedNext(before, ordered, i);
  }

  lemma SavedNext(before: Store, ordered: seq<SettingsBatch.Write>, i: nat)
    requires i < |ordered|
    ensures var write := ordered[i]; var row := NewRow(before.rows, write); var now := Saved(before, ordered[..i]);
      Saved(before, ordered[..i + 1])
        == Store(now.rows[write.group := row], now.events + [Changed(write.group, row.revision)])
  {
    var write := ordered[i];
    var longer, row := ordered[..i + 1], NewRow(before.rows, write);
    assert longer[..i] == ordered[..i] && longer[i] == write;
    assert NewRows(before.rows, longer) == NewRows(before.rows, ordered[..i])[write.group := row];
    assert NewEvents(before.rows, longer)
      == NewEvents(before.rows, ordered[..i]) + [Changed(write.group, row.revision)];
  }

  lemma NotYetWritten(rows: map<Group, Setting>, ordered: seq<SettingsBatch.Write>, i: nat)
    requires StrictlyAscends(WriteOrder, ordered) && i < |ordered|
    ensures ordered[i].group !in NewRows(rows, ordered[..i])
  {
    NewRowsKeys(rows, ordered[..i]);
    forall k | 0 <= k < i
      ensures ordered[..i][k].group != ordered[i].group
    {
      assert WriteOrder(ordered[k]) < WriteOrder(ordered[i]);
    }
  }
}

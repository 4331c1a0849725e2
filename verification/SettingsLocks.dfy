/**
 * Concurrent settings batches, one small step at a time: a lock taken, a revision compared, a row
 * written. What a batch writes is seen by the others only when it commits.
 */
module SettingsLocks {
  import opened Results
  import opened Sorting
  import opened SettingsBatch

  datatype Phase =
    | Locking(taken: nat)
    | Checking(checked: nat)
    | Writing(rows: map<Group, Setting>, events: seq<Changed>)
    | Ended

  /** `writes` are in lock order. */
  datatype Batch = Batch(writes: seq<Write>, phase: Phase)

  /** A batch that got its answer: committed, or refused. */
  datatype Outcome = Outcome(writes: seq<Write>, committed: bool)

  datatype System = System(store: Store, batches: map<BatchId, Batch>, history: seq<Outcome>)

  datatype Action =
    | Submit(id: BatchId, writes: seq<Write>)
    | Step(id: BatchId)
    | Abort(id: BatchId)

  function Active(sys: System): set<BatchId> {
    set id | id in sys.batches && sys.batches[id].phase != Ended
  }

  function Locked(batch: Batch): seq<Write>
    requires batch.phase.Locking? ==> batch.phase.taken <= |batch.writes|
  {
    match batch.phase
    case Locking(taken) => batch.writes[..taken]
    case Ended => []
    case _ => batch.writes
  }

  predicate Holds(batch: Batch, group: Group)
    requires batch.phase.Locking? ==> batch.phase.taken <= |batch.writes|
  {
    exists i :: 0 <= i < |Locked(batch)| && Locked(batch)[i].group == group
  }

  ghost predicate InBounds(sys: System) {
    forall id :: id in sys.batches ==> BatchInBounds(sys.batches[id])
  }

  predicate BatchInBounds(batch: Batch) {
    match batch.phase
    case Locking(taken) => taken <= |batch.writes|
    case Checking(checked) => checked <= |batch.writes|
    case Writing(_, events) => |events| <= |batch.writes|
    case Ended => true
  }

  predicate Free(sys: System, id: BatchId, group: Group)
    requires InBounds(sys)
  {
    forall other :: other in sys.batches && other != id ==> !Holds(sys.batches[other], group)
  }

  /** Waits for a lock that another batch holds. */
  predicate Blocked(sys: System, id: BatchId)
    requires InBounds(sys) && id in sys.batches
  {
    var batch := sys.batches[id];
    batch.phase.Locking? && batch.phase.taken < |batch.writes| && !Free(sys, id, batch.writes[batch.phase.taken].group)
  }

  function Moved(sys: System, id: BatchId, phase: Phase): System
    requires id in sys.batches
  {
    sys.(batches := sys.batches[id := sys.batches[id].(phase := phase)])
  }

  function Answered(sys: System, id: BatchId, committed: bool): System
    requires id in sys.batches
  {
    Moved(sys, id, Ended).(history := sys.history + [Outcome(sys.batches[id].writes, committed)])
  }

  function Advance(sys: System, id: BatchId): System
    requires InBounds(sys) && id in sys.batches
  {
    var batch := sys.batches[id];
    var n := |batch.writes|;
    if Blocked(sys, id) then sys
    else
      match batch.phase
      case Locking(taken) => Moved(sys, id, if taken < n then Locking(taken + 1) else Checking(0))
      case Checking(checked) =>
        if checked == n then Moved(sys, id, Writing(map[], []))
        else if Expected(sys.store.rows, batch.writes[checked]) then Moved(sys, id, Checking(checked + 1))
        else Answered(sys, id, false)
      case Writing(rows, events) =>
        if |events| < n then
          var write := batch.writes[|events|];
          var row := NewRow(sys.store.rows, write);
          Moved(sys, id, Writing(rows[write.group := row], events + [Changed(write.group, row.revision)]))
        else
          Answered(sys, id, true).(store := Store(sys.store.rows + rows, sys.store.events + events))
      case Ended => sys
  }

  /** A batch with a group twice is refused before it takes any lock. */
  function Submitted(sys: System, id: BatchId, writes: seq<Write>): System {
    if id in sys.batches then sys
    else
      var ordered := SortBy(WriteOrder, writes);
      if Repeats(WriteOrder, ordered) then
        sys.(batches := sys.batches[id := Batch(ordered, Ended)], history := sys.history + [Outcome(ordered, false)])
      else
        sys.(batches := sys.batches[id := Batch(ordered, Locking(0))])
  }

  function Apply(sys: System, action: Action): System
    requires InBounds(sys)
  {
    match action
    case Submit(id, writes) => Submitted(sys, id, writes)
    case Step(id) => if id in sys.batches then Advance(sys, id) else sys
    case Abort(id) => if id in sys.batches then Moved(sys, id, Ended) else sys
  }

  // ----- The invariant -----------------------------------------------------------------------

  ghost predicate BatchSound(rows: map<Group, Setting>, batch: Batch) {
    && BatchInBounds(batch)
    && (batch.phase != Ended ==> StrictlyAscends(WriteOrder, batch.writes))
    && (batch.phase.Checking? ==> AllExpected(rows, batch.writes[..batch.phase.checked]))
    && (batch.phase.Writing? ==>
          && AllExpected(rows, batch.writes)
          && batch.phase.rows == NewRows(rows, batch.writes[..|batch.phase.events|])
          && batch.phase.events == NewEvents(rows, batch.writes[..|batch.phase.events|]))
  }

  ghost predicate BatchesSound(sys: System) {
    forall id :: id in sys.batches ==> BatchSound(sys.store.rows, sys.batches[id])
  }

  ghost predicate Exclusive(sys: System)
    requires InBounds(sys)
  {
    forall a, b, g :: a in sys.batches && b in sys.batches && a != b && Holds(sys.batches[a], g) ==>
      !Holds(sys.batches[b], g)
  }

  /** The store after the answered batches, each run alone and atomically, in the order of their answers. */
  function Replay(store: Store, history: seq<Outcome>): Store
    decreases |history|
  {
    if history == [] then store
    else
      var before := Replay(store, history[..|history| - 1]);
      var done := Atomic(before, history[|history| - 1].writes);
      if done.Ok? then done.value else before
  }

  /** Each batch was answered as it would have been alone. */
  ghost predicate Explained(store: Store, history: seq<Outcome>) {
    forall i :: 0 <= i < |history| ==>
      history[i].committed == Atomic(Replay(store, history[..i]), history[i].writes).Ok?
  }

  ghost predicate Serial(start: Store, sys: System) {
    Explained(start, sys.history) && Replay(start, sys.history) == sys.store
  }

  ghost predicate Inv(start: Store, sys: System) {
    InBounds(sys) && BatchesSound(sys) && Exclusive(sys) && Serial(start, sys)
  }

  // ----- A batch in lock order, alone --------------------------------------------------------

  lemma {:induction false} SortedIsOrdered(writes: seq<Write>)
    requires StrictlyAscends(WriteOrder, writes)
    ensures SortBy(WriteOrder, writes) == writes && !Repeats(WriteOrder, writes)
    decreases |writes|
  {
    if writes != [] {
      SortedIsOrdered(writes[1..]);
      assert |writes| > 1 ==> WriteOrder(writes[0]) < WriteOrder(writes[1]);
    }
  }

  lemma AtomicOrdered(store: Store, writes: seq<Write>)
    requires StrictlyAscends(WriteOrder, writes)
    ensures Atomic(store, writes)
      == if AllExpected(store.rows, writes) then Ok(Saved(store, writes)) else Err(RevisionConflict)
  {
    SortedIsOrdered(writes);
  }

  lemma {:induction false} NewRowsAgree(rows: map<Group, Setting>, more: map<Group, Setting>, writes: seq<Write>)
    requires forall i :: 0 <= i < |writes| ==> SameAt(rows, more, writes[i].group)
    ensures NewRows(more, writes) == NewRows(rows, writes) && NewEvents(more, writes) == NewEvents(rows, writes)
    decreases |writes|
  {
    if writes != [] {
      var n := |writes| - 1;
      assert SameAt(rows, more, writes[n].group);
      assert forall i :: 0 <= i < n ==> writes[..n][i] == writes[i];
      NewRowsAgree(rows, more, writes[..n]);
    }
  }

  ghost predicate SameAt(rows: map<Group, Setting>, more: map<Group, Setting>, g: Group) {
    (g in rows <==> g in more) && (g in rows ==> rows[g] == more[g])
  }

  lemma Snoc(start: Store, history: seq<Outcome>, outcome: Outcome)
    requires Explained(start, history)
    requires outcome.committed == Atomic(Replay(start, history), outcome.writes).Ok?
    ensures Explained(start, history + [outcome])
    ensures Replay(start, history + [outcome]) ==
      if outcome.committed then Atomic(Replay(start, history), outcome.writes).value else Replay(start, history)
  {
    var longer := history + [outcome];
    assert longer[..|history|] == history;
    forall i | 0 <= i < |history|
      ensures longer[..i] == history[..i] && longer[i] == history[i]
    {
    }
  }

  // ----- Every step keeps the invariant ------------------------------------------------------

  lemma HoldsAt(batch: Batch, i: nat)
    requires BatchInBounds(batch) && i < |Locked(batch)|
    ensures Holds(batch, Locked(batch)[i].group)
  {
  }

  /** What a batch has learnt stays true while the rows of its locked groups do. */
  lemma SoundElsewhere(rows: map<Group, Setting>, more: map<Group, Setting>, batch: Batch)
    requires BatchSound(rows, batch)
    requires forall g :: Holds(batch, g) ==> SameAt(rows, more, g)
    ensures BatchSound(more, batch)
  {
    if batch.phase.Checking? || batch.phase.Writing? {
      forall i | 0 <= i < |batch.writes|
        ensures SameAt(rows, more, batch.writes[i].group)
      {
        HoldsAt(batch, i);
      }
      if batch.phase.Writing? {
        var written := batch.writes[..|batch.phase.events|];
        NewRowsAgree(rows, more, written);
      }
    }
  }

  /** Moving one batch within the store it sees keeps what concerns the others. */
  lemma MovedInv(start: Store, sys: System, id: BatchId, phase: Phase)
    requires Inv(start, sys) && id in sys.batches
    requires var batch := sys.batches[id].(phase := phase);
      && BatchSound(sys.store.rows, batch)
      && (forall g :: Holds(batch, g) ==> Holds(sys.batches[id], g) || Free(sys, id, g))
    ensures Inv(start, Moved(sys, id, phase))
  {
  }

  /** A batch that takes its next lock holds one group more. */
  lemma LockTaken(batch: Batch, g: Group)
    requires batch.phase.Locking? && batch.phase.taken < |batch.writes|
    requires Holds(batch.(phase := Locking(batch.phase.taken + 1)), g)
    ensures Holds(batch, g) || g == batch.writes[batch.phase.taken].group
  {
    var next := batch.(phase := Locking(batch.phase.taken + 1));
    var i :| 0 <= i < |Locked(next)| && Locked(next)[i].group == g;
    if i < batch.phase.taken {
      HoldsAt(batch, i);
    }
  }

  lemma LockNext(start: Store, sys: System, id: BatchId)
    requires Inv(start, sys) && id in sys.batches && sys.batches[id].phase.Locking? && !Blocked(sys, id)
    ensures Inv(start, Advance(sys, id))
  {
    var batch := sys.batches[id];
    var taken := batch.phase.taken;
    assert BatchSound(sys.store.rows, batch);
    if taken < |batch.writes| {
      forall g | Holds(batch.(phase := Locking(taken + 1)), g)
        ensures Holds(batch, g) || Free(sys, id, g)
      {
        LockTaken(batch, g);
      }
      MovedInv(start, sys, id, Locking(taken + 1));
    } else {
      assert Locked(batch) == batch.writes;
      forall g | Holds(batch.(phase := Checking(0)), g)
        ensures Holds(batch, g)
      {
      }
      MovedInv(start, sys, id, Checking(0));
    }
  }

  lemma SameLocks(batch: Batch, phase: Phase)
    requires BatchInBounds(batch) && (batch.phase.Checking? || batch.phase.Writing?)
    requires BatchInBounds(batch.(phase := phase)) && (phase.Checking? || phase.Writing? || phase == Ended)
    ensures forall g :: Holds(batch.(phase := phase), g) ==> Holds(batch, g)
  {
    forall g | Holds(batch.(phase := phase), g)
      ensures Holds(batch, g)
    {
      var next := batch.(phase := phase);
      var i :| 0 <= i < |Locked(next)| && Locked(next)[i].group == g;
      assert Locked(batch)[i].group == g;
    }
  }

  lemma CheckCases(sys: System, id: BatchId)
    requires InBounds(sys) && id in sys.batches && sys.batches[id].phase.Checking?
    ensures var batch := sys.batches[id]; var k := batch.phase.checked;
      Advance(sys, id) ==
        if k == |batch.writes| then Moved(sys, id, Writing(map[], []))
        else if Expected(sys.store.rows, batch.writes[k]) then Moved(sys, id, Checking(k + 1))
        else Answered(sys, id, false)
  {
  }

  lemma CheckSound(rows: map<Group, Setting>, batch: Batch)
    requires BatchSound(rows, batch) && batch.phase.Checking?
    ensures var k := batch.phase.checked;
      if k == |batch.writes| then BatchSound(rows, batch.(phase := Writing(map[], [])))
      else Expected(rows, batch.writes[k]) ==> BatchSound(rows, batch.(phase := Checking(k + 1)))
  {
  }

  lemma CheckNext(start: Store, sys: System, id: BatchId)
    requires Inv(start, sys) && id in sys.batches && sys.batches[id].phase.Checking?
    ensures Inv(start, Advance(sys, id))
  {
    var batch := sys.batches[id];
    var k := batch.phase.checked;
    CheckCases(sys, id);
    CheckSound(sys.store.rows, batch);
    if k == |batch.writes| {
      SameLocks(batch, Writing(map[], []));
      MovedInv(start, sys, id, Writing(map[], []));
    } else if Expected(sys.store.rows, batch.writes[k]) {
      SameLocks(batch, Checking(k + 1));
      MovedInv(start, sys, id, Checking(k + 1));
    } else {
      RefuseNext(start, sys, id);
    }
  }

  lemma RefuseNext(start: Store, sys: System, id: BatchId)
    requires Inv(start, sys) && id in sys.batches && sys.batches[id].phase.Checking?
    requires !AllExpected(sys.store.rows, sys.batches[id].writes)
    ensures Inv(start, Answered(sys, id, false))
  {
    var batch := sys.batches[id];
    assert BatchSound(sys.store.rows, batch);
    SameLocks(batch, Ended);
    MovedInv(start, sys, id, Ended);
    AtomicOrdered(sys.store, batch.writes);
    Snoc(start, sys.history, Outcome(batch.writes, false));
  }

  lemma WriteSound(rows: map<Group, Setting>, batch: Batch)
    requires BatchSound(rows, batch) && batch.phase.Writing? && |batch.phase.events| < |batch.writes|
    ensures var write := batch.writes[|batch.phase.events|]; var row := NewRow(rows, write);
      BatchSound(rows, batch.(phase :=
        Writing(batch.phase.rows[write.group := row], batch.phase.events + [Changed(write.group, row.revision)])))
  {
    var k := |batch.phase.events|;
    assert batch.writes[..k + 1][..k] == batch.writes[..k] && batch.writes[..k + 1][k] == batch.writes[k];
  }

  lemma WriteNext(start: Store, sys: System, id: BatchId)
    requires Inv(start, sys) && id in sys.batches && sys.batches[id].phase.Writing?
    requires |sys.batches[id].phase.events| < |sys.batches[id].writes|
    ensures Inv(start, Advance(sys, id))
  {
    var batch := sys.batches[id];
    var write := batch.writes[|batch.phase.events|];
    var row := NewRow(sys.store.rows, write);
    var phase := Writing(batch.phase.rows[write.group := row],
                         batch.phase.events + [Changed(write.group, row.revision)]);
    WriteSound(sys.store.rows, batch);
    SameLocks(batch, phase);
    MovedInv(start, sys, id, phase);
  }

  /** The commit: nobody else holds the groups it changes. */
  lemma CommitNext(start: Store, sys: System, id: BatchId)
    requires Inv(start, sys) && id in sys.batches && sys.batches[id].phase.Writing?
    requires |sys.batches[id].phase.events| == |sys.batches[id].writes|
    ensures Inv(start, Advance(sys, id))
  {
    var batch := sys.batches[id];
    var next := Advance(sys, id);
    assert BatchSound(sys.store.rows, batch);
    assert batch.writes[..|batch.writes|] == batch.writes;
    AtomicOrdered(sys.store, batch.writes);
    Snoc(start, sys.history, Outcome(batch.writes, true));
    SameLocks(batch, Ended);
    MovedInv(start, sys, id, Ended);
    NewRowsKeys(sys.store.rows, batch.writes);
    forall other | other in sys.batches && other != id
      ensures BatchSound(next.store.rows, sys.batches[other])
    {
      forall g | Holds(sys.batches[other], g)
        ensures SameAt(sys.store.rows, next.store.rows, g)
      {
        assert !Holds(batch, g);
        assert forall i :: 0 <= i < |batch.writes| ==> Locked(batch)[i] == batch.writes[i];
      }
      SoundElsewhere(sys.store.rows, next.store.rows, sys.batches[other]);
    }
  }

  lemma AddedInv(start: Store, sys: System, id: BatchId, batch: Batch)
    requires Inv(start, sys) && id !in sys.batches
    requires BatchSound(sys.store.rows, batch) && Locked(batch) == []
    ensures Inv(start, sys.(batches := sys.batches[id := batch]))
  {
  }

  lemma SubmitInv(start: Store, sys: System, id: BatchId, writes: seq<Write>)
    requires Inv(start, sys)
    ensures Inv(start, Submitted(sys, id, writes))
  {
    if id !in sys.batches {
      var ordered := SortBy(WriteOrder, writes);
      if Repeats(WriteOrder, ordered) {
        AddedInv(start, sys, id, Batch(ordered, Ended));
        RefusedTwice(sys.store, ordered);
        Snoc(start, sys.history, Outcome(ordered, false));
      } else {
        SortBySorts(WriteOrder, writes);
        NoRepeatStrict(WriteOrder, ordered);
        AddedInv(start, sys, id, Batch(ordered, Locking(0)));
      }
    }
  }

  lemma RefusedTwice(store: Store, ordered: seq<Write>)
    requires Repeats(WriteOrder, ordered)
    ensures Atomic(store, ordered).Err?
  {
    RepeatsWhenDuplicate(WriteOrder, ordered);
    var i :| 0 <= i < |ordered| - 1 && WriteOrder(ordered[i]) == WriteOrder(ordered[i + 1]);
  }

  lemma StepInv(start: Store, sys: System, action: Action)
    requires Inv(start, sys)
    ensures Inv(start, Apply(sys, action))
  {
    match action
    case Submit(id, writes) => SubmitInv(start, sys, id, writes);
    case Abort(id) =>
      if id in sys.batches {
        var batch := sys.batches[id].(phase := Ended);
        assert Locked(batch) == [];
        assert forall g :: !Holds(batch, g);
        assert BatchSound(sys.store.rows, sys.batches[id]);
        MovedInv(start, sys, id, Ended);
      }
    case Step(id) =>
      if id in sys.batches && !Blocked(sys, id) {
        var batch := sys.batches[id];
        match batch.phase
        case Locking(_) => LockNext(start, sys, id);
        case Checking(_) => CheckNext(start, sys, id);
        case Writing(_, events) =>
          assert BatchSound(sys.store.rows, batch);
          if |events| < |batch.writes| { WriteNext(start, sys, id); } else { CommitNext(start, sys, id); }
        case Ended =>
      }
  }

  // ----- Runs --------------------------------------------------------------------------------

  ghost predicate Reaches(sys: System, actions: seq<Action>, later: System)
    decreases |actions|
  {
    if actions == [] then later == sys
    else InBounds(sys) && Reaches(Apply(sys, actions[0]), actions[1..], later)
  }

  function Opening(store: Store): System {
    System(store, map[], [])
  }

  lemma {:induction false} RunInv(start: Store, sys: System, actions: seq<Action>, later: System)
    requires Inv(start, sys) && Reaches(sys, actions, later)
    ensures Inv(start, later)
    decreases |actions|
  {
    if actions != [] {
      StepInv(start, sys, actions[0]);
      RunInv(start, Apply(sys, actions[0]), actions[1..], later);
    }
  }

  /**
   * However the steps of concurrent batches interleave, the store is what the answered batches make
   * of it when each runs alone as one compare and swap, in the order of their answers, and each was
   * committed or refused as it would then have been.
   */
  lemma BatchesAreSerial(store: Store, actions: seq<Action>, later: System)
    requires Reaches(Opening(store), actions, later)
    ensures later.store == Replay(store, later.history)
    ensures forall i :: 0 <= i < |later.history| ==>
      later.history[i].committed == Atomic(Replay(store, later.history[..i]), later.history[i].writes).Ok?
  {
    RunInv(store, Opening(store), actions, later);
  }

  // ----- No deadlock -------------------------------------------------------------------------

  /** The place in the lock order that a batch is waiting for. */
  function Wanted(batch: Batch): int
    requires batch.phase.Locking? && batch.phase.taken < |batch.writes|
  {
    WriteOrder(batch.writes[batch.phase.taken])
  }

  lemma HolderWantsMore(sys: System, id: BatchId) returns (holder: BatchId)
    requires InBounds(sys) && BatchesSound(sys) && id in sys.batches && Blocked(sys, id)
    ensures holder in sys.batches && sys.batches[holder].phase != Ended
    ensures Blocked(sys, holder) ==> Wanted(sys.batches[id]) < Wanted(sys.batches[holder])
  {
    var g := sys.batches[id].writes[sys.batches[id].phase.taken].group;
    holder :| holder in sys.batches && holder != id && Holds(sys.batches[holder], g);
    var batch := sys.batches[holder];
    var i :| 0 <= i < |Locked(batch)| && Locked(batch)[i].group == g;
    assert BatchSound(sys.store.rows, batch);
    if Blocked(sys, holder) {
      assert WriteOrder(batch.writes[i]) < WriteOrder(batch.writes[batch.phase.taken]);
    }
  }

  /** Following who waits for whom always ends at a batch that can move. */
  lemma {:induction false} SomeBatchMoves(sys: System, id: BatchId) returns (mover: BatchId)
    requires InBounds(sys) && BatchesSound(sys) && id in sys.batches && sys.batches[id].phase != Ended
    ensures mover in sys.batches && sys.batches[mover].phase != Ended && !Blocked(sys, mover)
    decreases if Blocked(sys, id) then 9 - Wanted(sys.batches[id]) else 0
  {
    if Blocked(sys, id) {
      var holder := HolderWantsMore(sys, id);
      mover := SomeBatchMoves(sys, holder);
    } else {
      mover := id;
    }
  }

  /** In every reachable state in which a batch is unfinished, some batch can take a step. */
  lemma NeverDeadlocked(store: Store, actions: seq<Action>, later: System, id: BatchId)
    requires Reaches(Opening(store), actions, later)
    requires id in later.batches && later.batches[id].phase != Ended
    ensures InBounds(later) && exists mover ::
      mover in later.batches && later.batches[mover].phase != Ended && !Blocked(later, mover)
  {
    RunInv(store, Opening(store), actions, later);
    var mover := SomeBatchMoves(later, id);
  }

  // ----- Every batch ends --------------------------------------------------------------------

  /** The steps a batch can still take. */
  function Work(batch: Batch): nat
    requires BatchInBounds(batch)
  {
    var n := |batch.writes|;
    match batch.phase
    case Locking(taken) => 3 * n + 3 - taken
    case Checking(checked) => 2 * n + 2 - checked
    case Writing(_, events) => n + 1 - |events|
    case Ended => 0
  }

  function TotalWork(batches: map<BatchId, Batch>, ids: seq<BatchId>): nat
    requires forall id :: id in ids ==> id in batches && BatchInBounds(batches[id])
  {
    if ids == [] then 0 else Work(batches[ids[0]]) + TotalWork(batches, ids[1..])
  }

  lemma WorkShrinks(start: Store, sys: System, id: BatchId)
    requires Inv(start, sys) && id in sys.batches && sys.batches[id].phase != Ended && !Blocked(sys, id)
    ensures var next := Advance(sys, id);
      && InBounds(next) && next.batches.Keys == sys.batches.Keys
      && Work(next.batches[id]) < Work(sys.batches[id])
      && (forall other :: other in sys.batches && other != id ==> next.batches[other] == sys.batches[other])
  {
    StepInv(start, sys, Step(id));
    AdvanceWork(sys, id);
  }

  lemma AdvanceWork(sys: System, id: BatchId)
    requires InBounds(sys) && id in sys.batches && sys.batches[id].phase != Ended && !Blocked(sys, id)
    ensures var next := Advance(sys, id);
      && next.batches == sys.batches[id := next.batches[id]]
      && BatchInBounds(next.batches[id]) && Work(next.batches[id]) < Work(sys.batches[id])
  {
  }

  lemma {:induction false} TotalShrinks(
    batches: map<BatchId, Batch>, later: map<BatchId, Batch>, ids: seq<BatchId>, id: BatchId)
    requires forall other :: other in ids ==> other in batches && BatchInBounds(batches[other])
    requires forall other :: other in ids ==> other in later && BatchInBounds(later[other])
    requires forall other :: other in ids && other != id ==> later[other] == batches[other]
    requires id in ids ==> Work(later[id]) < Work(batches[id])
    ensures TotalWork(later, ids) <= TotalWork(batches, ids)
    ensures id in ids ==> TotalWork(later, ids) < TotalWork(batches, ids)
    decreases |ids|
  {
    if ids != [] {
      assert ids[0] in ids;
      assert forall other :: other in ids[1..] ==> other in ids;
      TotalShrinks(batches, later, ids[1..], id);
    }
  }

  /** From every reachable state some schedule answers all the batches listed. */
  lemma {:induction false} AllBatchesEnd(start: Store, sys: System, ids: seq<BatchId>)
    returns (actions: seq<Action>, later: System)
    requires Inv(start, sys) && (forall id :: id in ids <==> id in sys.batches)
    ensures Reaches(sys, actions, later) && (forall i :: 0 <= i < |actions| ==> actions[i].Step?)
    ensures later.batches.Keys == sys.batches.Keys && Active(later) == {}
    decreases TotalWork(sys.batches, ids)
  {
    if Active(sys) == {} {
      actions, later := [], sys;
    } else {
      var id :| id in Active(sys);
      var mover := SomeBatchMoves(sys, id);
      var next := Advance(sys, mover);
      WorkShrinks(start, sys, mover);
      StepInv(start, sys, Step(mover));
      TotalShrinks(sys.batches, next.batches, ids, mover);
      var rest;
      rest, later := AllBatchesEnd(start, next, ids);
      actions := [Step(mover)] + rest;
      assert actions[1..] == rest;
    }
  }
}

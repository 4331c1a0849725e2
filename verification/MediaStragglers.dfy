/**
 * Workers that go on after their lease. The database refuses them, but nothing stops their file
 * operations: which of those are safe, and two runs in which one is not, although every takeover and
 * every cleaner waited for the lease to end.
 */
module MediaStragglers {
  import opened Results
  import opened MediaModel
  import opened MediaInvariant
  import opened MediaSteps
  import opened MediaTheorems
  import opened MediaTakeover
  import opened MediaLostFile

  /** The lease of the attempt is over, but its process is still there. */
  predicate Late(s: State, l: Lease) {
    l in s.attempts && s.attempts[l].until <= s.clock
  }

  predicate OfWorker(a: Action) {
    a.Write? || a.Judge? || a.RemoveRedundant?
  }

  /** A file operation after the lease does what it would have done before its end. */
  function LateStep(s: State, a: Action): State
    requires OfWorker(a) && Late(s, a.lease)
  {
    Apply(s.(clock := s.attempts[a.lease].until - 1), a).(clock := s.clock)
  }

  /** A step of the protocol, or a file operation by a straggler. */
  datatype Event = Timely(action: Action) | Straggling(action: Action)

  function Act(s: State, e: Event): State {
    match e
    case Timely(a) => Apply(s, a)
    case Straggling(a) => if OfWorker(a) && Late(s, a.lease) then LateStep(s, a) else s
  }

  function Play(s: State, events: seq<Event>): State
    decreases |events|
  {
    if events == [] then s else Play(Act(s, events[0]), events[1..])
  }

  // ---------------------------------------------------------------- what is harmless

  /** A cleaner has removed the path's file, but not yet committed the deletion of its intent. */
  predicate Emptied(s: State, path: Path) {
    exists c :: c in s.cleanups && s.cleanups[c].path == path && s.cleanups[c].removed
  }

  /** The file is a row's, or an attempt inside its lease has stored it and may save it. */
  predicate Needed(s: State, path: Path) {
    Referenced(s.rows, path) || exists l :: l in s.attempts && SavesFrom(s, l, path)
  }

  /**
   * A late write needs an intent to remember the new file, and no cleaner that is about to delete that
   * intent; a late removal must not take a file that is needed.
   */
  predicate LateHarmless(s: State, a: Action)
    requires OfWorker(a) && Late(s, a.lease)
  {
    var task := s.attempts[a.lease].task;
    match a
    case Write(_, _) =>
      task.Registered? && ItemPath(task.item) !in s.files ==>
        ItemPath(task.item) in s.intents && !Emptied(s, ItemPath(task.item))
    case RemoveRedundant(_) =>
      task.Redundant? && ItemPath(task.item) in s.files ==> !Needed(s, ItemPath(task.item))
    case _ => true
  }

  ghost predicate Harmless(s: State, e: Event) {
    match e
    case Timely(a) => Sparing(s, a)
    case Straggling(a) => OfWorker(a) && Late(s, a.lease) ==> LateHarmless(s, a)
  }

  ghost predicate HarmlessRun(s: State, events: seq<Event>)
    decreases |events|
  {
    events == [] || (Harmless(s, events[0]) && HarmlessRun(Act(s, events[0]), events[1..]))
  }

  // ---------------------------------------------------------------- harmless events keep the invariant

  /** What a straggler has got to concerns nobody. */
  lemma LateTaskInv(s: State, l: Lease, task: Task)
    requires Inv(s) && Late(s, l) && TaskSound(s.rows, task)
    ensures Inv(WithTask(s, l, task))
  {
    var t := WithTask(s, l, task);
    assert forall k :: InLease(t, k) <==> InLease(s, k);
    LateAttempts(s, l, task);
    LateWork(s, l, task);
    CleanupFrameSame(s, t);
  }

  lemma LateAttempts(s: State, l: Lease, task: Task)
    requires AttemptsCurrent(s) && Protected(s) && Late(s, l)
    ensures AttemptsCurrent(WithTask(s, l, task)) && Protected(WithTask(s, l, task))
  {
    var t := WithTask(s, l, task);
    assert forall k :: InLease(t, k) <==> InLease(s, k);
    forall k | Concerned(t, k)
      ensures OwnsIntent(t, k)
    {
      assert Concerned(s, k) && OwnsIntent(s, k);
    }
  }

  lemma LateWork(s: State, l: Lease, task: Task)
    requires WorkSound(s) && Late(s, l) && TaskSound(s.rows, task)
    ensures WorkSound(WithTask(s, l, task))
  {
    var t := WithTask(s, l, task);
    forall k | InLease(t, k) && HasStored(t.attempts[k].task) && MaySave(t, k)
      ensures OnDisk(t, k)
    {
      assert InLease(s, k) && MaySave(s, k) && OnDisk(s, k);
    }
    forall k | InLease(t, k) && MayRemove(t.rows, t.attempts[k].task)
      ensures !Referenced(t.rows, TaskPath(t, k))
    {
      assert InLease(s, k) && MayRemove(s.rows, s.attempts[k].task);
    }
  }

  lemma NewFileInv(s: State, path: Path, digest: Digest)
    requires Inv(s) && path !in s.files && path in s.intents && !Emptied(s, path)
    ensures Inv(s.(files := s.files[path := digest]))
  {
    var t := s.(files := s.files[path := digest]);
    AttemptsFrame(s, t);
    AddFileWork(s, t, path);
    forall c | c in t.cleanups
      ensures CleanupSound(t, c)
    {
      assert CleanupSound(s, c);
    }
  }

  lemma LateWriteInv(s: State, l: Lease, digest: Digest)
    requires Inv(s) && Late(s, l) && LateHarmless(s, Write(l, digest))
    ensures Inv(LateStep(s, Write(l, digest)))
  {
    if s.attempts[l].task.Registered? {
      LateWriteShape(s, l, digest);
      var item := s.attempts[l].task.item;
      var path := ItemPath(item);
      assert TaskSound(s.rows, s.attempts[l].task);
      if path !in s.files {
        NewFileInv(s, path, digest);
        LateTaskInv(s.(files := s.files[path := digest]), l, Stored(item, digest));
      } else if item.DerivativeItem? || s.files[path] == digest {
        LateTaskInv(s, l, Stored(item, s.files[path]));
      }
    }
  }

  lemma LateWriteShape(s: State, l: Lease, digest: Digest)
    requires Late(s, l) && s.attempts[l].task.Registered?
    ensures var item := s.attempts[l].task.item; var path := ItemPath(item);
      LateStep(s, Write(l, digest)) ==
        if path !in s.files then WithTask(s.(files := s.files[path := digest]), l, Stored(item, digest))
        else if item.DerivativeItem? || s.files[path] == digest then WithTask(s, l, Stored(item, s.files[path]))
        else s
  {
  }

  lemma LateJudgeInv(s: State, l: Lease)
    requires Inv(s) && Late(s, l)
    ensures Inv(LateStep(s, Judge(l)))
  {
    if s.attempts[l].task.Stored? {
      var task := s.attempts[l].task;
      assert TaskSound(s.rows, task);
      LateJudgeShape(s, l);
      VerdictSound(s.rows, s.files, task.item, task.digest);
      LateTaskInv(s, l, Verdict(s.rows, s.files, task.item, task.digest));
    }
  }

  function Verdict(rows: Rows, files: map<Path, Digest>, item: Item, digest: Digest): Task {
    if && item.SourceItem? && item.current.Some? && item.current.value in rows.revisions
       && rows.revisions[item.current.value].sha == digest
       && rows.revisions[item.current.value].path in files
    then Redundant(item, digest) else Unique(item, digest)
  }

  lemma LateJudgeShape(s: State, l: Lease)
    requires Late(s, l) && s.attempts[l].task.Stored?
    ensures var task := s.attempts[l].task;
      LateStep(s, Judge(l)) == WithTask(s, l, Verdict(s.rows, s.files, task.item, task.digest))
  {
  }

  lemma VerdictSound(rows: Rows, files: map<Path, Digest>, item: Item, digest: Digest)
    requires RowsHaveFiles(rows, files) && Planned(rows, item)
    ensures TaskSound(rows, Verdict(rows, files, item, digest))
  {
  }

  lemma LateRemovalShape(s: State, l: Lease)
    requires Late(s, l) && s.attempts[l].task.Redundant?
    ensures LateStep(s, RemoveRedundant(l))
      == WithTask(s, l, Idle).(files := s.files - {ItemPath(s.attempts[l].task.item)})
  {
  }

  lemma LateRemovalInv(s: State, l: Lease)
    requires Inv(s) && Late(s, l) && LateHarmless(s, RemoveRedundant(l))
    ensures Inv(LateStep(s, RemoveRedundant(l)))
  {
    if s.attempts[l].task.Redundant? {
      var path := ItemPath(s.attempts[l].task.item);
      LateRemovalShape(s, l);
      LateTaskInv(s, l, Idle);
      if path in s.files {
        IdleSaves(s, l, path);
      }
      TakenInv(WithTask(s, l, Idle), path);
    }
  }

  lemma TakenInv(s: State, path: Path)
    requires Inv(s)
    requires path in s.files ==> !Referenced(s.rows, path) && forall k :: !SavesFrom(s, k, path)
    ensures Inv(s.(files := s.files - {path}))
  {
    if path in s.files {
      RemoveFileInv(s, path);
    } else {
      assert s.files - {path} == s.files;
    }
  }

  lemma IdleSaves(s: State, l: Lease, path: Path)
    requires Late(s, l) && !Needed(s, path)
    ensures forall k :: !SavesFrom(WithTask(s, l, Idle), k, path)
  {
    forall k
      ensures !SavesFrom(WithTask(s, l, Idle), k, path)
    {
      assert !(k in s.attempts && SavesFrom(s, k, path));
    }
  }

  lemma ActInv(s: State, e: Event)
    requires Inv(s) && Harmless(s, e)
    ensures Inv(Act(s, e))
  {
    match e
    case Timely(a) => StepInv(s, a);
    case Straggling(a) =>
      if OfWorker(a) && Late(s, a.lease) {
        match a
        case Write(l, digest) => LateWriteInv(s, l, digest);
        case Judge(l) => LateJudgeInv(s, l);
        case RemoveRedundant(l) => LateRemovalInv(s, l);
      }
  }

  lemma {:induction false} PlayInv(s: State, events: seq<Event>)
    requires Inv(s) && HarmlessRun(s, events)
    ensures Inv(Play(s, events))
    decreases |events|
  {
    if events != [] {
      ActInv(s, events[0]);
      PlayInv(Act(s, events[0]), events[1..]);
    }
  }

  // ---------------------------------------------------------------- harmful events

  /** A late write of a file that nobody is going to remember. */
  lemma LateWriteHarms(s: State, l: Lease, digest: Digest) returns (later: seq<Action>)
    requires Inv(s) && Late(s, l) && !LateHarmless(s, Write(l, digest))
    ensures var t := LateStep(s, Write(l, digest)); SparingRun(t, later) && !Consistent(Exec(t, later))
  {
    var path := ItemPath(s.attempts[l].task.item);
    var t := LateStep(s, Write(l, digest));
    LateWriteShape(s, l, digest);
    assert !Referenced(s.rows, path);
    if path !in s.intents {
      later := [];
    } else {
      var c :| c in s.cleanups && s.cleanups[c].path == path && s.cleanups[c].removed;
      later := [CleanCommit(c)];
      LeadsOne(t, CleanCommit(c));
    }
  }

  lemma LateRemovalHarms(s: State, l: Lease) returns (later: seq<Action>)
    requires Inv(s) && Late(s, l) && !LateHarmless(s, RemoveRedundant(l))
    ensures var t := LateStep(s, RemoveRedundant(l)); SparingRun(t, later) && !Consistent(Exec(t, later))
  {
    var path := ItemPath(s.attempts[l].task.item);
    var t := LateStep(s, RemoveRedundant(l));
    LateRemovalShape(s, l);
    assert TaskSound(s.rows, s.attempts[l].task);
    if Referenced(s.rows, path) {
      later := [];
    } else {
      var v :| v in s.attempts && SavesFrom(s, v, path);
      later := SaverHarmed(s, l, v);
    }
  }

  lemma SaverHarmed(s: State, l: Lease, v: Lease) returns (later: seq<Action>)
    requires Inv(s) && Late(s, l) && s.attempts[l].task.Redundant? && s.attempts[l].task.item.SourceItem?
    requires SavesFrom(s, v, ItemPath(s.attempts[l].task.item))
    ensures var t := LateStep(s, RemoveRedundant(l)); SparingRun(t, later) && !Consistent(Exec(t, later))
  {
    SaverReady(s, v, ItemPath(s.attempts[l].task.item));
    LateRemovalShape(s, l);
    ReadyWithout(s, l, v);
    later := SaverLoses(LateStep(s, RemoveRedundant(l)), v);
  }

  /** The attempt can bring its item to a row. */
  ghost predicate Ready(s: State, v: Lease) {
    && InLease(s, v) && Active(s, v) && !MayRemove(s.rows, s.attempts[v].task)
    && (s.attempts[v].task.Stored? || s.attempts[v].task.Unique?) && s.attempts[v].task.item.SourceItem?
    && TaskSound(s.rows, s.attempts[v].task) && CurrentIsLast(s.rows)
    && !Overtaken(s.rows, s.attempts[v].task.item)
    && TaskPath(s, v) in s.intents && s.intents[TaskPath(s, v)].job == v.job
  }

  lemma SaverReady(s: State, v: Lease, path: Path)
    requires Inv(s) && SavesFrom(s, v, path) && path.SourcePath?
    ensures Ready(s, v)
  {
    assert Concerned(s, v) && OwnsIntent(s, v) && Holds(s, v);
    assert TaskSound(s.rows, s.attempts[v].task);
  }

  /** A page that is not overtaken is at the revision the item was planned against, or is not there yet. */
  lemma ItemFits(rows: Rows, item: Item)
    requires item.SourceItem? && Planned(rows, item) && CurrentIsLast(rows) && !Overtaken(rows, item)
    ensures item.page in rows.pages ==> rows.pages[item.page] == item.current
    ensures item.page !in rows.pages ==> item.current.None?
    ensures !NumberTaken(rows, item.page, item.number)
  {
    if item.current.Some? {
      assert NumberedUpTo(rows, item.current.value);
    }
    forall id | id in rows.revisions && rows.revisions[id].page == item.page
      ensures rows.revisions[id].number != item.number
    {
      assert NumberedUpTo(rows, id);
    }
  }

  lemma SaveLoses(s: State, v: Lease) returns (later: seq<Action>)
    requires Ready(s, v) && s.attempts[v].task.Unique? && TaskPath(s, v) !in s.files
    requires s.attempts[v].task.item.page in s.rows.pages
    ensures SparingRun(s, later) && !Consistent(Exec(s, later))
  {
    var revision := Unused(s.rows.revisions.Keys);
    ItemFits(s.rows, s.attempts[v].task.item);
    SaveUnique(s, v, revision);
    LeadsOne(s, SaveSource(v, revision, false));
    later := [SaveSource(v, revision, false)];
    assert revision in SourceAfter(s, v, revision).rows.revisions;
  }

  lemma UniqueLoses(s: State, v: Lease) returns (later: seq<Action>)
    requires Ready(s, v) && s.attempts[v].task.Unique? && TaskPath(s, v) !in s.files
    ensures SparingRun(s, later) && !Consistent(Exec(s, later))
  {
    var page := s.attempts[v].task.item.page;
    if page in s.rows.pages {
      later := SaveLoses(s, v);
    } else {
      var u := Apply(s, AddPage(page));
      ItemFits(s.rows, s.attempts[v].task.item);
      ReadyWithPage(s, v);
      LeadsOne(s, AddPage(page));
      var rest := SaveLoses(u, v);
      LeadsJoin(s, [AddPage(page)], u, rest, Exec(u, rest));
      later := [AddPage(page)] + rest;
    }
  }

  lemma ReadyWithPage(s: State, v: Lease)
    requires Ready(s, v) && s.attempts[v].task.item.page !in s.rows.pages && s.attempts[v].task.item.current.None?
    ensures Ready(Apply(s, AddPage(s.attempts[v].task.item.page)), v)
  {
    var rows := Apply(s, AddPage(s.attempts[v].task.item.page)).rows;
    forall id | id in rows.revisions
      ensures NumberedUpTo(rows, id)
    {
      assert NumberedUpTo(s.rows, id);
    }
  }

  /** Its file is gone, and yet the attempt saves a row for it. */
  lemma SaverLoses(s: State, v: Lease) returns (later: seq<Action>)
    requires Ready(s, v) && TaskPath(s, v) !in s.files
    ensures SparingRun(s, later) && !Consistent(Exec(s, later))
  {
    if s.attempts[v].task.Unique? {
      later := UniqueLoses(s, v);
    } else {
      var u := Apply(s, Judge(v));
      JudgeUnique(s, v);
      LeadsOne(s, Judge(v));
      var rest := UniqueLoses(u, v);
      LeadsJoin(s, [Judge(v)], u, rest, Exec(u, rest));
      later := [Judge(v)] + rest;
    }
  }

  /** Nothing that the saver needs is touched by the straggler, but for the file. */
  lemma ReadyWithout(s: State, l: Lease, v: Lease)
    requires Late(s, l) && s.attempts[l].task.Redundant? && Ready(s, v)
    ensures var t := LateStep(s, RemoveRedundant(l)); Ready(t, v) && TaskPath(t, v) == TaskPath(s, v)
  {
    LateRemovalShape(s, l);
  }

  // ---------------------------------------------------------------- the condition is exact

  lemma {:induction false} PlayTimely(s: State, actions: seq<Action>) returns (events: seq<Event>)
    requires SparingRun(s, actions)
    ensures HarmlessRun(s, events) && Play(s, events) == Exec(s, actions)
    decreases |actions|
  {
    if actions == [] {
      events := [];
    } else {
      var rest := PlayTimely(Apply(s, actions[0]), actions[1..]);
      events := [Timely(actions[0])] + rest;
    }
  }

  /** Whatever harmless things happen from here on, by stragglers too, rows and files stay consistent. */
  ghost predicate SafeFromAll(s: State) {
    forall later :: HarmlessRun(s, later) ==> Consistent(Play(s, later))
  }

  lemma InvSafeFromAll(s: State)
    requires Inv(s)
    ensures SafeFromAll(s)
  {
    forall later | HarmlessRun(s, later)
      ensures Consistent(Play(s, later))
    {
      PlayInv(s, later);
    }
  }

  lemma EventHarms(s: State, e: Event) returns (later: seq<Action>)
    requires Inv(s) && !Harmless(s, e)
    ensures SparingRun(Act(s, e), later) && !Consistent(Exec(Act(s, e), later))
  {
    match e
    case Timely(a) => later := TakeoverHarms(s, a);
    case Straggling(a) =>
      match a
      case Write(l, digest) => later := LateWriteHarms(s, l, digest);
      case RemoveRedundant(l) => later := LateRemovalHarms(s, l);
  }

  /**
   * An event is safe exactly when it is no takeover from an attempt that can still do harm, no late
   * write of a file that no intent is going to remember, and no late removal of a file that is a row's or
   * that a live attempt may save.
   */
  lemma EventIsSafe(s: State, e: Event)
    requires Inv(s)
    ensures SafeFromAll(Act(s, e)) <==> Harmless(s, e)
  {
    if Harmless(s, e) {
      ActInv(s, e);
      InvSafeFromAll(Act(s, e));
    } else {
      var later := EventHarms(s, e);
      var events := PlayTimely(Act(s, e), later);
    }
  }

  /** Every state on the way of a run is safe. */
  ghost predicate SafeAllTheWay(s: State, events: seq<Event>)
    decreases |events|
  {
    SafeFromAll(s) && (events == [] || SafeAllTheWay(Act(s, events[0]), events[1..]))
  }

  /** A whole run, stragglers included, is harmless exactly when every state on its way is safe. */
  lemma {:induction false} EventsAreSafe(s: State, events: seq<Event>)
    requires Inv(s)
    ensures HarmlessRun(s, events) <==> SafeAllTheWay(s, events)
    decreases |events|
  {
    InvSafeFromAll(s);
    if events != [] {
      EventIsSafe(s, events[0]);
      if Harmless(s, events[0]) {
        ActInv(s, events[0]);
        EventsAreSafe(Act(s, events[0]), events[1..]);
      }
    }
  }

  // ---------------------------------------------------------------- two runs from the empty state

  /** A worker is cancelled before it writes; its lease ends and its path is cleaned. */
  function Outlived(): seq<Action> {
    Stopping() + [Tick(10)] + CleaningPass(0, FIRST_PATH)
  }

  lemma Outlives()
    ensures Exec(Start, Outlived())
      == CancelledAuthor().(clock := 10, intents := map[], files := map[])
  {
    var ended := CancelledAuthor().(clock := 10);
    Stops();
    ExecJoin(Start, Stopping() + [Tick(10)], CleaningPass(0, FIRST_PATH));
    ExecJoin(Start, Stopping(), [Tick(10)]);
    ExecTick(CancelledAuthor(), 10);
    PassCleans(ended, 0, FIRST_PATH);
    assert ended.intents - {FIRST_PATH} == map[] && Swept(ended, FIRST_PATH) == map[];
  }

  lemma ExecTick(s: State, amount: nat)
    ensures Exec(s, [Tick(amount)]) == s.(clock := s.clock + amount)
  {
    assert [Tick(amount)][1..] == [];
    assert Exec(Apply(s, Tick(amount)), []) == Apply(s, Tick(amount));
  }

  /** The straggler writes its file all the same, and nobody knows of it. */
  lemma StragglerIsForgotten()
    ensures var s := Act(Exec(Start, Outlived()), Straggling(Write(AUTHOR, 100)));
      FIRST_PATH in s.files && FIRST_PATH !in s.intents && !Referenced(s.rows, FIRST_PATH) && !Consistent(s)
  {
    Outlives();
    var s := Exec(Start, Outlived());
    LateWriteShape(s, AUTHOR, 100);
  }

  /** A worker that repeats a page is cancelled; after its lease another saves the page's next revision. */
  function Superseded(): seq<Action> {
    Publishing() + Repeating() + [Tick(10)]
    + (CleaningPass(0, NEXT_PATH) + Hiring(2) + SavingRun(2, NEXT, 200, 1))
  }

  /** The state in which the lease of the cancelled worker has ended. */
  function Ended(): State {
    Interrupted().(clock := 10)
  }

  lemma Repeated()
    ensures Exec(Start, Publishing() + Repeating() + [Tick(10)]) == Ended()
  {
    Publishes();
    Repeats();
    ExecJoin(Start, Publishing(), Repeating());
    ExecJoin(Start, Publishing() + Repeating(), [Tick(10)]);
    ExecTick(Interrupted(), 10);
  }

  lemma EndedIsReady()
    ensures Sweepable(Ended(), 0, NEXT_PATH) && 2 !in Ended().jobs
    ensures var s := Ended();
      ReadyToSave(WithWorker(s.(intents := s.intents - {NEXT_PATH}, files := Swept(s, NEXT_PATH)), 2), 2, NEXT, 200, 1)
  {
    RowsAreSound();
  }

  lemma Supersedes()
    ensures var s := Exec(Start, Superseded());
      && 1 in s.rows.revisions && s.rows.revisions[1].path == NEXT_PATH && NEXT_PATH in s.files
      && s.clock == 10 && VICTIM in s.attempts && s.attempts[VICTIM] == Attempt(10, Redundant(NEXT, 100))
  {
    var before, after := Publishing() + Repeating() + [Tick(10)],
                         CleaningPass(0, NEXT_PATH) + Hiring(2) + SavingRun(2, NEXT, 200, 1);
    Repeated();
    EndedIsReady();
    SweptAndSaved(Ended(), 0, 2, NEXT, 200, 1);
    ExecJoin(Start, before, after);
  }

  /** The straggler removes its redundant copy, which by now is the file of a row. */
  lemma StragglerTakesRowFile()
    ensures var s := Act(Exec(Start, Superseded()), Straggling(RemoveRedundant(VICTIM)));
      1 in s.rows.revisions && s.rows.revisions[1].path == NEXT_PATH && NEXT_PATH !in s.files && !Consistent(s)
  {
    Supersedes();
    LateRemovalShape(Exec(Start, Superseded()), VICTIM);
  }
}

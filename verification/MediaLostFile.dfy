/**
 * Two runs from the empty state in which an intent is taken over from a cancelled worker inside its
 * lease. In one that worker removes what it takes for its redundant copy, and a row's file is gone; in
 * the other it writes a file that no row and no intent knows of.
 */
module MediaLostFile {
  import opened Results
  import opened MediaModel
  import opened MediaInvariant
  import opened MediaTheorems
  import opened MediaTakeover

  const PAGE := 0
  const FIRST := SourceItem(PAGE, None, 1, 0)
  const NEXT := SourceItem(PAGE, Some(0), 2, 0)
  const FIRST_PATH := SourcePath(PAGE, 1, 0)
  const NEXT_PATH := SourcePath(PAGE, 2, 0)
  const AUTHOR := Lease(0, 2, 7)
  const VICTIM := Lease(1, 2, 7)
  const HEIR := Lease(2, 2, 8)

  const ROWS := Rows(map[PAGE := Some(0)], map[0 := Revision(PAGE, 1, FIRST_PATH, 100)], map[])

  /** The page gets its first revision. */
  function Publishing(): seq<Action> {
    [AddPage(PAGE), Enqueue(0), Claim(0, 7, 10), Register(AUTHOR, FIRST), Write(AUTHOR, 100), Judge(AUTHOR),
     SaveSource(AUTHOR, 0, true)]
  }

  function Published(): State {
    State(0, map[0 := Job(Completed, 3, 7, 10)], map[], ROWS, map[FIRST_PATH := 100], map[], map[])
  }

  /** A worker downloads the same content again, finds it redundant, and is cancelled. */
  function Repeating(): seq<Action> {
    [Enqueue(1), Claim(1, 7, 10), Register(VICTIM, NEXT), Write(VICTIM, 100), Judge(VICTIM), Cancel(1)]
  }

  function Interrupted(): State {
    Published().(jobs := map[0 := Job(Completed, 3, 7, 10), 1 := Job(Cancelled, 3, 7, 10)],
                 intents := map[NEXT_PATH := Intent(1, 10)],
                 files := map[FIRST_PATH := 100, NEXT_PATH := 100],
                 attempts := map[VICTIM := Attempt(10, Redundant(NEXT, 100))])
  }

  /** Another job takes the intent over before the first one's lease is over, and fails for good. */
  function TakingOver(): seq<Action> {
    [Enqueue(2), Claim(2, 8, 10), Register(HEIR, NEXT), Finish(HEIR, Failed(false))]
  }

  function TakenOver(): State {
    Interrupted().(
      jobs := map[0 := Job(Completed, 3, 7, 10), 1 := Job(Cancelled, 3, 7, 10), 2 := Job(Failed(false), 3, 8, 10)],
                   intents := map[NEXT_PATH := Intent(2, 0)])
  }

  /** The cleaner takes the copy, a third job saves other content there, and the first worker removes its copy. */
  function LosingRun(): seq<Action> {
    Publishing() + Repeating() + TakingOver() + LossRun(0, NEXT, 3, 200, 1, VICTIM)
  }

  // ---------------------------------------------------------------- the run, step by step

  lemma {:induction false} ExecJoin(s: State, first: seq<Action>, second: seq<Action>)
    ensures Exec(s, first + second) == Exec(Exec(s, first), second)
    decreases |first|
  {
    if first == [] {
      assert first + second == second;
    } else {
      assert (first + second)[1..] == first[1..] + second;
      ExecJoin(Apply(s, first[0]), first[1..], second);
    }
  }

  /** Each action leads from its state to the next one. */
  ghost predicate Follows(states: seq<State>, actions: seq<Action>) {
    |states| == |actions| + 1 && forall i :: 0 <= i < |actions| ==> Apply(states[i], actions[i]) == states[i + 1]
  }

  lemma {:induction false} FollowsExec(states: seq<State>, actions: seq<Action>)
    requires Follows(states, actions)
    ensures Exec(states[0], actions) == states[|actions|]
    decreases |actions|
  {
    if actions != [] {
      FollowsExec(states[1..], actions[1..]);
    }
  }

  function Enlisted(s: State, job: nat): State {
    s.(jobs := s.jobs[job := Job(Queued, 1, 0, 0)])
  }

  /** The job is claimed at time 0 for ten units, and its worker is at `task`. */
  function At(s: State, lease: Lease, task: Task): State {
    s.(jobs := s.jobs[lease.job := Job(Running, 2, lease.owner, 10)],
       attempts := s.attempts[lease := Attempt(10, task)])
  }

  lemma Enqueues(s: State, job: nat)
    requires s.clock == 0 && job !in s.jobs
    ensures Apply(s, Enqueue(job)) == Enlisted(s, job)
  {
  }

  lemma Claims(s: State, lease: Lease)
    requires s.clock == 0 && lease.revision == 2 && lease.job !in s.jobs
    ensures Apply(Enlisted(s, lease.job), Claim(lease.job, lease.owner, 10)) == At(s, lease, Idle)
  {
    var t := Enlisted(s, lease.job);
    assert t.jobs[lease.job := Job(Running, 2, lease.owner, 10)]
      == s.jobs[lease.job := Job(Running, 2, lease.owner, 10)];
  }

  /** The worker's next task, with what it changes besides. */
  lemma Registers(s: State, lease: Lease, item: Item)
    requires s.clock == 0 && lease.revision == 2 && ItemPath(item) !in s.intents && Planned(s.rows, item)
    ensures var path := ItemPath(item);
      Apply(At(s, lease, Idle), Register(lease, item))
        == At(s.(intents := s.intents[path := Intent(lease.job, 0)]), lease, Registered(item))
  {
    RegisterFree(At(s, lease, Idle), lease, item);
  }

  lemma Writes(s: State, lease: Lease, item: Item, digest: Digest)
    requires s.clock == 0 && ItemPath(item) !in s.files
    ensures Apply(At(s, lease, Registered(item)), Write(lease, digest))
      == At(s.(files := s.files[ItemPath(item) := digest]), lease, Stored(item, digest))
  {
    WriteFree(At(s, lease, Registered(item)), lease, digest);
  }

  lemma AddsPage(s: State)
    requires s == Start.(rows := Rows(map[PAGE := None], map[], map[]))
    ensures Apply(Start, AddPage(PAGE)) == s
  {
  }

  lemma JudgesFirst(s: State)
    requires s.clock == 0 && 0 !in s.rows.revisions
    ensures Apply(At(s, AUTHOR, Stored(FIRST, 100)), Judge(AUTHOR)) == At(s, AUTHOR, Unique(FIRST, 100))
  {
    JudgeUnique(At(s, AUTHOR, Stored(FIRST, 100)), AUTHOR);
  }

  lemma SavesFirst(s: State)
    requires s == Start.(rows := Rows(map[PAGE := None], map[], map[]), intents := map[FIRST_PATH := Intent(0, 0)],
                         files := map[FIRST_PATH := 100])
    ensures Apply(At(s, AUTHOR, Unique(FIRST, 100)), SaveSource(AUTHOR, 0, true)) == Published()
  {
    var t := At(s, AUTHOR, Unique(FIRST, 100));
    assert t.intents - {FIRST_PATH} == map[];
    assert t.attempts - {AUTHOR} == map[];
    assert InsertRevision(s.rows, 0, Revision(PAGE, 1, FIRST_PATH, 100)) == ROWS;
  }

  lemma Publishes()
    ensures Exec(Start, Publishing()) == Published()
  {
    var empty := Start.(rows := Rows(map[PAGE := None], map[], map[]));
    var owned := empty.(intents := map[FIRST_PATH := Intent(0, 0)]);
    var written := owned.(files := map[FIRST_PATH := 100]);
    AddsPage(empty);
    Enqueues(empty, 0);
    Claims(empty, AUTHOR);
    Registers(empty, AUTHOR, FIRST);
    Writes(owned, AUTHOR, FIRST, 100);
    JudgesFirst(written);
    SavesFirst(written);
    FollowsExec(
      [Start, empty, Enlisted(empty, 0), At(empty, AUTHOR, Idle), At(owned, AUTHOR, Registered(FIRST)),
       At(written, AUTHOR, Stored(FIRST, 100)), At(written, AUTHOR, Unique(FIRST, 100)), Published()],
      Publishing());
  }

  lemma JudgesRedundant(s: State)
    requires s.clock == 0 && s.rows == ROWS && FIRST_PATH in s.files
    ensures Apply(At(s, VICTIM, Stored(NEXT, 100)), Judge(VICTIM)) == At(s, VICTIM, Redundant(NEXT, 100))
  {
  }

  lemma CancelsVictim()
    ensures var s := Published().(intents := map[NEXT_PATH := Intent(1, 0)],
                                files := map[FIRST_PATH := 100, NEXT_PATH := 100]);
      Apply(At(s, VICTIM, Redundant(NEXT, 100)), Cancel(1)) == Interrupted()
  {
  }

  lemma Repeats()
    ensures Exec(Published(), Repeating()) == Interrupted()
  {
    var s := Published();
    var owned := s.(intents := map[NEXT_PATH := Intent(1, 0)]);
    var written := owned.(files := map[FIRST_PATH := 100, NEXT_PATH := 100]);
    Enqueues(s, 1);
    Claims(s, VICTIM);
    Registers(s, VICTIM, NEXT);
    Writes(owned, VICTIM, NEXT, 100);
    JudgesRedundant(written);
    CancelsVictim();
    FollowsExec(
      [s, Enlisted(s, 1), At(s, VICTIM, Idle), At(owned, VICTIM, Registered(NEXT)),
        At(written, VICTIM, Stored(NEXT, 100)),
       At(written, VICTIM, Redundant(NEXT, 100)), Interrupted()],
      Repeating());
  }

  /** The upsert looks only at whether the present owner's job is terminal. */
  lemma RegistersOver(s: State, lease: Lease, item: Item)
    requires s.clock == 0 && s.cleanups == map[] && lease.revision == 2 && Planned(s.rows, item)
    requires ItemPath(item) in s.intents && s.intents[ItemPath(item)].job in s.jobs
    requires s.intents[ItemPath(item)].job != lease.job && Terminal(s.jobs[s.intents[ItemPath(item)].job])
    ensures Apply(At(s, lease, Idle), Register(lease, item))
      == At(s.(intents := s.intents[ItemPath(item) := Intent(lease.job, 0)]), lease, Registered(item))
  {
    var t := At(s, lease, Idle);
    assert RegisterIntent(t, lease.job, ItemPath(item)).Ok?;
  }

  lemma FailsWorker(s: State, lease: Lease, task: Task)
    requires s.clock == 0 && lease.revision == 2 && lease !in s.attempts
    ensures Apply(At(s, lease, task), Finish(lease, Failed(false)))
      == s.(jobs := s.jobs[lease.job := Job(Failed(false), 3, lease.owner, 10)])
  {
    var t := At(s, lease, task);
    assert Active(t, lease);
    assert t.attempts - {lease} == s.attempts;
  }

  lemma TakesOver()
    ensures Exec(Interrupted(), TakingOver()) == TakenOver()
  {
    var s := Interrupted();
    var taken := s.(intents := map[NEXT_PATH := Intent(2, 0)]);
    Enqueues(s, 2);
    Claims(s, HEIR);
    RegistersOver(s, HEIR, NEXT);
    FailsWorker(taken, HEIR, Registered(NEXT));
    FollowsExec(
      [s, Enlisted(s, 2), At(s, HEIR, Idle), At(taken, HEIR, Registered(NEXT)), TakenOver()],
      TakingOver());
  }

  lemma RowsAreSound()
    ensures RowsSound(ROWS) && !Referenced(ROWS, NEXT_PATH) && RowsHaveFiles(ROWS, TakenOver().files)
  {
    assert NumberedUpTo(ROWS, 0);
  }

  lemma TakenOverLoses()
    ensures Loss(TakenOver(), 0, 3, 200, 1, VICTIM)
  {
    RowsAreSound();
  }

  /** A row is left without its file, although every transaction and the cleaner did as they should. */
  lemma RowFileIsLost()
    ensures var s := Exec(Start, LosingRun());
      1 in s.rows.revisions && s.rows.revisions[1].path == NEXT_PATH && NEXT_PATH !in s.files && !Consistent(s)
  {
    Publishes();
    Repeats();
    TakesOver();
    TakenOverLoses();
    RemoverLosesRow(TakenOver(), 0, 3, 200, 1, VICTIM);
    ExecJoin(Start, Publishing(), Repeating());
    ExecJoin(Start, Publishing() + Repeating(), TakingOver());
    ExecJoin(Start, Publishing() + Repeating() + TakingOver(), LossRun(0, NEXT, 3, 200, 1, VICTIM));
  }

  // ---------------------------------------------------------------- a forgotten file

  const RIVAL := Lease(1, 2, 8)

  /** A worker registers a page's first revision and is cancelled ... */
  function Stopping(): seq<Action> {
    [AddPage(PAGE), Enqueue(0), Claim(0, 7, 10), Register(AUTHOR, FIRST), Cancel(0)]
  }

  /** ... and another takes its intent over and fails. */
  function Ousting(): seq<Action> {
    [Enqueue(1), Claim(1, 8, 10), Register(RIVAL, FIRST), Finish(RIVAL, Failed(false))]
  }

  function CancelledAuthor(): State {
    State(0, map[0 := Job(Cancelled, 3, 7, 10)], map[FIRST_PATH := Intent(0, 10)],
          Rows(map[PAGE := None], map[], map[]), map[], map[AUTHOR := Attempt(10, Registered(FIRST))], map[])
  }

  function OustedAuthor(): State {
    CancelledAuthor().(jobs := map[0 := Job(Cancelled, 3, 7, 10), 1 := Job(Failed(false), 3, 8, 10)],
                  intents := map[FIRST_PATH := Intent(1, 0)])
  }

  lemma CancelsAuthor()
    ensures var s := Start.(rows := Rows(map[PAGE := None], map[], map[]), intents := map[FIRST_PATH := Intent(0, 0)]);
      Apply(At(s, AUTHOR, Registered(FIRST)), Cancel(0)) == CancelledAuthor()
  {
  }

  lemma Stops()
    ensures Exec(Start, Stopping()) == CancelledAuthor()
  {
    var empty := Start.(rows := Rows(map[PAGE := None], map[], map[]));
    var owned := empty.(intents := map[FIRST_PATH := Intent(0, 0)]);
    AddsPage(empty);
    Enqueues(empty, 0);
    Claims(empty, AUTHOR);
    Registers(empty, AUTHOR, FIRST);
    CancelsAuthor();
    FollowsExec(
      [Start, empty, Enlisted(empty, 0), At(empty, AUTHOR, Idle), At(owned, AUTHOR, Registered(FIRST)),
        CancelledAuthor()],
      Stopping());
  }

  lemma Ousts()
    ensures Exec(CancelledAuthor(), Ousting()) == OustedAuthor()
  {
    var s := CancelledAuthor();
    var taken := s.(intents := map[FIRST_PATH := Intent(1, 0)]);
    Enqueues(s, 1);
    Claims(s, RIVAL);
    RegistersOver(s, RIVAL, FIRST);
    FailsWorker(taken, RIVAL, Registered(FIRST));
    FollowsExec(
      [s, Enlisted(s, 1), At(s, RIVAL, Idle), At(taken, RIVAL, Registered(FIRST)), OustedAuthor()],
      Ousting());
  }

  /** A file is left that no row references and no intent remembers. */
  lemma FileIsForgotten()
    ensures var s := Exec(Start, Stopping() + Ousting() + LeakRun(0, FIRST_PATH, AUTHOR));
      FIRST_PATH in s.files && FIRST_PATH !in s.intents && !Referenced(s.rows, FIRST_PATH) && !Consistent(s)
  {
    Stops();
    Ousts();
    WriterLeaks(OustedAuthor(), 0, AUTHOR);
    ExecJoin(Start, Stopping(), Ousting());
    ExecJoin(Start, Stopping() + Ousting(), LeakRun(0, FIRST_PATH, AUTHOR));
  }
}

/**
 * What every reachable state of the artifact protocol satisfies.
 * The clauses are grouped by the part of the state they speak about, so that a step
 * only has to argue about the groups it touches.
 */
module MediaInvariant {
  import opened Results
  import opened MediaModel

  // ---------------------------------------------------------------- attempts and their intents

  /** The attempt's job still runs under exactly this lease. */
  ghost predicate Holds(s: State, lease: Lease)
    requires lease in s.attempts
  {
    && lease.job in s.jobs
    && s.jobs[lease.job] == Job(Running, lease.revision, lease.owner, s.attempts[lease].until)
  }

  predicate IsCancelled(s: State, job: nat) {
    job in s.jobs && s.jobs[job].state == Cancelled
  }

  /** Within its lease, an attempt has lost its job only to a cancellation. */
  ghost predicate AttemptsCurrent(s: State) {
    && (forall l :: l in s.attempts ==> l.job in s.jobs && l.revision <= s.jobs[l.job].revision)
    && (forall l :: l in s.attempts && Active(s, l) ==> Holds(s, l))
    && (forall l :: InLease(s, l) ==> Holds(s, l) || IsCancelled(s, l.job))
    && (forall k, l :: InLease(s, k) && InLease(s, l) && k.job == l.job ==> k == l)
  }

  /** The attempt is inside its lease and has registered the path it is working on. */
  predicate Working(s: State, l: Lease) {
    InLease(s, l) && s.attempts[l].task != Idle
  }

  function TaskPath(s: State, l: Lease): Path
    requires l in s.attempts && s.attempts[l].task != Idle
  {
    ItemPath(s.attempts[l].task.item)
  }

  ghost predicate OwnsIntent(s: State, l: Lease)
    requires l in s.attempts && s.attempts[l].task != Idle
  {
    && TaskPath(s, l) in s.intents
    && s.intents[TaskPath(s, l)].job == l.job
    && (IsCancelled(s, l.job) ==> s.intents[TaskPath(s, l)].cleanupAfter >= s.attempts[l].until)
  }

  // ---------------------------------------------------------------- what a cancelled attempt can still do

  /** The page has got another revision since the item was planned, so the item can never be saved. */
  predicate Overtaken(rows: Rows, item: Item) {
    item.SourceItem? && item.page in rows.pages && rows.pages[item.page] != item.current
  }

  /** The attempt holds a copy of the revision its plan was made against, and may remove it. */
  predicate MayRemove(rows: Rows, task: Task) {
    || task.Redundant?
    || (task.Stored? && task.item.SourceItem? && task.item.current.Some?
        && task.item.current.value in rows.revisions && rows.revisions[task.item.current.value].sha == task.digest)
  }

  /**
   * Whether the attempt's own file operations can still disturb another owner of its path: it may write
   * a file there that no row references, or remove one that a row may come to reference.
   */
  predicate CanHarm(rows: Rows, task: Task) {
    match task
    case Idle => false
    case Registered(item) => item.DerivativeItem? || !Referenced(rows, ItemPath(item))
    case Unique(_, _) => false
    case _ => MayRemove(rows, task) && !Overtaken(rows, task.item)
  }

  /** The attempt may still save its item, or has lost its job but can still do harm. */
  predicate Concerned(s: State, l: Lease) {
    Working(s, l) && (!IsCancelled(s, l.job) || CanHarm(s.rows, s.attempts[l].task))
  }

  /** A concerned attempt owns the intent of its path, and once cancelled that intent outlives the lease. */
  ghost predicate Protected(s: State) {
    && (forall p :: p in s.intents ==> s.intents[p].job in s.jobs)
    && (forall l :: Concerned(s, l) ==> OwnsIntent(s, l))
  }

  // ---------------------------------------------------------------- rows, files and what attempts know of them

  ghost predicate TaskSound(rows: Rows, task: Task) {
    task != Idle ==>
      && Planned(rows, task.item)
      && (task.Redundant? ==>
            && task.item.SourceItem? && task.item.current.Some?
            && rows.revisions[task.item.current.value].sha == task.digest)
      && (task.Unique? && task.item.SourceItem? && task.item.current.Some? ==>
            rows.revisions[task.item.current.value].sha != task.digest)
  }

  ghost predicate TasksSound(s: State) {
    forall l :: l in s.attempts ==> TaskSound(s.rows, s.attempts[l].task)
  }

  predicate HasStored(task: Task) {
    task.Stored? || task.Unique? || task.Redundant?
  }

  ghost predicate OnDisk(s: State, l: Lease)
    requires l in s.attempts && HasStored(s.attempts[l].task)
  {
    TaskPath(s, l) in s.files && s.files[TaskPath(s, l)] == s.attempts[l].task.digest
  }

  /** What an attempt stored is still on disk for as long as it may be saved. */
  ghost predicate StoredOnDisk(s: State) {
    forall l :: InLease(s, l) && HasStored(s.attempts[l].task) && MaySave(s, l) ==> OnDisk(s, l)
  }

  predicate MaySave(s: State, l: Lease)
    requires l in s.attempts && s.attempts[l].task != Idle
  {
    && !IsCancelled(s, l.job) && !Overtaken(s.rows, s.attempts[l].task.item)
    && !MayRemove(s.rows, s.attempts[l].task)
  }

  /** A copy that may be removed has no row: its row would repeat its neighbour's content. */
  ghost predicate RemovalsUnreferenced(s: State) {
    forall l :: InLease(s, l) && MayRemove(s.rows, s.attempts[l].task) ==> !Referenced(s.rows, TaskPath(s, l))
  }

  ghost predicate NumbersUnique(rows: Rows) {
    forall i, j ::
      i in rows.revisions && j in rows.revisions
      && rows.revisions[i].page == rows.revisions[j].page && rows.revisions[i].number == rows.revisions[j].number
      ==> i == j
  }

  ghost predicate NumberedUpTo(rows: Rows, id: nat)
    requires id in rows.revisions
  {
    var row := rows.revisions[id];
    && row.number >= 1
    && row.page in rows.pages && rows.pages[row.page].Some?
    && rows.pages[row.page].value in rows.revisions
    && row.number <= rows.revisions[rows.pages[row.page].value].number
  }

  /** A page's current revision is its last one. */
  ghost predicate CurrentIsLast(rows: Rows) {
    && (forall page :: page in rows.pages && rows.pages[page].Some? ==>
          && rows.pages[page].value in rows.revisions
          && rows.revisions[rows.pages[page].value].page == page)
    && (forall id :: id in rows.revisions ==> NumberedUpTo(rows, id))
  }

  ghost predicate RowPaths(rows: Rows) {
    && (forall id :: id in rows.revisions ==>
          && rows.revisions[id].path.SourcePath?
          && rows.revisions[id].path.page == rows.revisions[id].page
          && rows.revisions[id].path.number == rows.revisions[id].number)
    && (forall k :: k in rows.derivatives ==> rows.derivatives[k].DerivativePath?)
  }

  /** Consecutive revisions of a page never hold the same content. */
  ghost predicate NeighboursDiffer(rows: Rows) {
    forall i, j ::
      i in rows.revisions && j in rows.revisions
      && rows.revisions[i].page == rows.revisions[j].page && rows.revisions[j].number == rows.revisions[i].number + 1
      ==> rows.revisions[i].sha != rows.revisions[j].sha
  }

  /** A derivative belongs to a revision. */
  ghost predicate KeysKnown(rows: Rows) {
    forall k :: k in rows.derivatives ==> k.revision in rows.revisions
  }

  ghost predicate RowsSound(rows: Rows) {
    NumbersUnique(rows) && CurrentIsLast(rows) && RowPaths(rows) && NeighboursDiffer(rows) && KeysKnown(rows)
  }

  /** Every row's file exists, and a source row's file has the recorded digest. */
  ghost predicate RowsHaveFiles(rows: Rows, files: map<Path, Digest>) {
    && (forall id :: id in rows.revisions ==>
          rows.revisions[id].path in files && files[rows.revisions[id].path] == rows.revisions[id].sha)
    && (forall k :: k in rows.derivatives ==> rows.derivatives[k] in files)
  }

  /** Every file is either referenced by a row or remembered by an intent. */
  ghost predicate FilesCovered(rows: Rows, intents: map<Path, Intent>, files: map<Path, Digest>) {
    forall p :: p in files ==> Referenced(rows, p) || p in intents
  }

  // ---------------------------------------------------------------- cleaner transactions

  ghost predicate CleanupSound(s: State, c: nat)
    requires c in s.cleanups
  {
    var cleanup := s.cleanups[c];
    && cleanup.path in s.intents
    && s.intents[cleanup.path].job == cleanup.job
    && cleanup.job in s.jobs
    && Terminal(s.jobs[cleanup.job])
    && s.intents[cleanup.path].cleanupAfter <= s.clock
    && (cleanup.referenced <==> Referenced(s.rows, cleanup.path))
    && (cleanup.removed ==> !cleanup.referenced && cleanup.path !in s.files)
  }

  /** What a cleaner transaction read under its locks is still true. */
  ghost predicate CleanupsSound(s: State) {
    && (forall c :: c in s.cleanups ==> CleanupSound(s, c))
    && (forall c, d :: c in s.cleanups && d in s.cleanups && c != d ==>
          s.cleanups[c].path != s.cleanups[d].path && s.cleanups[c].job != s.cleanups[d].job)
  }

  ghost predicate WorkSound(s: State) {
    TasksSound(s) && StoredOnDisk(s) && RemovalsUnreferenced(s)
  }

  ghost predicate DiskSound(s: State) {
    && RowsSound(s.rows)
    && RowsHaveFiles(s.rows, s.files)
    && FilesCovered(s.rows, s.intents, s.files)
  }

  ghost predicate Inv(s: State) {
    AttemptsCurrent(s) && Protected(s) && WorkSound(s) && DiskSound(s) && CleanupsSound(s)
  }

  // ---------------------------------------------------------------- takeovers

  /** No attempt of the intent's present owner that `job` would displace can still do harm. */
  ghost predicate Spares(s: State, job: nat, path: Path) {
    path in s.intents && s.intents[path].job != job ==>
      forall l :: Working(s, l) && TaskPath(s, l) == path && l.job == s.intents[path].job ==>
        !CanHarm(s.rows, s.attempts[l].task)
  }

  predicate Replaces(s: State, lease: Lease)
    requires lease in s.attempts && s.attempts[lease].task != Idle && s.attempts[lease].task.item.DerivativeItem?
  {
    var key := s.attempts[lease].task.item.key;
    key in s.rows.derivatives && s.rows.derivatives[key] != TaskPath(s, lease)
  }

  /** The step takes over no intent from an attempt that can still do harm. */
  ghost predicate Sparing(s: State, a: Action) {
    match a
    case Register(lease, item) => RegisterStep(s, lease, item) != s ==> Spares(s, lease.job, ItemPath(item))
    case SaveDerivative(lease, complete) =>
      && lease in s.attempts && s.attempts[lease].task.Unique? && s.attempts[lease].task.item.DerivativeItem?
      && Replaces(s, lease) && SaveDerivativeStep(s, lease, complete) != s
      ==> Spares(s, lease.job, s.rows.derivatives[s.attempts[lease].task.item.key])
    case _ => true
  }

  /** Registering `path` for `job` does not displace an intent whose cleanup is still postponed. */
  predicate PatientTakeover(s: State, job: nat, path: Path) {
    path in s.intents && s.intents[path].job != job ==> s.intents[path].cleanupAfter <= s.clock
  }
}

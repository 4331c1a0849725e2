/**
 * The media artifact protocol as a transition system.
 *
 * One state holds the database tables, the files under the media root, the attempts
 * that worker processes are executing and the cleaner transactions that hold row
 * locks. A database transaction is one step; a worker's file operations and the
 * cleaner's lock, removal and commit are separate steps, so anything may happen
 * between them. A step whose guard fails (a rolled-back transaction, a transaction
 * that has to wait for a row lock) leaves the state as it is.
 */
module MediaModel {
  import opened Results

  type Digest = nat

  /** A path below the media root; the constructors' arguments are what the file name is built from. */
  datatype Path =
    | SourcePath(page: nat, number: nat, format: nat)
    | DerivativePath(name: nat)

  datatype JobState = Queued | Running | Waiting | Failed(retryable: bool) | Completed | Cancelled

  datatype Job = Job(state: JobState, revision: nat, owner: nat, leaseUntil: int)

  /** Names one execution attempt of a job. */
  datatype Lease = Lease(job: nat, revision: nat, owner: nat)

  datatype Intent = Intent(job: nat, cleanupAfter: int)

  datatype Revision = Revision(page: nat, number: nat, path: Path, sha: Digest)

  datatype DerivativeKey = DerivativeKey(revision: nat, kind: nat, format: nat)

  /** What an attempt is producing: a page's next source revision, or a derivative. */
  datatype Item =
    | SourceItem(page: nat, current: Option<nat>, number: nat, format: nat)
    | DerivativeItem(key: DerivativeKey, name: nat)

  /** How far an attempt has got with its item. */
  datatype Task =
    | Idle
    | Registered(item: Item)
    | Stored(item: Item, digest: Digest)
    | Redundant(item: Item, digest: Digest)
    | Unique(item: Item, digest: Digest)

  datatype Attempt = Attempt(until: int, task: Task)

  /** A cleaner transaction holding the row locks of one intent and of its job. */
  datatype Cleanup = Cleanup(path: Path, job: nat, referenced: bool, removed: bool)

  /** The tables whose rows name files. */
  datatype Rows = Rows(
    pages: map<nat, Option<nat>>,
    revisions: map<nat, Revision>,
    derivatives: map<DerivativeKey, Path>)

  datatype State = State(
    clock: int,
    jobs: map<nat, Job>,
    intents: map<Path, Intent>,
    rows: Rows,
    files: map<Path, Digest>,
    attempts: map<Lease, Attempt>,
    cleanups: map<nat, Cleanup>)

  datatype DbError = LeaseConflict | RevisionConflict | Constraint | InvalidValue | NotFound | LockWait

  datatype Action =
    | Tick(amount: nat)
    | AddPage(page: nat)
    | Enqueue(job: nat)
    | Claim(job: nat, owner: nat, duration: nat)
    | Heartbeat(lease: Lease, extend: nat)
    | Finish(lease: Lease, outcome: JobState)
    | Cancel(job: nat)
    | Retry(job: nat)
    | Park(job: nat)
    | Release(job: nat)
    | Abandon(lease: Lease)
    | Register(lease: Lease, item: Item)
    | Write(lease: Lease, digest: Digest)
    | Judge(lease: Lease)
    | RemoveRedundant(lease: Lease)
    | SaveSource(lease: Lease, revision: nat, complete: bool)
    | SaveDerivative(lease: Lease, complete: bool)
    | CleanLock(cleaner: nat, path: Path)
    | CleanRemove(cleaner: nat)
    | CleanFail(cleaner: nat)
    | CleanCommit(cleaner: nat)
    | CleanRollback(cleaner: nat)

  // ---------------------------------------------------------------- observations

  function ItemPath(item: Item): Path {
    match item
    case SourceItem(page, _, number, format) => SourcePath(page, number, format)
    case DerivativeItem(_, name) => DerivativePath(name)
  }

  /** A job no worker will run again unless a user retries it. */
  predicate Terminal(job: Job) {
    job.state == Completed || job.state == Cancelled || job.state == Failed(false)
  }

  /** The lease check every worker transaction starts with. */
  predicate Active(s: State, lease: Lease) {
    && lease.job in s.jobs
    && var job := s.jobs[lease.job];
       && job.state == Running
       && job.revision == lease.revision
       && job.owner == lease.owner
       && job.leaseUntil > s.clock
  }

  predicate Referenced(rows: Rows, path: Path) {
    || (exists id :: id in rows.revisions && rows.revisions[id].path == path)
    || (exists key :: key in rows.derivatives && rows.derivatives[key] == path)
  }

  predicate IntentLocked(s: State, path: Path) {
    exists c :: c in s.cleanups && s.cleanups[c].path == path
  }

  predicate JobLocked(s: State, job: nat) {
    exists c :: c in s.cleanups && s.cleanups[c].job == job
  }

  /** The attempt is still inside its lease, so its process may touch files. */
  predicate InLease(s: State, lease: Lease) {
    lease in s.attempts && s.clock < s.attempts[lease].until
  }

  /** A download plan entry: the revision it was read against, and the number after it. */
  predicate Planned(rows: Rows, item: Item) {
    match item
    case SourceItem(page, current, number, _) =>
      (match current
       case None => number == 1
       case Some(id) =>
         id in rows.revisions && rows.revisions[id].page == page && number == rows.revisions[id].number + 1)
    case DerivativeItem(_, _) => true
  }

  // ---------------------------------------------------------------- intents

  /** The upsert on `relative_path`: the owner or a terminal owner's successor wins, a live owner blocks. */
  function RegisterIntent(s: State, job: nat, path: Path): Result<State, DbError> {
    if path !in s.intents then
      Ok(s.(intents := s.intents[path := Intent(job, s.clock)]))
    else if IntentLocked(s, path) then
      Err(LockWait)
    else
      var current := s.intents[path].job;
      if current == job || (current in s.jobs && Terminal(s.jobs[current])) then
        Ok(s.(intents := s.intents[path := Intent(job, s.clock)]))
      else
        Err(RevisionConflict)
  }

  function CompleteIntent(s: State, job: nat, path: Path): Result<State, DbError> {
    if path in s.intents && s.intents[path].job == job then
      Ok(s.(intents := s.intents - {path}))
    else
      Err(InvalidValue)
  }

  /** Ends the running job of an active lease. */
  function EndJob(s: State, lease: Lease, outcome: JobState): State
    requires lease.job in s.jobs
  {
    var job := s.jobs[lease.job];
    s.(jobs := s.jobs[lease.job := job.(state := outcome, revision := job.revision + 1)],
       attempts := s.attempts - {lease})
  }

  function WithTask(s: State, lease: Lease, task: Task): State
    requires lease in s.attempts
  {
    s.(attempts := s.attempts[lease := s.attempts[lease].(task := task)])
  }

  /** After a save the attempt either ends its job or goes on to its next item. */
  function AfterSave(s: State, lease: Lease, complete: bool): State
    requires lease.job in s.jobs && lease in s.attempts
  {
    if complete then EndJob(s, lease, Completed) else WithTask(s, lease, Idle)
  }

  // ---------------------------------------------------------------- worker transactions

  function RegisterTx(s: State, lease: Lease, item: Item): Result<State, DbError> {
    if !Active(s, lease) then Err(LeaseConflict) else RegisterIntent(s, lease.job, ItemPath(item))
  }

  predicate NumberTaken(rows: Rows, page: nat, number: nat) {
    exists id :: id in rows.revisions && rows.revisions[id].page == page && rows.revisions[id].number == number
  }

  function InsertRevision(rows: Rows, id: nat, row: Revision): Rows {
    rows.(revisions := rows.revisions[id := row], pages := rows.pages[row.page := Some(id)])
  }

  function SaveSourceTx(s: State, lease: Lease, item: Item, digest: Digest, revision: nat): Result<State, DbError>
    requires item.SourceItem?
  {
    if !Active(s, lease) then Err(LeaseConflict)
    else if item.page !in s.rows.pages then Err(NotFound)
    else if s.rows.pages[item.page] != item.current then Err(RevisionConflict)
    else if revision in s.rows.revisions || NumberTaken(s.rows, item.page, item.number) then Err(Constraint)
    else
      var row := Revision(item.page, item.number, ItemPath(item), digest);
      CompleteIntent(s.(rows := InsertRevision(s.rows, revision, row)), lease.job, ItemPath(item))
  }

  function SaveDerivativeTx(s: State, lease: Lease, item: Item): Result<State, DbError>
    requires item.DerivativeItem?
  {
    if !Active(s, lease) then Err(LeaseConflict)
    else if item.key.revision !in s.rows.revisions then Err(Constraint)
    else
      var path := ItemPath(item);
      var upserted := s.(rows := s.rows.(derivatives := s.rows.derivatives[item.key := path]));
      if item.key in s.rows.derivatives && s.rows.derivatives[item.key] != path then
        (match RegisterIntent(upserted, lease.job, s.rows.derivatives[item.key])
         case Err(e) => Err(e)
         case Ok(registered) => CompleteIntent(registered, lease.job, path))
      else
        CompleteIntent(upserted, lease.job, path)
  }

  /** The state after a transaction: its result when it commits, the old state when it rolls back or waits. */
  function Settle(s: State, outcome: Result<State, DbError>): State {
    match outcome case Ok(t) => t case Err(_) => s
  }

  // ---------------------------------------------------------------- steps

  function ClaimStep(s: State, id: nat, owner: nat, duration: nat): State {
    if id !in s.jobs || duration == 0 then s
    else
      var job := s.jobs[id];
      if job.state == Queued || job.state == Failed(true) || (job.state == Running && job.leaseUntil <= s.clock) then
        var until := s.clock + duration;
        s.(jobs := s.jobs[id := Job(Running, job.revision + 1, owner, until)],
           attempts := s.attempts[Lease(id, job.revision + 1, owner) := Attempt(until, Idle)])
      else s
  }

  function HeartbeatStep(s: State, lease: Lease, extend: nat): State {
    if !Active(s, lease) || lease !in s.attempts || extend == 0 then s
    else
      var job := s.jobs[lease.job];
      var until := if s.clock + extend > job.leaseUntil then s.clock + extend else job.leaseUntil;
      s.(jobs := s.jobs[lease.job := job.(leaseUntil := until)],
         attempts := s.attempts[lease := s.attempts[lease].(until := until)])
  }

  /** Cancelling postpones the cleanup of the job's intents to the end of the interrupted lease. */
  function CancelStep(s: State, id: nat): State {
    if id !in s.jobs || JobLocked(s, id) || s.jobs[id].state in {Completed, Cancelled} then s
    else
      var job := s.jobs[id];
      var notBefore := if job.state == Running then job.leaseUntil else s.clock;
      s.(jobs := s.jobs[id := job.(state := Cancelled, revision := job.revision + 1)],
         intents := map p | p in s.intents ::
           if s.intents[p].job == id && s.intents[p].cleanupAfter < notBefore
           then s.intents[p].(cleanupAfter := notBefore) else s.intents[p])
  }

  function RegisterStep(s: State, lease: Lease, item: Item): State {
    if !InLease(s, lease) || s.attempts[lease].task != Idle || !Planned(s.rows, item) then s
    else match RegisterTx(s, lease, item)
      case Ok(t) => WithTask(t, lease, Registered(item))
      case Err(_) => s
  }

  /** Promotion links the staged file into place unless something is there already. */
  function WriteStep(s: State, lease: Lease, digest: Digest): State {
    if !InLease(s, lease) || !s.attempts[lease].task.Registered? then s
    else
      var item := s.attempts[lease].task.item;
      var path := ItemPath(item);
      if path !in s.files then
        WithTask(s, lease, Stored(item, digest)).(files := s.files[path := digest])
      else if item.DerivativeItem? || s.files[path] == digest then
        WithTask(s, lease, Stored(item, s.files[path]))
      else s
  }

  /** Decides whether the stored file only repeats the revision the plan was made against. */
  function JudgeStep(s: State, lease: Lease): State {
    if !InLease(s, lease) || !s.attempts[lease].task.Stored? then s
    else
      var item, digest := s.attempts[lease].task.item, s.attempts[lease].task.digest;
      if && item.SourceItem? && item.current.Some? && item.current.value in s.rows.revisions
         && s.rows.revisions[item.current.value].sha == digest
         && s.rows.revisions[item.current.value].path in s.files
      then WithTask(s, lease, Redundant(item, digest))
      else WithTask(s, lease, Unique(item, digest))
  }

  function RemoveRedundantStep(s: State, lease: Lease): State {
    if !InLease(s, lease) || !s.attempts[lease].task.Redundant? then s
    else
      WithTask(s, lease, Idle).(files := s.files - {ItemPath(s.attempts[lease].task.item)})
  }

  function SaveSourceStep(s: State, lease: Lease, revision: nat, complete: bool): State {
    if lease !in s.attempts || !s.attempts[lease].task.Unique? || !s.attempts[lease].task.item.SourceItem? then s
    else match SaveSourceTx(s, lease, s.attempts[lease].task.item, s.attempts[lease].task.digest, revision)
      case Ok(t) => AfterSave(t, lease, complete)
      case Err(_) => s
  }

  function SaveDerivativeStep(s: State, lease: Lease, complete: bool): State {
    if lease !in s.attempts || !s.attempts[lease].task.Unique? || !s.attempts[lease].task.item.DerivativeItem? then s
    else match SaveDerivativeTx(s, lease, s.attempts[lease].task.item)
      case Ok(t) => AfterSave(t, lease, complete)
      case Err(_) => s
  }

  predicate Cleanable(s: State, path: Path) {
    && path in s.intents
    && s.intents[path].job in s.jobs
    && Terminal(s.jobs[s.intents[path].job])
    && s.intents[path].cleanupAfter <= s.clock
  }

  function CleanLockStep(s: State, c: nat, path: Path): State {
    if c in s.cleanups || !Cleanable(s, path) || IntentLocked(s, path) || JobLocked(s, s.intents[path].job) then s
    else s.(cleanups := s.cleanups[c := Cleanup(path, s.intents[path].job, Referenced(s.rows, path), false)])
  }

  function CleanRemoveStep(s: State, c: nat): State {
    if c !in s.cleanups || s.cleanups[c].referenced then s
    else s.(files := s.files - {s.cleanups[c].path}, cleanups := s.cleanups[c := s.cleanups[c].(removed := true)])
  }

  function CleanCommitStep(s: State, c: nat): State {
    if c !in s.cleanups || !(s.cleanups[c].referenced || s.cleanups[c].removed) then s
    else s.(intents := s.intents - {s.cleanups[c].path}, cleanups := s.cleanups - {c})
  }

  function Apply(s: State, a: Action): State {
    match a
    case Tick(amount) => s.(clock := s.clock + amount)
    case AddPage(page) => if page in s.rows.pages then s else s.(rows := s.rows.(pages := s.rows.pages[page := None]))
    case Enqueue(job) => if job in s.jobs then s else s.(jobs := s.jobs[job := Job(Queued, 1, 0, s.clock)])
    case Claim(job, owner, duration) => ClaimStep(s, job, owner, duration)
    case Heartbeat(lease, extend) => HeartbeatStep(s, lease, extend)
    case Finish(lease, outcome) =>
      if Active(s, lease) && (outcome == Completed || outcome == Waiting || outcome.Failed?)
      then EndJob(s, lease, outcome) else s
    case Cancel(job) => CancelStep(s, job)
    case Retry(job) =>
      if job in s.jobs && s.jobs[job].state.Failed? && !JobLocked(s, job)
      then s.(jobs := s.jobs[job := s.jobs[job].(state := Queued, revision := s.jobs[job].revision + 1)]) else s
    case Park(job) =>
      if job in s.jobs && s.jobs[job].state == Queued
      then s.(jobs := s.jobs[job := s.jobs[job].(state := Waiting, revision := s.jobs[job].revision + 1)]) else s
    case Release(job) =>
      if job in s.jobs && s.jobs[job].state == Waiting
      then s.(jobs := s.jobs[job := s.jobs[job].(state := Queued, revision := s.jobs[job].revision + 1)]) else s
    case Abandon(lease) => s.(attempts := s.attempts - {lease})
    case Register(lease, item) => RegisterStep(s, lease, item)
    case Write(lease, digest) => WriteStep(s, lease, digest)
    case Judge(lease) => JudgeStep(s, lease)
    case RemoveRedundant(lease) => RemoveRedundantStep(s, lease)
    case SaveSource(lease, revision, complete) => SaveSourceStep(s, lease, revision, complete)
    case SaveDerivative(lease, complete) => SaveDerivativeStep(s, lease, complete)
    case CleanLock(c, path) => CleanLockStep(s, c, path)
    case CleanRemove(c) => CleanRemoveStep(s, c)
    case CleanFail(c) =>
      if c in s.cleanups && !s.cleanups[c].referenced && !s.cleanups[c].removed
      then s.(cleanups := s.cleanups - {c}) else s
    case CleanCommit(c) => CleanCommitStep(s, c)
    case CleanRollback(c) => s.(cleanups := s.cleanups - {c})
  }

  /** The state after a whole run. */
  function Exec(s: State, actions: seq<Action>): State
    decreases |actions|
  {
    if actions == [] then s else Exec(Apply(s, actions[0]), actions[1..])
  }

  const Start := State(0, map[], map[], Rows(map[], map[], map[]), map[], map[], map[])
}

/**
 * Permanent deletion of trashed works: a purge is begun, fails and is retried, and completes in one
 * transaction that deletes the work, leaves a marker and announces both. A job may complete a purge
 * that an earlier attempt already completed.
 */
module Purge {
  import opened Results

  type WorkId = nat
  type PixivId = int
  type JobId = nat

  datatype PurgeState = Pending | Running | Failed

  datatype DeletionMethod = ManualPurge | RetentionExpired

  datatype Work = Work(pixivId: PixivId, inTrash: bool, revision: int)

  datatype Entry = Entry(state: PurgeState, attempts: nat, failures: nat)

  /** A running job is known by its lease. */
  datatype Job = Leased(lease: nat) | Completed | NotRunning

  datatype Event =
    | WorkDeleted(work: WorkId, revision: int)
    | MarkerCreated(pixivId: PixivId, how: DeletionMethod)
    | JobCompleted(job: JobId)

  datatype PurgeError = RevisionConflict | NotFound | InvalidValue | LeaseConflict

  datatype Tables = Tables(
    works: map<WorkId, Work>, trash: map<WorkId, Entry>, markers: map<PixivId, DeletionMethod>,
    jobs: map<JobId, Job>, events: seq<Event>)

  predicate Deleted(events: seq<Event>, work: WorkId) {
    exists i :: 0 <= i < |events| && events[i].WorkDeleted? && events[i].work == work
  }

  // ----- Transactions ------------------------------------------------------------------------

  function BeginTx(t: Tables, work: WorkId): Result<Tables, PurgeError> {
    if work !in t.trash then Err(RevisionConflict)
    else
      var entry := t.trash[work];
      if entry.state == Running then Ok(t)
      else Ok(t.(trash := t.trash[work := Entry(Running, entry.attempts + 1, 0)]))
  }

  function FailTx(t: Tables, work: WorkId, failures: nat): Result<Tables, PurgeError> {
    if failures == 0 then Err(InvalidValue)
    else if work !in t.trash || t.trash[work].state != Running then Err(RevisionConflict)
    else Ok(t.(trash := t.trash[work := Entry(Failed, t.trash[work].attempts, failures)]))
  }

  predicate Purging(t: Tables, work: WorkId) {
    work in t.works && t.works[work].inTrash && work in t.trash && t.trash[work].state == Running
  }

  function CompleteTx(t: Tables, work: WorkId, how: DeletionMethod): Result<Tables, PurgeError> {
    if !Purging(t, work) then Err(if work in t.works then RevisionConflict else NotFound)
    else
      var w := t.works[work];
      Ok(Tables(t.works - {work}, t.trash - {work}, t.markers[w.pixivId := how], t.jobs,
                t.events + [WorkDeleted(work, w.revision + 1), MarkerCreated(w.pixivId, how)]))
  }

  function Ended(t: Tables, job: JobId): Tables {
    t.(jobs := t.jobs[job := Completed], events := t.events + [JobCompleted(job)])
  }

  /** The job completes with the purge, also when the purge has been completed before. */
  function CompleteJobTx(t: Tables, job: JobId, lease: nat, work: WorkId, how: Option<DeletionMethod>)
    : Result<Tables, PurgeError>
  {
    if how.None? then Err(InvalidValue)
    else if job !in t.jobs || t.jobs[job] != Leased(lease) then Err(LeaseConflict)
    else
      var ended := Ended(t, job);
      match CompleteTx(ended, work, how.value)
      case Ok(tables) => Ok(tables)
      case Err(error) => if error == NotFound && Deleted(t.events, work) then Ok(ended) else Err(error)
  }

  predicate OfPixivId(t: Tables, work: WorkId, pixivId: PixivId) {
    work in t.works && t.works[work].pixivId == pixivId
  }

  /** Deletes whatever work has the Pixiv id, in the trash or not, and leaves a marker in any case. */
  function DeleteOutright(t: Tables, work: WorkId, pixivId: PixivId, how: DeletionMethod): Tables {
    var deleted := if OfPixivId(t, work, pixivId) then [WorkDeleted(work, t.works[work].revision + 1)] else [];
    Tables(if OfPixivId(t, work, pixivId) then t.works - {work} else t.works,
           if OfPixivId(t, work, pixivId) then t.trash - {work} else t.trash,
           t.markers[pixivId := how], t.jobs, t.events + deleted + [MarkerCreated(pixivId, how)])
  }

  // ----- Runs --------------------------------------------------------------------------------

  /** `created` are all work ids ever used; `purged` says which work each job completed here was for. */
  datatype State = State(tables: Tables, created: set<WorkId>, purged: map<JobId, WorkId>)

  /** `Elsewhere` is whatever the rest of the program does to works, trash, markers and jobs. */
  datatype Action =
    | Begin(work: WorkId)
    | Fail(work: WorkId, failures: nat)
    | Complete(work: WorkId, how: DeletionMethod)
    | CompleteJob(job: JobId, lease: nat, work: WorkId, option: Option<DeletionMethod>)
    | Outright(work: WorkId, pixivId: PixivId, how: DeletionMethod)
    | Elsewhere(
        works: map<WorkId, Work>, trash: map<WorkId, Entry>, markers: map<PixivId, DeletionMethod>,
        jobs: map<JobId, Job>)

  /** The rest of the program deletes no work, and names a new one by an id that was never used. */
  predicate Allowed(s: State, works: map<WorkId, Work>) {
    && s.tables.works.Keys <= works.Keys
    && forall w :: w in works && w !in s.tables.works ==> w !in s.created
  }

  function Settled(s: State, outcome: Result<Tables, PurgeError>): State {
    if outcome.Ok? then s.(tables := outcome.value) else s
  }

  function Apply(s: State, action: Action): State {
    match action
    case Begin(work) => Settled(s, BeginTx(s.tables, work))
    case Fail(work, failures) => Settled(s, FailTx(s.tables, work, failures))
    case Complete(work, how) => Settled(s, CompleteTx(s.tables, work, how))
    case CompleteJob(job, lease, work, option) =>
      var done := CompleteJobTx(s.tables, job, lease, work, option);
      if done.Ok? then s.(tables := done.value, purged := s.purged[job := work]) else s
    case Outright(work, pixivId, how) => s.(tables := DeleteOutright(s.tables, work, pixivId, how))
    case Elsewhere(works, trash, markers, jobs) =>
      if !Allowed(s, works) then s
      else s.(tables := Tables(works, trash, markers, jobs, s.tables.events), created := s.created + works.Keys)
  }

  function Exec(s: State, actions: seq<Action>): State
    decreases |actions|
  {
    if actions == [] then s else Exec(Apply(s, actions[0]), actions[1..])
  }

  const Empty: State := State(Tables(map[], map[], map[], map[], []), {}, map[])

  // ----- What every step keeps ---------------------------------------------------------------

  function Deletions(events: seq<Event>, work: WorkId): nat
    decreases |events|
  {
    if events == [] then 0
    else
      var last := events[|events| - 1];
      Deletions(events[..|events| - 1], work) + (if last.WorkDeleted? && last.work == work then 1 else 0)
  }

  lemma DeletionsSnoc(events: seq<Event>, event: Event, work: WorkId)
    ensures Deletions(events + [event], work)
      == Deletions(events, work) + (if event.WorkDeleted? && event.work == work then 1 else 0)
  {
  }

  lemma DeletionsTwo(events: seq<Event>, a: Event, b: Event, work: WorkId)
    ensures Deletions(events + [a, b], work) == Deletions(events, work)
      + (if a.WorkDeleted? && a.work == work then 1 else 0) + (if b.WorkDeleted? && b.work == work then 1 else 0)
  {
    DeletionsSnoc(events, a, work);
    DeletionsSnoc(events + [a], b, work);
    assert events + [a, b] == events + [a] + [b];
  }

  lemma {:induction false} DeletedCounts(events: seq<Event>, work: WorkId)
    ensures Deleted(events, work) <==> Deletions(events, work) > 0
    decreases |events|
  {
    if events != [] {
      var n := |events| - 1;
      DeletedCounts(events[..n], work);
      assert forall i :: 0 <= i < n ==> events[..n][i] == events[i];
      assert Deleted(events, work)
        <==> Deleted(events[..n], work) || (events[n].WorkDeleted? && events[n].work == work);
    }
  }

  /** A work that was announced as deleted was so once, and is gone. */
  ghost predicate WorkSound(s: State, work: WorkId) {
    && (work in s.tables.works ==> work in s.created)
    && Deletions(s.tables.events, work) <= 1
    && (Deletions(s.tables.events, work) > 0 ==> work in s.created && work !in s.tables.works)
  }

  ghost predicate JobSound(s: State, job: JobId) {
    job in s.purged ==> Deletions(s.tables.events, s.purged[job]) > 0
  }

  /** How far a transaction's announcements of `work` agree with what it deleted. */
  ghost predicate Announces(t: Tables, later: Tables, work: WorkId) {
    Deletions(later.events, work)
      == Deletions(t.events, work) + (if work in t.works && work !in later.works then 1 else 0)
  }

  lemma CompleteAnnounces(t: Tables, other: WorkId, how: DeletionMethod, work: WorkId)
    requires CompleteTx(t, other, how).Ok?
    ensures Announces(t, CompleteTx(t, other, how).value, work)
  {
    var w := t.works[other];
    DeletionsTwo(t.events, WorkDeleted(other, w.revision + 1), MarkerCreated(w.pixivId, how), work);
  }

  lemma OutrightAnnounces(t: Tables, other: WorkId, pixivId: PixivId, how: DeletionMethod, work: WorkId)
    ensures Announces(t, DeleteOutright(t, other, pixivId, how), work)
  {
    if OfPixivId(t, other, pixivId) {
      var deleted, marker := WorkDeleted(other, t.works[other].revision + 1), MarkerCreated(pixivId, how);
      DeletionsTwo(t.events, deleted, marker, work);
      assert t.events + [deleted] + [marker] == t.events + [deleted, marker];
    } else {
      DeletionsSnoc(t.events, MarkerCreated(pixivId, how), work);
      assert t.events + [] == t.events;
    }
  }

  lemma StepDeletions(s: State, action: Action, work: WorkId)
    ensures Announces(s.tables, Apply(s, action).tables, work)
  {
    match action
    case Begin(_) =>
    case Fail(_, _) =>
    case Elsewhere(_, _, _, _) =>
    case Complete(other, how) =>
      if CompleteTx(s.tables, other, how).Ok? {
        CompleteAnnounces(s.tables, other, how, work);
      }
    case CompleteJob(job, lease, other, option) =>
      var ended := Ended(s.tables, job);
      DeletionsSnoc(s.tables.events, JobCompleted(job), work);
      if option.Some? && CompleteTx(ended, other, option.value).Ok? {
        CompleteAnnounces(ended, other, option.value, work);
      }
    case Outright(other, pixivId, how) => OutrightAnnounces(s.tables, other, pixivId, how, work);
  }

  lemma StepWorks(s: State, action: Action, work: WorkId)
    requires work in s.tables.works ==> work in s.created
    ensures work in Apply(s, action).tables.works && work !in s.tables.works ==> work !in s.created
    ensures work in s.created || work in Apply(s, action).tables.works ==> work in Apply(s, action).created
  {
  }

  lemma StepSound(s: State, action: Action, work: WorkId)
    requires WorkSound(s, work)
    ensures WorkSound(Apply(s, action), work)
  {
    StepDeletions(s, action, work);
    StepWorks(s, action, work);
  }

  lemma StepJobSound(s: State, action: Action, job: JobId)
    requires JobSound(s, job)
    ensures JobSound(Apply(s, action), job)
  {
    var next := Apply(s, action);
    if job in next.purged {
      StepDeletions(s, action, next.purged[job]);
      DeletedCounts(s.tables.events, next.purged[job]);
    }
  }

  lemma {:induction false} ExecSound(s: State, actions: seq<Action>, work: WorkId)
    requires WorkSound(s, work)
    ensures WorkSound(Exec(s, actions), work)
    decreases |actions|
  {
    if actions != [] {
      StepSound(s, actions[0], work);
      ExecSound(Apply(s, actions[0]), actions[1..], work);
    }
  }

  lemma {:induction false} ExecJobSound(s: State, actions: seq<Action>, job: JobId)
    requires JobSound(s, job)
    ensures JobSound(Exec(s, actions), job)
    decreases |actions|
  {
    if actions != [] {
      StepJobSound(s, actions[0], job);
      ExecJobSound(Apply(s, actions[0]), actions[1..], job);
    }
  }

  /**
   * Over every run, with retries, failures and repeated completions, a work is announced as deleted
   * at most once.
   */
  lemma DeletedAtMostOnce(actions: seq<Action>, work: WorkId)
    ensures var t := Exec(Empty, actions).tables;
      Deletions(t.events, work) <= 1 && (Deleted(t.events, work) ==> work !in t.works)
  {
    ExecSound(Empty, actions, work);
    DeletedCounts(Exec(Empty, actions).tables.events, work);
  }

  /** A job that was completed as a purge has its work's deletion in the log. */
  lemma CompletedJobDeleted(actions: seq<Action>, job: JobId)
    requires job in Exec(Empty, actions).purged
    ensures var s := Exec(Empty, actions); Deleted(s.tables.events, s.purged[job])
  {
    var s := Exec(Empty, actions);
    ExecJobSound(Empty, actions, job);
    DeletedCounts(s.tables.events, s.purged[job]);
  }

  /** The three announcements of a purge's completion, its job's first. */
  lemma CompletionEvents(t: Tables, job: JobId, lease: nat, work: WorkId, how: DeletionMethod)
    requires Purging(t, work) && job in t.jobs && t.jobs[job] == Leased(lease)
    ensures var done := CompleteJobTx(t, job, lease, work, Some(how)); var w := t.works[work];
      && done.Ok?
      && done.value.events
         == t.events + [JobCompleted(job), WorkDeleted(work, w.revision + 1), MarkerCreated(w.pixivId, how)]
      && Deletions(done.value.events, work) == Deletions(t.events, work) + 1
  {
    var w := t.works[work];
    DeletionsSnoc(t.events, JobCompleted(job), work);
    DeletionsTwo(Ended(t, job).events, WorkDeleted(work, w.revision + 1), MarkerCreated(w.pixivId, how), work);
    assert t.events + [JobCompleted(job)] + [WorkDeleted(work, w.revision + 1), MarkerCreated(w.pixivId, how)]
      == t.events + [JobCompleted(job), WorkDeleted(work, w.revision + 1), MarkerCreated(w.pixivId, how)];
  }

  /**
   * In every reachable state a job completes a purge exactly when it holds its lease and the work is
   * being purged from the trash or was deleted before. It is announced as completed then, and only in
   * the first case is anything else: the work goes, its marker comes, in that same step.
   */
  lemma JobCompletes(actions: seq<Action>, job: JobId, lease: nat, work: WorkId, how: DeletionMethod)
    ensures var t := Exec(Empty, actions).tables; var done := CompleteJobTx(t, job, lease, work, Some(how));
      && (done.Ok? <==> job in t.jobs && t.jobs[job] == Leased(lease) && (Purging(t, work) || Deleted(t.events, work)))
      && (done.Ok? ==> done.value.jobs[job] == Completed && work !in done.value.works)
      && (done.Ok? && Purging(t, work) ==>
            && t.works[work].pixivId in done.value.markers && done.value.markers[t.works[work].pixivId] == how
            && Deletions(done.value.events, work) == 1
            && done.value.events == t.events + [JobCompleted(job), WorkDeleted(work, t.works[work].revision + 1),
                                                MarkerCreated(t.works[work].pixivId, how)])
      && (done.Ok? && !Purging(t, work) ==>
            done.value.events == t.events + [JobCompleted(job)] && done.value.works == t.works)
  {
    var t := Exec(Empty, actions).tables;
    ExecSound(Empty, actions, work);
    DeletedCounts(t.events, work);
    if Purging(t, work) && job in t.jobs && t.jobs[job] == Leased(lease) {
      CompletionEvents(t, job, lease, work, how);
    }
  }

  // ----- The repository ----------------------------------------------------------------------

  class TrashRepository {
    var works: map<WorkId, Work>
    var trash: map<WorkId, Entry>
    var markers: map<PixivId, DeletionMethod>
    var jobs: map<JobId, Job>
    var events: seq<Event>

    function Contents(): Tables
      reads this
    {
      Tables(works, trash, markers, jobs, events)
    }

    method BeginPurge(work: WorkId) returns (result: Result<(), PurgeError>)
      modifies this`trash
      ensures match BeginTx(old(Contents()), work)
        case Err(error) => result == Err(error) && Contents() == old(Contents())
        case Ok(tables) => result == Ok(()) && Contents() == tables
    {
      var waiting := work in trash && (trash[work].state == Pending || trash[work].state == Failed);
      if waiting {
        trash := trash[work := Entry(Running, trash[work].attempts + 1, 0)];
      } else {
        var running := work in trash && trash[work].state == Running;
        if !running {
          return Err(RevisionConflict);
        }
      }
      return Ok(());
    }

    method RecordFailure(work: WorkId, failures: nat) returns (result: Result<(), PurgeError>)
      modifies this`trash
      ensures match FailTx(old(Contents()), work, failures)
        case Err(error) => result == Err(error) && Contents() == old(Contents())
        case Ok(tables) => result == Ok(()) && Contents() == tables
    {
      if failures == 0 {
        return Err(InvalidValue);
      }
      if work !in trash || trash[work].state != Running {
        return Err(RevisionConflict);
      }
      trash := trash[work := trash[work].(state := Failed, failures := failures)];
      return Ok(());
    }

    method CompletePurge(work: WorkId, how: DeletionMethod) returns (result: Result<(), PurgeError>)
      modifies this
      ensures match CompleteTx(old(Contents()), work, how)
        case Err(error) => result == Err(error) && Contents() == old(Contents())
        case Ok(tables) => result == Ok(()) && Contents() == tables
    {
      if !(work in works && works[work].inTrash && work in trash && trash[work].state == Running) {
        var found := work in works;
        return Err(if found then RevisionConflict else NotFound);
      }
      var pixivId, revision := works[work].pixivId, works[work].revision;
      works := works - {work};
      trash := trash - {work};
      markers := markers[pixivId := how];
      events := events + [WorkDeleted(work, revision + 1)];
      events := events + [MarkerCreated(pixivId, how)];
      return Ok(());
    }

    /** Completes job and purge together; anything that fails undoes both. */
    method CompletePurgeJob(job: JobId, lease: nat, work: WorkId, how: Option<DeletionMethod>)
      returns (result: Result<(), PurgeError>)
      modifies this
      ensures match CompleteJobTx(old(Contents()), job, lease, work, how)
        case Err(error) => result == Err(error) && Contents() == old(Contents())
        case Ok(tables) => result == Ok(()) && Contents() == tables
    {
      if how.None? {
        return Err(InvalidValue);
      }
      if job !in jobs || jobs[job] != Leased(lease) {
        return Err(LeaseConflict);
      }
      var before, log := jobs, events;
      jobs := jobs[job := Completed];
      events := events + [JobCompleted(job)];
      var completed := CompletePurge(work, how.value);
      if completed.Err? && !(completed.error == NotFound && Deleted(log, work)) {
        jobs, events := before, log;
        return Err(completed.error);
      }
      return Ok(());
    }
  }
}

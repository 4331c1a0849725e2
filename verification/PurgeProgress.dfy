/** What each purge transaction does to the tables, and that a purge once begun can be completed. */
module PurgeProgress {
  import opened Results
  import opened Purge

  /** Nothing but the trash entry of one work differs. */
  ghost predicate OnlyEntry(t: Tables, later: Tables, work: WorkId) {
    && later == t.(trash := later.trash) && later.trash.Keys == t.trash.Keys
    && forall other :: other in t.trash && other != work ==> later.trash[other] == t.trash[other]
  }

  /**
   * Beginning succeeds exactly when the work has a trash entry. A purge that was waiting or has failed is
   * running then, with one more attempt and no failures; one that runs already stays as it is.
   */
  lemma BeginStarts(t: Tables, work: WorkId, outcome: Result<Tables, PurgeError>)
    requires outcome == BeginTx(t, work)
    ensures outcome.Ok? <==> work in t.trash
    ensures outcome.Err? ==> outcome.error == RevisionConflict
    ensures outcome.Ok? ==>
      var later := outcome.value;
      && OnlyEntry(t, later, work) && later.trash[work].state == Running
      && (t.trash[work].state == Running ==> later.trash[work] == t.trash[work])
      && (t.trash[work].state != Running ==>
            later.trash[work].attempts == t.trash[work].attempts + 1 && later.trash[work].failures == 0)
  {
    if work in t.trash && t.trash[work].state == Running {
      assert t.(trash := t.trash) == t;
    }
  }

  /** A failure is recorded for a running purge, with its failures and at its attempt, and only then. */
  lemma FailRecords(t: Tables, work: WorkId, failures: nat, outcome: Result<Tables, PurgeError>)
    requires outcome == FailTx(t, work, failures)
    ensures outcome == Err(InvalidValue) <==> failures == 0
    ensures outcome.Ok? <==> failures > 0 && work in t.trash && t.trash[work].state == Running
    ensures outcome.Err? ==> outcome.error in {InvalidValue, RevisionConflict}
    ensures outcome.Ok? ==>
      && OnlyEntry(t, outcome.value, work)
      && outcome.value.trash[work] == Entry(Failed, t.trash[work].attempts, failures)
  {
  }

  /**
   * A completion needs a work in the trash whose purge runs. It takes the work and its entry, leaves a
   * marker under its Pixiv id and announces both; nothing else changes.
   */
  lemma CompleteDeletes(t: Tables, work: WorkId, how: DeletionMethod, outcome: Result<Tables, PurgeError>)
    requires outcome == CompleteTx(t, work, how)
    ensures outcome.Ok? <==>
      work in t.works && t.works[work].inTrash && work in t.trash && t.trash[work].state == Running
    ensures outcome.Err? ==> outcome.error == if work in t.works then RevisionConflict else NotFound
    ensures outcome.Ok? ==>
      var w, later := t.works[work], outcome.value;
      && later.works == t.works - {work} && later.trash == t.trash - {work}
      && later.markers == t.markers[w.pixivId := how] && later.jobs == t.jobs
      && later.events == t.events + [WorkDeleted(work, w.revision + 1), MarkerCreated(w.pixivId, how)]
  {
  }

  /** Why a job does not complete a purge; its own row is the only job's that ever changes. */
  lemma JobFailsWhen(
    t: Tables, job: JobId, lease: nat, work: WorkId, how: Option<DeletionMethod>, outcome: Result<Tables, PurgeError>)
    requires outcome == CompleteJobTx(t, job, lease, work, how)
    ensures outcome == Err(InvalidValue) <==> how == None
    ensures var held := job in t.jobs && t.jobs[job] == Leased(lease);
      && (outcome == Err(LeaseConflict) <==> how.Some? && !held)
      && (outcome == Err(NotFound) <==> how.Some? && held && work !in t.works && !Deleted(t.events, work))
      && (outcome == Err(RevisionConflict) <==>
            how.Some? && held && work in t.works
            && !(t.works[work].inTrash && work in t.trash && t.trash[work].state == Running))
    ensures outcome.Ok? ==> outcome.value.jobs == t.jobs[job := Completed]
  {
  }

  // ----- Runs --------------------------------------------------------------------------------

  /** A Pixiv id is deleted outright with whatever work has it, and marked in any case. */
  lemma OutrightDeletes(t: Tables, work: WorkId, pixivId: PixivId, how: DeletionMethod)
    ensures var later := DeleteOutright(t, work, pixivId, how);
      var found := work in t.works && t.works[work].pixivId == pixivId;
      && later.jobs == t.jobs && later.markers == t.markers[pixivId := how]
      && later.works == (if found then t.works - {work} else t.works)
      && later.trash == (if found then t.trash - {work} else t.trash)
      && later.events == t.events + (if found then [WorkDeleted(work, t.works[work].revision + 1)] else [])
           + [MarkerCreated(pixivId, how)]
  {
  }

  // ----- Runs --------------------------------------------------------------------------------

  /** What a transaction makes of the tables: what it commits, or nothing. */
  ghost predicate Commits(s: State, later: State, outcome: Result<Tables, PurgeError>) {
    if outcome.Ok? then later.tables == outcome.value else later == s
  }

  /** Runs are made of these transactions, one after the other. */
  lemma RunsAreTransactions(s: State, work: WorkId, how: DeletionMethod, failures: nat, pixivId: PixivId)
    ensures Commits(s, Exec(s, [Begin(work)]), BeginTx(s.tables, work))
    ensures Commits(s, Exec(s, [Fail(work, failures)]), FailTx(s.tables, work, failures))
    ensures Commits(s, Exec(s, [Complete(work, how)]), CompleteTx(s.tables, work, how))
    ensures Exec(s, [Outright(work, pixivId, how)]).tables == DeleteOutright(s.tables, work, pixivId, how)
  {
    ExecOne(s, Begin(work));
    ExecOne(s, Fail(work, failures));
    ExecOne(s, Complete(work, how));
    ExecOne(s, Outright(work, pixivId, how));
  }

  lemma JobsAreTransactions(s: State, job: JobId, lease: nat, work: WorkId, how: Option<DeletionMethod>)
    ensures var later, outcome := Exec(s, [CompleteJob(job, lease, work, how)]),
                                  CompleteJobTx(s.tables, job, lease, work, how);
      && Commits(s, later, outcome)
      && (outcome.Ok? ==> job in later.purged && later.purged[job] == work && later.created == s.created)
  {
    ExecOne(s, CompleteJob(job, lease, work, how));
  }

  lemma ExecOne(s: State, action: Action)
    ensures Exec(s, [action]) == Apply(s, action)
  {
    assert [action][1..] == [];
    assert Exec(Apply(s, action), []) == Apply(s, action);
  }

  // ----- A purge that is begun can be completed ----------------------------------------------

  /** The action leaves the purge of the work alone: it records no failure and does not take the work. */
  ghost predicate Leaves(action: Action, work: WorkId) {
    match action
    case Fail(other, _) => other != work
    case Complete(other, _) => other != work
    case CompleteJob(_, _, other, _) => other != work
    case Outright(other, _, _) => other != work
    case Elsewhere(works, trash, _, _) =>
      work in works && works[work].inTrash && work in trash && trash[work].state == Running
    case Begin(_) => true
  }

  /** The work is in the trash and its purge runs. */
  ghost predicate Underway(t: Tables, work: WorkId) {
    work in t.works && t.works[work].inTrash && work in t.trash && t.trash[work].state == Running
  }

  lemma StepUnderway(s: State, action: Action, work: WorkId)
    requires Underway(s.tables, work) && Leaves(action, work)
    ensures Underway(Apply(s, action).tables, work)
  {
    match action
    case Begin(other) => BeginStarts(s.tables, other, BeginTx(s.tables, other));
    case _ =>
  }

  lemma {:induction false} RunUnderway(s: State, actions: seq<Action>, work: WorkId)
    requires Underway(s.tables, work) && forall a :: a in actions ==> Leaves(a, work)
    ensures Underway(Exec(s, actions).tables, work)
    decreases |actions|
  {
    if actions != [] {
      assert actions[0] in actions && forall a :: a in actions[1..] ==> a in actions;
      StepUnderway(s, actions[0], work);
      RunUnderway(Apply(s, actions[0]), actions[1..], work);
    }
  }

  /**
   * A trashed work with an entry, whatever state its purge is in and however often it has failed, is
   * deleted by beginning the purge and completing it under a lease, whatever else happens in between, as
   * long as no failure is recorded and nobody else takes the work.
   */
  lemma BegunPurgeCompletes(
    s: State, work: WorkId, between: seq<Action>, job: JobId, lease: nat, how: DeletionMethod)
    requires work in s.tables.works && s.tables.works[work].inTrash && work in s.tables.trash
    requires forall a :: a in between ==> Leaves(a, work)
    requires var t := Exec(Apply(s, Begin(work)), between).tables; job in t.jobs && t.jobs[job] == Leased(lease)
    ensures var before := Exec(Apply(s, Begin(work)), between);
      var later := Apply(before, CompleteJob(job, lease, work, Some(how))).tables;
      && work in before.tables.works && work !in later.works && work !in later.trash
      && job in later.jobs && later.jobs[job] == Completed && Deleted(later.events, work)
      && before.tables.works[work].pixivId in later.markers
      && later.markers[before.tables.works[work].pixivId] == how
  {
    BeginStarts(s.tables, work, BeginTx(s.tables, work));
    RunUnderway(Apply(s, Begin(work)), between, work);
    var t := Exec(Apply(s, Begin(work)), between).tables;
    CompleteDeletes(Ended(t, job), work, how, CompleteTx(Ended(t, job), work, how));
    var later := CompleteTx(Ended(t, job), work, how).value;
    assert later.events[|t.events| + 1].WorkDeleted? && later.events[|t.events| + 1].work == work;
  }
}

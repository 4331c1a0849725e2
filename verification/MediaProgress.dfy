/**
 * What the transactions of the artifact protocol do, said on the state before and after; and that a
 * crash loses nothing: a later attempt can always bring the item to its row.
 */
module MediaProgress {
  import opened Results
  import opened MediaModel
  import opened MediaInvariant
  import opened MediaSteps
  import opened MediaTheorems
  import opened MediaTakeover

  // ---------------------------------------------------------------- intents and rows

  /**
   * A path is registered when nobody owns it, or its owner is the same job or one that has ended, and no
   * cleaner is at it; the job then owns it, and it may be cleaned from now on.
   */
  lemma RegisterIs(s: State, job: nat, path: Path, outcome: Result<State, DbError>)
    requires outcome == RegisterIntent(s, job, path)
    ensures var locked := exists c :: c in s.cleanups && s.cleanups[c].path == path;
      var mine := path in s.intents
        && (s.intents[path].job == job || (s.intents[path].job in s.jobs && Terminal(s.jobs[s.intents[path].job])));
      && (outcome.Ok? <==> path !in s.intents || (!locked && mine))
      && (outcome == Err(LockWait) <==> path in s.intents && locked)
      && (outcome == Err(RevisionConflict) <==> path in s.intents && !locked && !mine)
    ensures outcome.Ok? ==> outcome.value == s.(intents := s.intents[path := Intent(job, s.clock)])
  {
  }

  /** Who may save: the job runs under this very lease, which is not over. */
  ghost predicate Leased(s: State, lease: Lease) {
    lease.job in s.jobs && s.jobs[lease.job].state == Running && s.jobs[lease.job].revision == lease.revision
    && s.jobs[lease.job].owner == lease.owner && s.clock < s.jobs[lease.job].leaseUntil
  }

  ghost predicate Owns(s: State, job: nat, path: Path) {
    path in s.intents && s.intents[path].job == job
  }

  /**
   * A source revision is saved when the lease holds, the page is at the revision it was planned against,
   * id and number are free and the job owns the path. The row is what was downloaded, the page is at it,
   * and the intent is gone.
   */
  lemma SaveSourceIs(
    s: State, lease: Lease, item: Item, digest: Digest, revision: nat, outcome: Result<State, DbError>)
    requires item.SourceItem? && outcome == SaveSourceTx(s, lease, item, digest, revision)
    ensures var path := SourcePath(item.page, item.number, item.format);
      var current := item.page in s.rows.pages && s.rows.pages[item.page] == item.current;
      var taken := revision in s.rows.revisions || (exists id ::
        id in s.rows.revisions && s.rows.revisions[id].page == item.page && s.rows.revisions[id].number == item.number);
      && (outcome.Ok? <==> Leased(s, lease) && current && !taken && Owns(s, lease.job, path))
      && (outcome == Err(LeaseConflict) <==> !Leased(s, lease))
      && (outcome == Err(NotFound) <==> Leased(s, lease) && item.page !in s.rows.pages)
      && (outcome == Err(RevisionConflict) <==> Leased(s, lease) && item.page in s.rows.pages && !current)
      && (outcome == Err(Constraint) <==> Leased(s, lease) && current && taken)
      && (outcome == Err(InvalidValue) <==> Leased(s, lease) && current && !taken && !Owns(s, lease.job, path))
      && (outcome.Ok? ==>
            && outcome.value.intents == s.intents - {path}
            && outcome.value == s.(rows := outcome.value.rows, intents := outcome.value.intents)
            && outcome.value.rows.pages == s.rows.pages[item.page := Some(revision)]
            && outcome.value.rows.revisions
               == s.rows.revisions[revision := Revision(item.page, item.number, path, digest)]
            && outcome.value.rows.derivatives == s.rows.derivatives)
  {
    assert Leased(s, lease) <==> Active(s, lease);
  }

  /**
   * A derivative is saved when the lease holds, its revision exists, the job owns the path and, if another
   * path is replaced, can register that one. The key then has the path, whose intent is gone, and the
   * replaced file has an intent instead of its row.
   */
  lemma SaveDerivativeIs(s: State, lease: Lease, item: Item, outcome: Result<State, DbError>)
    requires item.DerivativeItem? && outcome == SaveDerivativeTx(s, lease, item)
    ensures var path := DerivativePath(item.name);
      var swaps := item.key in s.rows.derivatives && s.rows.derivatives[item.key] != path;
      var free := swaps ==> RegisterIntent(s, lease.job, s.rows.derivatives[item.key]).Ok?;
      var remembered :=
        if swaps then s.intents[s.rows.derivatives[item.key] := Intent(lease.job, s.clock)] else s.intents;
      && (outcome.Ok? <==>
            Leased(s, lease) && item.key.revision in s.rows.revisions && Owns(s, lease.job, path) && free)
      && (outcome == Err(LeaseConflict) <==> !Leased(s, lease))
      && (outcome == Err(Constraint) <==> Leased(s, lease) && item.key.revision !in s.rows.revisions)
      && (outcome == Err(InvalidValue) <==>
            Leased(s, lease) && item.key.revision in s.rows.revisions && free && !Owns(s, lease.job, path))
      && (outcome.Ok? ==>
            && outcome.value == s.(rows := outcome.value.rows, intents := outcome.value.intents)
            && outcome.value.rows == s.rows.(derivatives := s.rows.derivatives[item.key := path])
            && outcome.value.intents == remembered - {path})
  {
    assert Leased(s, lease) <==> Active(s, lease);
  }

  // ---------------------------------------------------------------- jobs

  /** A job is claimed when it waits, failed for now, or its lease is over; the claim is a new attempt. */
  lemma ClaimIs(s: State, job: nat, owner: nat, duration: nat)
    ensures var t := Apply(s, Claim(job, owner, duration));
      var open := job in s.jobs && duration > 0
        && (s.jobs[job].state == Queued || s.jobs[job].state == JobState.Failed(true)
            || (s.jobs[job].state == Running && s.jobs[job].leaseUntil <= s.clock));
      if open then
        var revision, until := s.jobs[job].revision + 1, s.clock + duration;
        t == s.(jobs := s.jobs[job := Job(Running, revision, owner, until)],
                attempts := s.attempts[Lease(job, revision, owner) := Attempt(until, Idle)])
      else t == s
  {
  }

  /** A heartbeat of an attempt that still has its lease prolongs it, and never shortens it. */
  lemma HeartbeatIs(s: State, lease: Lease, extend: nat)
    ensures var t := Apply(s, Heartbeat(lease, extend));
      if Leased(s, lease) && lease in s.attempts && extend > 0 then
        && t == s.(jobs := t.jobs, attempts := t.attempts)
        && lease.job in t.jobs && lease in t.attempts
        && t.jobs == s.jobs[lease.job := s.jobs[lease.job].(leaseUntil := t.jobs[lease.job].leaseUntil)]
        && t.attempts == s.attempts[lease := s.attempts[lease].(until := t.jobs[lease.job].leaseUntil)]
        && t.jobs[lease.job].leaseUntil >= s.jobs[lease.job].leaseUntil
        && t.jobs[lease.job].leaseUntil >= s.clock + extend
        && (t.jobs[lease.job].leaseUntil == s.jobs[lease.job].leaseUntil
            || t.jobs[lease.job].leaseUntil == s.clock + extend)
      else t == s
  {
    assert Leased(s, lease) <==> Active(s, lease);
  }

  /** The worker's own end of its job, and the three ways a job is queued again or put aside. */
  lemma JobMovesAre(s: State, job: nat, lease: Lease, outcome: JobState)
    ensures var t := Apply(s, Finish(lease, outcome));
      if Leased(s, lease) && outcome in {Completed, Waiting, JobState.Failed(true), JobState.Failed(false)} then
        t == s.(jobs := s.jobs[lease.job := s.jobs[lease.job].(state := outcome, revision := lease.revision + 1)],
                attempts := s.attempts - {lease})
      else t == s
    ensures var locked := exists c :: c in s.cleanups && s.cleanups[c].job == job;
      Apply(s, Retry(job)) ==
        if job in s.jobs && s.jobs[job].state.Failed? && !locked then Moved(s, job, Queued) else s
    ensures Apply(s, Park(job)) == if job in s.jobs && s.jobs[job].state == Queued then Moved(s, job, Waiting) else s
    ensures Apply(s, Action.Release(job))
      == if job in s.jobs && s.jobs[job].state == Waiting then Moved(s, job, Queued) else s
  {
    assert Leased(s, lease) <==> Active(s, lease);
  }

  function Moved(s: State, job: nat, to: JobState): State
    requires job in s.jobs
  {
    s.(jobs := s.jobs[job := Job(to, s.jobs[job].revision + 1, s.jobs[job].owner, s.jobs[job].leaseUntil)])
  }

  /**
   * A job that has not ended for good is cancelled, unless a cleaner is at it; its intents may be cleaned
   * no earlier than the end of a lease that it ran under.
   */
  lemma CancelIs(s: State, job: nat)
    ensures var t := Apply(s, Cancel(job));
      var locked := exists c :: c in s.cleanups && s.cleanups[c].job == job;
      if job in s.jobs && !locked && s.jobs[job].state != Completed && s.jobs[job].state != Cancelled then
        var due := if s.jobs[job].state == Running then s.jobs[job].leaseUntil else s.clock;
        && t == s.(jobs := t.jobs, intents := t.intents)
        && t.jobs == s.jobs[job := s.jobs[job].(state := Cancelled, revision := s.jobs[job].revision + 1)]
        && t.intents.Keys == s.intents.Keys
        && forall p :: p in s.intents ==>
             t.intents[p] == if s.intents[p].job != job || s.intents[p].cleanupAfter >= due then s.intents[p]
                             else Intent(job, due)
      else t == s
  {
  }

  // ---------------------------------------------------------------- a crash loses nothing

  /** The attempt of a worker that claims the job now. */
  function Successor(s: State, job: nat, owner: nat): Lease
    requires job in s.jobs
  {
    Lease(job, s.jobs[job].revision + 1, owner)
  }

  /** What a successor does, from its claim to the end of its job. */
  function RecoveryRun(s: State, job: nat, owner: nat, item: Item, digest: Digest, revision: nat): seq<Action>
    requires job in s.jobs
  {
    var l := Successor(s, job, owner);
    [Claim(job, owner, 1), Register(l, item), Write(l, digest), Judge(l), SaveSource(l, revision, true)]
  }

  /**
   * The job can be claimed, and its item can still be saved: it follows the page's current revision with
   * other content, and its path is free, or was left behind by the job or by one that has ended, with the
   * same content or none.
   */
  ghost predicate Recoverable(s: State, job: nat, owner: nat, item: Item, digest: Digest, revision: nat) {
    && job in s.jobs
    && (s.jobs[job].state == Queued || s.jobs[job].state == JobState.Failed(true)
        || (s.jobs[job].state == Running && s.jobs[job].leaseUntil <= s.clock))
    && item.SourceItem? && Planned(s.rows, item)
    && item.page in s.rows.pages && s.rows.pages[item.page] == item.current
    && (item.current.Some? ==> s.rows.revisions[item.current.value].sha != digest)
    && revision !in s.rows.revisions
    && (ItemPath(item) in s.intents ==>
          && !IntentLocked(s, ItemPath(item))
          && (s.intents[ItemPath(item)].job == job
              || (s.intents[ItemPath(item)].job in s.jobs && Terminal(s.jobs[s.intents[ItemPath(item)].job]))))
    && (ItemPath(item) in s.files ==> s.files[ItemPath(item)] == digest)
  }

  lemma NumberIsFree(s: State, item: Item)
    requires CurrentIsLast(s.rows) && item.SourceItem? && Planned(s.rows, item)
    requires item.page in s.rows.pages && s.rows.pages[item.page] == item.current
    ensures !NumberTaken(s.rows, item.page, item.number)
  {
    forall id | id in s.rows.revisions && s.rows.revisions[id].page == item.page
      ensures s.rows.revisions[id].number != item.number
    {
      assert NumberedUpTo(s.rows, id);
    }
  }

  lemma RegisterMine(s: State, l: Lease, item: Item)
    requires InLease(s, l) && Active(s, l) && s.attempts[l].task == Idle && Planned(s.rows, item)
    requires RegisterIntent(s, l.job, ItemPath(item)).Ok?
    ensures Apply(s, Register(l, item))
      == s.(intents := s.intents[ItemPath(item) := Intent(l.job, s.clock)],
            attempts := s.attempts[l := s.attempts[l].(task := Registered(item))])
  {
    RegisterIs(s, l.job, ItemPath(item), RegisterIntent(s, l.job, ItemPath(item)));
  }

  /** A file that is there with the same content is as good as one written now. */
  lemma WriteSame(s: State, l: Lease, digest: Digest)
    requires InLease(s, l) && s.attempts[l].task.Registered?
    requires TaskPath(s, l) in s.files ==> s.files[TaskPath(s, l)] == digest
    ensures Apply(s, Write(l, digest))
      == s.(files := s.files[TaskPath(s, l) := digest],
            attempts := s.attempts[l := s.attempts[l].(task := Stored(s.attempts[l].task.item, digest))])
  {
    if TaskPath(s, l) in s.files {
      assert s.files[TaskPath(s, l) := digest] == s.files;
    }
  }

  lemma SaveCompletes(s: State, l: Lease, revision: nat)
    requires InLease(s, l) && Active(s, l) && s.attempts[l].task.Unique? && s.attempts[l].task.item.SourceItem?
    requires var item := s.attempts[l].task.item;
      && item.page in s.rows.pages && s.rows.pages[item.page] == item.current
      && revision !in s.rows.revisions && !NumberTaken(s.rows, item.page, item.number)
      && ItemPath(item) in s.intents && s.intents[ItemPath(item)].job == l.job
    ensures var t := Apply(s, SaveSource(l, revision, true)); var item := s.attempts[l].task.item;
      && t.rows == InsertRevision(s.rows, revision, SavedRow(item, s.attempts[l].task.digest))
      && t.files == s.files && t.intents == s.intents - {ItemPath(item)}
      && l.job in t.jobs && t.jobs[l.job].state == Completed
  {
    SaveSourceIs(s, l, s.attempts[l].task.item, s.attempts[l].task.digest, revision,
                 SaveSourceTx(s, l, s.attempts[l].task.item, s.attempts[l].task.digest, revision));
  }

  lemma ExecFive(s: State, a: Action, b: Action, c: Action, d: Action, e: Action)
    ensures Exec(s, [a, b, c, d, e]) == Apply(Apply(Apply(Apply(Apply(s, a), b), c), d), e)
  {
    assert [a, b, c, d, e] == [a] + [b, c, d, e] && [b, c, d, e] == [b] + [c, d, e];
    ExecCons(s, a, [b, c, d, e]);
    ExecCons(Apply(s, a), b, [c, d, e]);
    ExecThree(Apply(Apply(s, a), b), c, d, e);
  }

  /** The attempt is at work on a unique copy of the item, which can be saved under the job's own intent. */
  ghost predicate Savable(s: State, d: State, l: Lease, item: Item, digest: Digest) {
    && InLease(d, l) && Active(d, l) && d.attempts[l].task == Unique(item, digest)
    && d.rows == s.rows && d.files == s.files[ItemPath(item) := digest]
    && ItemPath(item) in d.intents && d.intents[ItemPath(item)].job == l.job
  }

  /** The successor gets as far as a unique copy. */
  lemma SuccessorStores(s: State, job: nat, owner: nat, item: Item, digest: Digest, revision: nat)
    requires Recoverable(s, job, owner, item, digest, revision)
    ensures var l := Successor(s, job, owner);
      var d := Apply(Apply(Apply(Apply(s, Claim(job, owner, 1)), Register(l, item)), Write(l, digest)), Judge(l));
      Savable(s, d, l, item, digest)
  {
    var l := Successor(s, job, owner);
    ClaimIs(s, job, owner, 1);
    var a := Apply(s, Claim(job, owner, 1));
    RegisterMine(a, l, item);
    var b := Apply(a, Register(l, item));
    WriteSame(b, l, digest);
    JudgeUnique(Apply(b, Write(l, digest)), l);
  }

  /**
   * A crash loses nothing: in every state that keeps the invariant, at whatever point earlier attempts died,
   * a worker that claims the job again brings the item to its row. The row's file is there with its content,
   * the intent is gone and the job is done.
   */
  lemma CrashLosesNothing(s: State, job: nat, owner: nat, item: Item, digest: Digest, revision: nat)
    requires CurrentIsLast(s.rows) && Recoverable(s, job, owner, item, digest, revision)
    ensures var t := Exec(s, RecoveryRun(s, job, owner, item, digest, revision)); var path := ItemPath(item);
      && revision in t.rows.revisions
      && t.rows.revisions[revision] == Revision(item.page, item.number, path, digest)
      && item.page in t.rows.pages && t.rows.pages[item.page] == Some(revision)
      && path in t.files && t.files[path] == digest && path !in t.intents
      && job in t.jobs && t.jobs[job].state == Completed
      && (forall p :: p in s.files ==> p in t.files && t.files[p] == s.files[p])
  {
    var l := Successor(s, job, owner);
    SuccessorStores(s, job, owner, item, digest, revision);
    var d := Apply(Apply(Apply(Apply(s, Claim(job, owner, 1)), Register(l, item)), Write(l, digest)), Judge(l));
    NumberIsFree(s, item);
    SaveCompletes(d, l, revision);
    ExecFive(s, Claim(job, owner, 1), Register(l, item), Write(l, digest), Judge(l), SaveSource(l, revision, true));
  }
}

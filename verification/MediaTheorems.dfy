/**
 * The promises of the artifact protocol. In every run the cleaner never takes a referenced file and a
 * live owner keeps its intent. Rows and files stay consistent in the runs whose takeovers spare those
 * who can still do harm.
 */
module MediaTheorems {
  import opened Results
  import opened MediaModel
  import opened MediaInvariant
  import opened MediaSteps
  import opened MediaLocks

  predicate OfJob(a: Action) {
    a.Claim? || a.Heartbeat? || a.Finish? || a.Cancel? || a.Retry? || a.Park? || a.Release? || a.Abandon?
  }

  predicate OfCleaner(a: Action) {
    a.CleanLock? || a.CleanRemove? || a.CleanFail? || a.CleanCommit? || a.CleanRollback?
  }

  lemma JobStepInv(s: State, a: Action)
    requires Inv(s) && OfJob(a)
    ensures Inv(Apply(s, a))
  {
    match a
    case Claim(job, owner, duration) => ClaimingInv(s, job, owner, duration);
    case Heartbeat(lease, extend) => BeatingInv(s, lease, extend);
    case Finish(lease, outcome) => FinishInv(s, lease, outcome);
    case Cancel(job) => CancellingInv(s, job);
    case Retry(job) => RetryInv(s, job);
    case Park(job) => ParkInv(s, job);
    case Release(job) => ReleaseInv(s, job);
    case Abandon(lease) => AbandonInv(s, lease);
  }

  lemma CleanerStepInv(s: State, a: Action)
    requires Inv(s) && OfCleaner(a)
    ensures Inv(Apply(s, a))
  {
    match a
    case CleanLock(c, path) => LockingInv(s, c, path);
    case CleanRemove(c) => RemovingInv(s, c);
    case CleanFail(c) => FailingInv(s, c);
    case CleanCommit(c) => CommittingInv(s, c);
    case CleanRollback(c) => RollingBackInv(s, c);
  }

  lemma LockingInv(s: State, c: nat, path: Path)
    requires Inv(s)
    ensures Inv(Apply(s, CleanLock(c, path)))
  {
    CleanLockInv(s, c, path);
  }

  lemma RemovingInv(s: State, c: nat)
    requires Inv(s)
    ensures Inv(Apply(s, CleanRemove(c)))
  {
    CleanRemoveInv(s, c);
  }

  lemma FailingInv(s: State, c: nat)
    requires Inv(s)
    ensures Inv(Apply(s, CleanFail(c)))
  {
    DropCleanupInv(s, c);
  }

  lemma CommittingInv(s: State, c: nat)
    requires Inv(s)
    ensures Inv(Apply(s, CleanCommit(c)))
  {
    CleanCommitInv(s, c);
  }

  lemma RollingBackInv(s: State, c: nat)
    requires Inv(s)
    ensures Inv(Apply(s, CleanRollback(c)))
  {
    DropCleanupInv(s, c);
  }

  lemma StepInv(s: State, a: Action)
    requires Inv(s) && Sparing(s, a)
    ensures Inv(Apply(s, a))
  {
    if OfJob(a) {
      JobStepInv(s, a);
    } else if OfCleaner(a) {
      CleanerStepInv(s, a);
    } else {
      match a
      case Tick(amount) => DormantInv(s, Apply(s, a), 0);
      case AddPage(page) => AddPageInv(s, page);
      case Enqueue(job) => EnqueueInv(s, job);
      case Register(lease, item) => RegisterInv(s, lease, item);
      case Write(lease, digest) => WriteInv(s, lease, digest);
      case Judge(lease) => JudgeInv(s, lease);
      case RemoveRedundant(lease) => RemoveRedundantInv(s, lease);
      case SaveSource(lease, revision, complete) => SaveSourceInv(s, lease, revision, complete);
      case SaveDerivative(lease, complete) => SaveDerivativeInv(s, lease, complete);
    }
  }

  lemma EnqueueInv(s: State, job: nat)
    requires Inv(s)
    ensures Inv(Apply(s, Enqueue(job)))
  {
    DormantInv(s, Apply(s, Enqueue(job)), job);
  }

  lemma FinishInv(s: State, lease: Lease, outcome: JobState)
    requires Inv(s)
    ensures Inv(Apply(s, Finish(lease, outcome)))
  {
    if Active(s, lease) && (outcome == Completed || outcome == Waiting || outcome.Failed?) {
      EndInv(s, lease, outcome);
    }
  }

  lemma ClaimingInv(s: State, job: nat, owner: nat, duration: nat)
    requires Inv(s)
    ensures Inv(Apply(s, Claim(job, owner, duration)))
  {
    ClaimInv(s, job, owner, duration);
  }

  lemma BeatingInv(s: State, lease: Lease, extend: nat)
    requires Inv(s)
    ensures Inv(Apply(s, Heartbeat(lease, extend)))
  {
    HeartbeatInv(s, lease, extend);
  }

  lemma CancellingInv(s: State, job: nat)
    requires Inv(s)
    ensures Inv(Apply(s, Cancel(job)))
  {
    CancelInv(s, job);
  }

  lemma AbandonInv(s: State, lease: Lease)
    requires Inv(s)
    ensures Inv(Apply(s, Abandon(lease)))
  {
    DormantInv(s, Apply(s, Abandon(lease)), 0);
  }

  lemma RetryInv(s: State, job: nat)
    requires Inv(s)
    ensures Inv(Apply(s, Retry(job)))
  {
    RequeueUnlocked(s, Retry(job), job);
    DormantInv(s, Apply(s, Retry(job)), job);
  }

  lemma ParkInv(s: State, job: nat)
    requires Inv(s)
    ensures Inv(Apply(s, Park(job)))
  {
    RequeueUnlocked(s, Park(job), job);
    DormantInv(s, Apply(s, Park(job)), job);
  }

  lemma ReleaseInv(s: State, job: nat)
    requires Inv(s)
    ensures Inv(Apply(s, Release(job)))
  {
    RequeueUnlocked(s, Release(job), job);
    DormantInv(s, Apply(s, Release(job)), job);
  }

  lemma RequeueUnlocked(s: State, a: Action, job: nat)
    requires CleanupsSound(s) && (a == Retry(job) || a == Park(job) || a == Release(job))
    ensures job in s.jobs ==> Apply(s, a).jobs[job] == s.jobs[job] || !JobLocked(s, job)
  {
  }

  /** No action of the run takes an intent over from an attempt that can still do harm. */
  ghost predicate SparingRun(s: State, actions: seq<Action>)
    decreases |actions|
  {
    actions == [] || (Sparing(s, actions[0]) && SparingRun(Apply(s, actions[0]), actions[1..]))
  }

  lemma {:induction false} ExecInv(s: State, actions: seq<Action>)
    requires Inv(s) && SparingRun(s, actions)
    ensures Inv(Exec(s, actions))
    decreases |actions|
  {
    if actions != [] {
      StepInv(s, actions[0]);
      ExecInv(Apply(s, actions[0]), actions[1..]);
    }
  }

  lemma StartInv()
    ensures Inv(Start)
  {
  }

  // ---------------------------------------------------------------- promises over every run

  /**
   * Rows never dangle and files never leak: each row's file is there with its recorded content, each
   * other file has an intent.
   */
  ghost predicate Consistent(s: State) {
    RowsHaveFiles(s.rows, s.files) && FilesCovered(s.rows, s.intents, s.files)
  }

  lemma MediaConsistent(actions: seq<Action>)
    requires SparingRun(Start, actions)
    ensures var s := Exec(Start, actions);
      && (forall id :: id in s.rows.revisions ==>
            s.rows.revisions[id].path in s.files && s.files[s.rows.revisions[id].path] == s.rows.revisions[id].sha)
      && (forall k :: k in s.rows.derivatives ==> s.rows.derivatives[k] in s.files)
      && (forall p :: p in s.files ==> Referenced(s.rows, p) || p in s.intents)
  {
    StartInv();
    ExecInv(Start, actions);
  }

  /** A takeover that waits for the postponed cleanup spares everybody who could still do harm. */
  lemma WaitingSpares(s: State, job: nat, path: Path)
    requires Inv(s) && RegisterIntent(s, job, path).Ok? && PatientTakeover(s, job, path)
    ensures Spares(s, job, path)
  {
    if path in s.intents && s.intents[path].job != job {
      forall l | Working(s, l) && TaskPath(s, l) == path && l.job == s.intents[path].job
        ensures !CanHarm(s.rows, s.attempts[l].task)
      {
        assert Concerned(s, l) ==> OwnsIntent(s, l);
      }
    }
  }

  /** The only two ways a file disappears, and nothing overwrites one. */
  predicate Takes(s: State, a: Action, path: Path) {
    match a
    case RemoveRedundant(lease) => InLease(s, lease) && s.attempts[lease].task.Redundant? && TaskPath(s, lease) == path
    case CleanRemove(c) => c in s.cleanups && !s.cleanups[c].referenced && s.cleanups[c].path == path
    case _ => false
  }

  /** The steps that reach files: a worker's write, its removal of a redundant copy, the cleaner's removal. */
  predicate ReachesFiles(a: Action) {
    a.Write? || a.RemoveRedundant? || a.CleanRemove?
  }

  lemma OthersKeepFiles(s: State, a: Action)
    requires !ReachesFiles(a)
    ensures Apply(s, a).files == s.files
  {
    match a
    case SaveSource(lease, revision, complete) => SaveSourceCases(s, lease, revision, complete);
    case SaveDerivative(lease, complete) => SaveDerivativeFiles(s, lease, complete);
    case _ =>
  }

  lemma SaveDerivativeFiles(s: State, lease: Lease, complete: bool)
    ensures SaveDerivativeStep(s, lease, complete).files == s.files
  {
  }

  lemma WriteKeepsFiles(s: State, a: Action, path: Path)
    requires ReachesFiles(a) && path in s.files
    ensures path in Apply(s, a).files ==> Apply(s, a).files[path] == s.files[path]
    ensures path !in Apply(s, a).files ==> Takes(s, a, path) && Apply(s, a).rows == s.rows
  {
  }

  lemma FilesWriteOnce(s: State, a: Action, path: Path)
    requires path in s.files
    ensures path in Apply(s, a).files ==> Apply(s, a).files[path] == s.files[path]
    ensures path !in Apply(s, a).files ==> Takes(s, a, path) && Apply(s, a).rows == s.rows
  {
    if ReachesFiles(a) {
      WriteKeepsFiles(s, a, path);
    } else {
      OthersKeepFiles(s, a);
    }
  }

  /** In every run the cleaner never takes a referenced file; only the removal of a redundant copy could. */
  lemma CleanerSparesReferenced(actions: seq<Action>, a: Action, path: Path)
    requires var s := Exec(Start, actions); path in s.files && Referenced(s.rows, path)
    requires !a.RemoveRedundant?
    ensures var s := Exec(Start, actions);
      path in Apply(s, a).files && Apply(s, a).files[path] == s.files[path]
  {
    var s := Exec(Start, actions);
    ExecLocks(Start, actions);
    FilesWriteOnce(s, a, path);
    if a.CleanRemove? && a.cleaner in s.cleanups {
      assert LockSound(s, a.cleaner);
    }
  }

  /** In a run whose takeovers spare the dangerous, no step at all takes a referenced file. */
  lemma ReferencedFilesStay(actions: seq<Action>, a: Action, path: Path)
    requires SparingRun(Start, actions)
    requires var s := Exec(Start, actions); path in s.files && Referenced(s.rows, path)
    ensures var s := Exec(Start, actions);
      path in Apply(s, a).files && Apply(s, a).files[path] == s.files[path]
  {
    var s := Exec(Start, actions);
    if a.RemoveRedundant? {
      SparedRemovals(actions);
      RemovalSparesReferenced(s, a.lease, path);
    } else {
      CleanerSparesReferenced(actions, a, path);
    }
  }

  lemma SparedRemovals(actions: seq<Action>)
    requires SparingRun(Start, actions)
    ensures RemovalsUnreferenced(Exec(Start, actions))
  {
    StartInv();
    ExecInv(Start, actions);
  }

  lemma RemovalSparesReferenced(s: State, lease: Lease, path: Path)
    requires RemovalsUnreferenced(s) && path in s.files && Referenced(s.rows, path)
    ensures path in RemoveRedundantStep(s, lease).files && RemoveRedundantStep(s, lease).files[path] == s.files[path]
  {
    assert InLease(s, lease) && s.attempts[lease].task.Redundant? ==> MayRemove(s.rows, s.attempts[lease].task);
  }

  /** What a step may do to an intent, whatever the state. */
  lemma IntentFate(s: State, a: Action, path: Path)
    requires path in s.intents
    requires !a.SaveSource? && !a.SaveDerivative?
    ensures var t := Apply(s, a);
      || (path in t.intents && t.intents[path].job == s.intents[path].job)
      || (path in t.intents && s.intents[path].job in s.jobs && Terminal(s.jobs[s.intents[path].job]))
      || (a.CleanCommit? && a.cleaner in s.cleanups && s.cleanups[a.cleaner].path == path)
  {
  }

  /**
   * In every run, an intent whose owner is live changes hands with nobody: it ends only with the save of
   * its owner, which leaves a row in its place.
   */
  lemma LiveOwnerKeepsIntent(actions: seq<Action>, a: Action, path: Path)
    requires var s := Exec(Start, actions); path in s.intents
    ensures var s := Exec(Start, actions); var t := Apply(s, a);
      && s.intents[path].job in s.jobs
      && (Terminal(s.jobs[s.intents[path].job])
          || (path in t.intents && t.intents[path].job == s.intents[path].job)
          || (Referenced(t.rows, path) && (a.SaveSource? || a.SaveDerivative?) && a.lease.job == s.intents[path].job))
  {
    var s := Exec(Start, actions);
    ExecLocks(Start, actions);
    if !Terminal(s.jobs[s.intents[path].job]) {
      if a.SaveSource? {
        SourceSaveFate(s, a.lease, a.revision, a.complete, path);
      } else if a.SaveDerivative? {
        DerivativeSaveFate(s, a.lease, a.complete, path);
      } else {
        IntentFate(s, a, path);
        assert a.CleanCommit? && a.cleaner in s.cleanups ==> LockSound(s, a.cleaner);
      }
    }
  }

  lemma SourceSaveFate(s: State, lease: Lease, revision: nat, complete: bool, path: Path)
    requires path in s.intents
    ensures var t := SaveSourceStep(s, lease, revision, complete);
      || (path in t.intents && t.intents[path] == s.intents[path])
      || (Referenced(t.rows, path) && lease.job == s.intents[path].job)
  {
    SaveSourceCases(s, lease, revision, complete);
    if SourceReady(s, lease, revision) {
      SavedReference(s, lease, revision);
    }
  }

  lemma DerivativeSaveFate(s: State, lease: Lease, complete: bool, path: Path)
    requires path in s.intents && s.intents[path].job in s.jobs && !Terminal(s.jobs[s.intents[path].job])
    ensures var t := SaveDerivativeStep(s, lease, complete);
      || (path in t.intents && t.intents[path].job == s.intents[path].job)
      || (Referenced(t.rows, path) && lease.job == s.intents[path].job)
  {
    SaveDerivativeCases(s, lease, complete);
    if DerivativeReady(s, lease) {
      DerivativeSavedUnfolds(s, lease);
      UpsertedReference(s, lease);
    }
  }

  lemma SavedReference(s: State, lease: Lease, revision: nat)
    requires SourceReady(s, lease, revision)
    ensures Referenced(SourceSaved(s, lease, revision).rows, TaskPath(s, lease))
    ensures SourceSaved(s, lease, revision).intents == s.intents - {TaskPath(s, lease)}
    ensures s.intents[TaskPath(s, lease)].job == lease.job
  {
    assert revision in SourceSaved(s, lease, revision).rows.revisions;
  }

  lemma UpsertedReference(s: State, lease: Lease)
    requires DerivativeReady(s, lease)
    ensures Referenced(DerivativeSaved(s, lease).rows, TaskPath(s, lease))
    ensures TaskPath(s, lease) in s.intents && s.intents[TaskPath(s, lease)].job == lease.job
  {
    assert s.attempts[lease].task.item.key in DerivativeSaved(s, lease).rows.derivatives;
  }

  // ---------------------------------------------------------------- cleaning up

  function CleaningPass(c: nat, path: Path): seq<Action> {
    [CleanLock(c, path), CleanRemove(c), CleanCommit(c)]
  }

  /** The process dies after the file is gone and before the intent's deletion commits. */
  function InterruptedPass(c: nat, path: Path): seq<Action> {
    [CleanLock(c, path), CleanRemove(c), CleanRollback(c)]
  }

  /** The intent is due and neither its row nor its job's is locked by another cleaner. */
  predicate Sweepable(s: State, c: nat, path: Path) {
    && c !in s.cleanups && Cleanable(s, path)
    && !IntentLocked(s, path) && !JobLocked(s, s.intents[path].job)
  }

  lemma ExecCons(s: State, a: Action, rest: seq<Action>)
    ensures Exec(s, [a] + rest) == Exec(Apply(s, a), rest)
  {
  }

  lemma ExecThree(s: State, a: Action, b: Action, c: Action)
    ensures Exec(s, [a, b, c]) == Apply(Apply(Apply(s, a), b), c)
  {
    assert [a, b, c] == [a] + [b, c] && [b, c] == [b] + [c] && [c] == [c] + [];
    ExecCons(s, a, [b, c]);
    ExecCons(Apply(s, a), b, [c]);
    ExecCons(Apply(Apply(s, a), b), c, []);
  }

  /** What is left of the files once a pass has gone over an intent. */
  function Swept(s: State, path: Path): map<Path, Digest> {
    if Referenced(s.rows, path) then s.files else s.files - {path}
  }

  lemma PassesUnfold(s: State, c: nat, path: Path)
    ensures var removed := CleanRemoveStep(CleanLockStep(s, c, path), c);
      && Exec(s, CleaningPass(c, path)) == CleanCommitStep(removed, c)
      && Exec(s, InterruptedPass(c, path)) == removed.(cleanups := removed.cleanups - {c})
  {
    ExecThree(s, CleanLock(c, path), CleanRemove(c), CleanCommit(c));
    ExecThree(s, CleanLock(c, path), CleanRemove(c), CleanRollback(c));
  }

  /** The lock and the removal, as both kinds of pass begin. */
  lemma Removal(s: State, c: nat, path: Path)
    requires Sweepable(s, c, path)
    ensures var cleanup := Cleanup(path, s.intents[path].job, Referenced(s.rows, path), !Referenced(s.rows, path));
      CleanRemoveStep(CleanLockStep(s, c, path), c)
        == s.(files := Swept(s, path), cleanups := s.cleanups[c := cleanup])
  {
    var cleanup := Cleanup(path, s.intents[path].job, Referenced(s.rows, path), false);
    assert CleanLockStep(s, c, path) == s.(cleanups := s.cleanups[c := cleanup]);
  }

  lemma EndOfPass(s: State, c: nat, cleanup: Cleanup)
    requires c !in s.cleanups && (cleanup.referenced || cleanup.removed)
    ensures var t := s.(cleanups := s.cleanups[c := cleanup]);
      && CleanCommitStep(t, c) == s.(intents := s.intents - {cleanup.path})
      && t.(cleanups := t.cleanups - {c}) == s
  {
    assert s.cleanups[c := cleanup] - {c} == s.cleanups;
  }

  /**
   * A pass over a due intent, whatever other cleaners are at, ends it, takes its file exactly when no row
   * needs it, and touches nothing else.
   */
  lemma PassCleans(s: State, c: nat, path: Path)
    requires Sweepable(s, c, path)
    ensures Exec(s, CleaningPass(c, path)) == s.(intents := s.intents - {path}, files := Swept(s, path))
  {
    PassesUnfold(s, c, path);
    Removal(s, c, path);
    var cleanup := Cleanup(path, s.intents[path].job, Referenced(s.rows, path), !Referenced(s.rows, path));
    EndOfPass(s.(files := Swept(s, path)), c, cleanup);
  }

  lemma InterruptedEffect(s: State, c: nat, path: Path)
    requires Sweepable(s, c, path)
    ensures Exec(s, InterruptedPass(c, path)) == s.(files := Swept(s, path))
  {
    PassesUnfold(s, c, path);
    Removal(s, c, path);
    var cleanup := Cleanup(path, s.intents[path].job, Referenced(s.rows, path), !Referenced(s.rows, path));
    EndOfPass(s.(files := Swept(s, path)), c, cleanup);
  }

  /** An interrupted pass loses nothing that the next pass needs: running it again ends in the same state. */
  lemma CleaningIsIdempotent(s: State, c: nat, again: nat, path: Path)
    requires Sweepable(s, c, path) && Sweepable(s, again, path)
    ensures Exec(Exec(s, InterruptedPass(c, path)), CleaningPass(again, path)) == Exec(s, CleaningPass(c, path))
  {
    InterruptedEffect(s, c, path);
    PassCleans(s, c, path);
    PassCleans(Exec(s, InterruptedPass(c, path)), again, path);
    assert s.files - {path} - {path} == s.files - {path};
  }
}

/**
 * What holds in every run of the artifact protocol, however early an intent is taken over: the row
 * locks of a cleaner keep what it has read true, so it never takes a referenced file, and an intent
 * never leaves an owner that is still live.
 */
module MediaLocks {
  import opened Results
  import opened MediaModel
  import opened MediaInvariant
  import opened MediaSteps

  /** What a cleaner transaction has locked is still as it read it. */
  ghost predicate LockSound(s: State, c: nat)
    requires c in s.cleanups
  {
    var cleanup := s.cleanups[c];
    && cleanup.path in s.intents && s.intents[cleanup.path].job == cleanup.job
    && cleanup.job in s.jobs && Terminal(s.jobs[cleanup.job])
    && (cleanup.referenced <==> Referenced(s.rows, cleanup.path))
  }

  ghost predicate LocksSound(s: State) {
    && (forall p :: p in s.intents ==> s.intents[p].job in s.jobs)
    && (forall c :: c in s.cleanups ==> LockSound(s, c))
    && (forall c, d :: c in s.cleanups && d in s.cleanups && c != d ==>
          s.cleanups[c].path != s.cleanups[d].path && s.cleanups[c].job != s.cleanups[d].job)
  }

  /** A step that changes neither rows nor cleaners, leaves locked jobs terminal and locked intents to their jobs. */
  lemma LocksFrame(s: State, t: State)
    requires LocksSound(s) && t.rows == s.rows && t.cleanups == s.cleanups
    requires forall j :: j in s.jobs ==> j in t.jobs
    requires forall c :: c in s.cleanups ==>
      && Terminal(t.jobs[s.cleanups[c].job])
      && s.cleanups[c].path in t.intents && t.intents[s.cleanups[c].path].job == s.cleanups[c].job
    requires forall p :: p in t.intents ==> t.intents[p].job in t.jobs
    ensures LocksSound(t)
  {
    forall c | c in t.cleanups
      ensures LockSound(t, c)
    {
      assert LockSound(s, c);
    }
  }

  /** The rows of a locked path do not change when an active lease releases an intent of its own. */
  lemma ReleaseLocks(s: State, t: State, lease: Lease, path: Path)
    requires LocksSound(s) && Active(s, lease) && path in s.intents && s.intents[path].job == lease.job
    requires t.cleanups == s.cleanups && t.jobs == s.jobs && t.intents == s.intents - {path}
    requires forall c :: c in s.cleanups && s.cleanups[c].path != path ==>
      (Referenced(t.rows, s.cleanups[c].path) <==> Referenced(s.rows, s.cleanups[c].path))
    ensures LocksSound(t)
  {
    forall c | c in t.cleanups
      ensures LockSound(t, c)
    {
      assert LockSound(s, c);
    }
  }

  lemma RegisterLocks(s: State, job: nat, path: Path)
    requires LocksSound(s) && job in s.jobs && RegisterIntent(s, job, path).Ok?
    ensures LocksSound(RegisterIntent(s, job, path).value)
  {
    var t := RegisterIntent(s, job, path).value;
    forall c | c in s.cleanups
      ensures s.cleanups[c].path in t.intents && t.intents[s.cleanups[c].path].job == s.cleanups[c].job
      ensures Terminal(t.jobs[s.cleanups[c].job])
    {
      assert LockSound(s, c);
    }
    LocksFrame(s, t);
  }

  lemma AfterSaveLocks(s: State, lease: Lease, complete: bool)
    requires LocksSound(s) && lease in s.attempts && Active(s, lease)
    ensures LocksSound(AfterSave(s, lease, complete))
  {
    forall c | c in s.cleanups
      ensures LockSound(s, c)
    {
    }
    LocksFrame(s, AfterSave(s, lease, complete));
  }

  lemma SavedSourceLocks(s: State, lease: Lease, revision: nat)
    requires LocksSound(s) && SourceReady(s, lease, revision)
    ensures LocksSound(SourceSaved(s, lease, revision))
  {
    var row := SourceRow(s, lease);
    forall c | c in s.cleanups && s.cleanups[c].path != row.path
      ensures Referenced(SourceSaved(s, lease, revision).rows, s.cleanups[c].path)
              <==> Referenced(s.rows, s.cleanups[c].path)
    {
      InsertRevisionReferences(s.rows, revision, row, s.cleanups[c].path);
    }
    ReleaseLocks(s, SourceSaved(s, lease, revision), lease, row.path);
  }

  lemma SaveSourceLocks(s: State, lease: Lease, revision: nat, complete: bool)
    requires LocksSound(s)
    ensures LocksSound(SaveSourceStep(s, lease, revision, complete))
  {
    SaveSourceCases(s, lease, revision, complete);
    if SourceReady(s, lease, revision) {
      SavedSourceLocks(s, lease, revision);
      AfterSaveLocks(SourceSaved(s, lease, revision), lease, complete);
    }
  }

  lemma UpsertedLocks(s: State, lease: Lease, key: DerivativeKey)
    requires LocksSound(s) && Active(s, lease) && lease in s.attempts && s.attempts[lease].task != Idle
    requires TaskPath(s, lease) in s.intents && s.intents[TaskPath(s, lease)].job == lease.job
    requires PreviousRemembered(s, lease, key)
    ensures LocksSound(Upserted(s, lease, key))
  {
    var path := TaskPath(s, lease);
    forall c | c in s.cleanups && s.cleanups[c].path != path
      ensures Referenced(Upserted(s, lease, key).rows, s.cleanups[c].path) <==> Referenced(s.rows, s.cleanups[c].path)
    {
      assert LockSound(s, c);
      UpsertReferences(s.rows, key, path, s.cleanups[c].path);
    }
    ReleaseLocks(s, Upserted(s, lease, key), lease, path);
  }

  lemma SavedDerivativeOwns(s: State, lease: Lease)
    requires DerivativeReady(s, lease)
    ensures Active(s, lease) && TaskPath(s, lease) in s.intents && s.intents[TaskPath(s, lease)].job == lease.job
    ensures DerivativeSaved(s, lease).rows == Upserted(s, lease, s.attempts[lease].task.item.key).rows
    ensures DerivativeSaved(s, lease).attempts == s.attempts
  {
  }

  lemma SavedDerivativeLocks(s: State, lease: Lease)
    requires LocksSound(s) && DerivativeReady(s, lease)
    ensures LocksSound(DerivativeSaved(s, lease))
  {
    var key, t := s.attempts[lease].task.item.key, Remembering(s, lease);
    DerivativeSavedUnfolds(s, lease);
    SavedDerivativeOwns(s, lease);
    if Replaces(s, lease) {
      RegisterLocks(s, lease.job, s.rows.derivatives[key]);
    }
    UpsertedLocks(t.value, lease, key);
    LocksBelowAttempts(Upserted(t.value, lease, key), DerivativeSaved(s, lease));
  }

  lemma LocksBelowAttempts(s: State, t: State)
    requires LocksSound(s) && s == t.(attempts := s.attempts)
    ensures LocksSound(t)
  {
    forall c | c in t.cleanups
      ensures LockSound(t, c)
    {
      assert LockSound(s, c);
    }
  }

  lemma SaveDerivativeLocks(s: State, lease: Lease, complete: bool)
    requires LocksSound(s)
    ensures LocksSound(SaveDerivativeStep(s, lease, complete))
  {
    SaveDerivativeCases(s, lease, complete);
    if DerivativeReady(s, lease) {
      SavedDerivativeLocks(s, lease);
      AfterSaveLocks(DerivativeSaved(s, lease), lease, complete);
    }
  }

  lemma RegisterStepLocks(s: State, lease: Lease, item: Item)
    requires LocksSound(s)
    ensures LocksSound(RegisterStep(s, lease, item))
  {
    var t := RegisterStep(s, lease, item);
    if t != s {
      RegisterLocks(s, lease.job, ItemPath(item));
      LocksBelowAttempts(RegisterIntent(s, lease.job, ItemPath(item)).value, t);
    }
  }

  /** What a step of jobs, users or time leaves alone: it moves no job that a cleaner has locked. */
  ghost predicate JobStep(s: State, t: State) {
    && t.rows == s.rows && t.cleanups == s.cleanups
    && t.intents.Keys == s.intents.Keys && (forall p :: p in s.intents ==> t.intents[p].job == s.intents[p].job)
    && (forall j :: j in s.jobs ==> j in t.jobs)
    && (forall j :: j in s.jobs && JobLocked(s, j) && Terminal(s.jobs[j]) ==> t.jobs[j] == s.jobs[j])
  }

  lemma JobStepLocks(s: State, t: State)
    requires LocksSound(s) && JobStep(s, t)
    ensures LocksSound(t)
  {
    forall c | c in s.cleanups
      ensures LockSound(s, c) && JobLocked(s, s.cleanups[c].job)
    {
    }
    LocksFrame(s, t);
  }

  lemma ClaimMoves(s: State, job: nat, owner: nat, duration: nat)
    ensures JobStep(s, ClaimStep(s, job, owner, duration))
  {
  }

  lemma HeartbeatMoves(s: State, lease: Lease, extend: nat)
    ensures JobStep(s, HeartbeatStep(s, lease, extend))
  {
  }

  lemma CancelMoves(s: State, job: nat)
    ensures JobStep(s, CancelStep(s, job))
  {
  }

  lemma JobMoves(s: State, a: Action)
    requires a.Tick? || a.Enqueue? || a.Finish? || a.Retry? || a.Park? || a.Release? || a.Abandon?
    ensures JobStep(s, Apply(s, a))
  {
  }

  lemma CleanLockLocks(s: State, c: nat, path: Path)
    requires LocksSound(s)
    ensures LocksSound(CleanLockStep(s, c, path))
  {
    var t := CleanLockStep(s, c, path);
    forall d | d in t.cleanups
      ensures LockSound(t, d)
    {
      assert d in s.cleanups ==> LockSound(s, d);
    }
  }

  lemma CleanEndLocks(s: State, t: State, c: nat, path: Path)
    requires LocksSound(s) && (c in s.cleanups ==> s.cleanups[c].path == path)
    requires t == s.(cleanups := s.cleanups - {c})
      || (c in s.cleanups && t == s.(intents := s.intents - {path}, cleanups := s.cleanups - {c}))
    ensures LocksSound(t)
  {
    forall d | d in t.cleanups
      ensures LockSound(t, d)
    {
      assert LockSound(s, d);
    }
  }

  lemma CleanRemoveLocks(s: State, c: nat)
    requires LocksSound(s)
    ensures LocksSound(CleanRemoveStep(s, c))
  {
    var t := CleanRemoveStep(s, c);
    forall d | d in t.cleanups
      ensures LockSound(t, d)
    {
      assert LockSound(s, d);
    }
  }

  lemma CleanerLocks(s: State, a: Action)
    requires LocksSound(s) && (a.CleanFail? || a.CleanCommit? || a.CleanRollback?)
    ensures LocksSound(Apply(s, a))
  {
    if Apply(s, a) != s {
      var path := if a.cleaner in s.cleanups then s.cleanups[a.cleaner].path else SourcePath(0, 0, 0);
      CleanEndLocks(s, Apply(s, a), a.cleaner, path);
    }
  }

  lemma FileLocks(s: State, a: Action)
    requires LocksSound(s) && (a.Write? || a.Judge? || a.RemoveRedundant? || a.AddPage?)
    ensures LocksSound(Apply(s, a))
  {
    FileMoves(s, a);
    var t := Apply(s, a);
    forall c | c in t.cleanups
      ensures LockSound(t, c)
    {
      assert LockSound(s, c);
    }
  }

  /** File operations and new pages leave the tables alone that a cleaner reads. */
  ghost predicate SameForCleaners(s: State, t: State) {
    && t.intents == s.intents && t.jobs == s.jobs && t.cleanups == s.cleanups
    && t.rows.revisions == s.rows.revisions && t.rows.derivatives == s.rows.derivatives
  }

  lemma FileMoves(s: State, a: Action)
    requires a.Write? || a.Judge? || a.RemoveRedundant? || a.AddPage?
    ensures SameForCleaners(s, Apply(s, a))
  {
    match a
    case Write(lease, digest) => assert SameForCleaners(s, WriteStep(s, lease, digest));
    case Judge(lease) => assert SameForCleaners(s, JudgeStep(s, lease));
    case RemoveRedundant(lease) => assert SameForCleaners(s, RemoveRedundantStep(s, lease));
    case AddPage(_) =>
  }

  lemma StepLocks(s: State, a: Action)
    requires LocksSound(s)
    ensures LocksSound(Apply(s, a))
  {
    match a
    case Register(lease, item) => RegisterStepLocks(s, lease, item);
    case SaveSource(lease, revision, complete) => SaveSourceLocks(s, lease, revision, complete);
    case SaveDerivative(lease, complete) => SaveDerivativeLocks(s, lease, complete);
    case CleanLock(c, path) => CleanLockLocks(s, c, path);
    case CleanRemove(c) => CleanRemoveLocks(s, c);
    case CleanFail(_) => CleanerLocks(s, a);
    case CleanCommit(_) => CleanerLocks(s, a);
    case CleanRollback(_) => CleanerLocks(s, a);
    case AddPage(_) => FileLocks(s, a);
    case Write(_, _) => FileLocks(s, a);
    case Judge(_) => FileLocks(s, a);
    case RemoveRedundant(_) => FileLocks(s, a);
    case Claim(job, owner, duration) =>
      ClaimMoves(s, job, owner, duration);
      JobStepLocks(s, Apply(s, a));
    case Heartbeat(lease, extend) =>
      HeartbeatMoves(s, lease, extend);
      JobStepLocks(s, Apply(s, a));
    case Cancel(job) =>
      CancelMoves(s, job);
      JobStepLocks(s, Apply(s, a));
    case _ =>
      JobMoves(s, a);
      JobStepLocks(s, Apply(s, a));
  }

  lemma {:induction false} ExecLocks(s: State, actions: seq<Action>)
    requires LocksSound(s)
    ensures LocksSound(Exec(s, actions))
    decreases |actions|
  {
    if actions != [] {
      StepLocks(s, actions[0]);
      ExecLocks(Apply(s, actions[0]), actions[1..]);
    }
  }
}

/** Every step of the artifact protocol keeps the invariant. */
module MediaSteps {
  import opened Results
  import opened MediaModel
  import opened MediaInvariant

  // ---------------------------------------------------------------- frames

  /** A job row nobody works under: no attempt's standing depends on it. */
  predicate Dormant(job: Job) {
    job.state != Running && job.state != Cancelled
  }

  /** The attempts' standing survives a step that only lets time pass, drops attempts or changes dormant jobs. */
  lemma AttemptsFrame(s: State, t: State)
    requires AttemptsCurrent(s) && Protected(s)
    requires t.clock >= s.clock && t.intents == s.intents && t.rows == s.rows
    requires forall l :: l in t.attempts ==> l in s.attempts && t.attempts[l] == s.attempts[l]
    requires forall j :: j in s.jobs ==>
      j in t.jobs && (t.jobs[j] == s.jobs[j]
        || (Dormant(s.jobs[j]) && Dormant(t.jobs[j]) && t.jobs[j].revision >= s.jobs[j].revision))
    ensures AttemptsCurrent(t) && Protected(t)
  {
    assert forall l :: InLease(t, l) ==> InLease(s, l);
    forall l | Concerned(t, l)
      ensures OwnsIntent(t, l)
    {
      assert Concerned(s, l) && OwnsIntent(s, l);
    }
  }

  /** Nothing the attempts have stored is lost while attempts only stop, go idle or run out of time. */
  lemma WorkFrame(s: State, t: State)
    requires WorkSound(s)
    requires t.rows == s.rows && t.files == s.files
    requires forall l :: l in t.attempts && t.attempts[l].task != Idle ==>
      l in s.attempts && s.attempts[l].task == t.attempts[l].task
    requires forall l :: Working(t, l) ==> Working(s, l)
    requires forall l :: Working(t, l) && IsCancelled(s, l.job) ==> IsCancelled(t, l.job)
    ensures WorkSound(t)
  {
    forall l | InLease(t, l) && HasStored(t.attempts[l].task) && MaySave(t, l)
      ensures OnDisk(t, l)
    {
      assert Working(t, l);
      assert MaySave(s, l) && OnDisk(s, l);
    }
    forall l | InLease(t, l) && MayRemove(t.rows, t.attempts[l].task)
      ensures !Referenced(t.rows, TaskPath(t, l))
    {
      assert Working(t, l);
      assert MayRemove(s.rows, s.attempts[l].task);
    }
  }

  /** The job under a cleaner's lock is terminal, so a step on a live job does not touch it. */
  lemma LockedJobs(s: State, c: nat)
    requires CleanupsSound(s) && c in s.cleanups
    ensures s.cleanups[c].job in s.jobs && Terminal(s.jobs[s.cleanups[c].job])
    ensures s.cleanups[c].path in s.intents && s.intents[s.cleanups[c].path].job == s.cleanups[c].job
  {
  }

  lemma LiveJobCleanups(s: State, t: State, job: nat)
    requires CleanupsSound(s)
    requires t.cleanups == s.cleanups && t.rows == s.rows && t.files == s.files && t.clock >= s.clock
    requires t.intents == s.intents
    requires job in s.jobs ==>
      job in t.jobs && (t.jobs[job] == s.jobs[job] || !Terminal(s.jobs[job]) || !JobLocked(s, job))
    requires forall j :: j in s.jobs && j != job ==> j in t.jobs && t.jobs[j] == s.jobs[j]
    ensures CleanupsSound(t)
  {
  }

  // ---------------------------------------------------------------- job transitions

  lemma DormantInv(s: State, t: State, job: nat)
    requires Inv(s)
    requires t == s.(clock := t.clock, jobs := t.jobs, attempts := t.attempts) && t.clock >= s.clock
    requires forall l :: l in t.attempts ==> l in s.attempts && t.attempts[l] == s.attempts[l]
    requires forall j :: j in s.jobs && j != job ==> j in t.jobs && t.jobs[j] == s.jobs[j]
    requires job in s.jobs ==> job in t.jobs && (t.jobs[job] == s.jobs[job] || !JobLocked(s, job))
    requires job in s.jobs && t.jobs[job] != s.jobs[job] ==>
      Dormant(s.jobs[job]) && Dormant(t.jobs[job]) && t.jobs[job].revision >= s.jobs[job].revision
    ensures Inv(t)
  {
    AttemptsFrame(s, t);
    WorkFrame(s, t);
    DormantCleanups(s, t, job);
  }

  lemma DormantCleanups(s: State, t: State, job: nat)
    requires CleanupsSound(s)
    requires t == s.(clock := t.clock, jobs := t.jobs, attempts := t.attempts) && t.clock >= s.clock
    requires forall j :: j in s.jobs && j != job ==> j in t.jobs && t.jobs[j] == s.jobs[j]
    requires job in s.jobs ==> job in t.jobs && (t.jobs[job] == s.jobs[job] || !JobLocked(s, job))
    ensures CleanupsSound(t)
  {
  }

  lemma ClaimAttempts(s: State, id: nat, owner: nat, duration: nat)
    requires AttemptsCurrent(s) && Protected(s)
    ensures AttemptsCurrent(ClaimStep(s, id, owner, duration)) && Protected(ClaimStep(s, id, owner, duration))
  {
    var t := ClaimStep(s, id, owner, duration);
    if t != s {
      var issued := Lease(id, s.jobs[id].revision + 1, owner);
      assert forall l :: InLease(s, l) ==> l.job != id;
      assert forall l :: InLease(t, l) && l != issued ==> InLease(s, l);
      forall l | Concerned(t, l)
        ensures OwnsIntent(t, l)
      {
        assert Concerned(s, l) && OwnsIntent(s, l);
      }
    }
  }

  lemma HeartbeatAttempts(s: State, lease: Lease, extend: nat)
    requires AttemptsCurrent(s) && Protected(s)
    ensures AttemptsCurrent(HeartbeatStep(s, lease, extend)) && Protected(HeartbeatStep(s, lease, extend))
  {
    var t := HeartbeatStep(s, lease, extend);
    if t != s {
      assert Holds(s, lease);
      assert InLease(s, lease);
      assert forall l :: InLease(t, l) ==> InLease(s, l);
      forall l | Concerned(t, l)
        ensures OwnsIntent(t, l)
      {
        assert Concerned(s, l) && OwnsIntent(s, l);
      }
    }
  }

  lemma EndCurrent(s: State, lease: Lease, outcome: JobState)
    requires AttemptsCurrent(s) && Active(s, lease) && outcome != Running && outcome != Cancelled
    ensures AttemptsCurrent(EndJob(s, lease, outcome))
    ensures forall l :: InLease(EndJob(s, lease, outcome), l) ==> InLease(s, l) && l.job != lease.job
  {
  }

  lemma EndAttempts(s: State, lease: Lease, outcome: JobState)
    requires AttemptsCurrent(s) && Protected(s)
    requires Active(s, lease) && outcome != Running && outcome != Cancelled
    ensures AttemptsCurrent(EndJob(s, lease, outcome)) && Protected(EndJob(s, lease, outcome))
    ensures forall l :: Working(EndJob(s, lease, outcome), l) ==> Working(s, l)
  {
    var t := EndJob(s, lease, outcome);
    EndCurrent(s, lease, outcome);
    forall l | Concerned(t, l)
      ensures OwnsIntent(t, l)
    {
      assert InLease(t, l);
      assert Concerned(s, l) && OwnsIntent(s, l);
    }
  }

  lemma CancelAttempts(s: State, id: nat)
    requires AttemptsCurrent(s) && Protected(s)
    ensures AttemptsCurrent(CancelStep(s, id)) && Protected(CancelStep(s, id))
    ensures forall l :: Working(CancelStep(s, id), l) ==> Working(s, l)
  {
    var t := CancelStep(s, id);
    if t != s {
      assert forall l :: InLease(t, l) <==> InLease(s, l);
      forall l | Concerned(t, l)
        ensures OwnsIntent(t, l)
      {
        assert Concerned(s, l) && OwnsIntent(s, l);
      }
    }
  }

  lemma CancelCleanups(s: State, id: nat)
    requires CleanupsSound(s)
    ensures CleanupsSound(CancelStep(s, id))
  {
  }

  lemma CancelInv(s: State, id: nat)
    requires Inv(s)
    ensures Inv(CancelStep(s, id))
  {
    CancelAttempts(s, id);
    WorkFrame(s, CancelStep(s, id));
    CancelCleanups(s, id);
  }

  lemma ClaimRest(s: State, id: nat, owner: nat, duration: nat)
    requires WorkSound(s) && CleanupsSound(s)
    ensures WorkSound(ClaimStep(s, id, owner, duration)) && CleanupsSound(ClaimStep(s, id, owner, duration))
  {
  }

  lemma ClaimInv(s: State, id: nat, owner: nat, duration: nat)
    requires Inv(s)
    ensures Inv(ClaimStep(s, id, owner, duration))
  {
    ClaimAttempts(s, id, owner, duration);
    ClaimRest(s, id, owner, duration);
  }

  lemma HeartbeatRest(s: State, lease: Lease, extend: nat)
    requires AttemptsCurrent(s) && WorkSound(s) && CleanupsSound(s)
    ensures WorkSound(HeartbeatStep(s, lease, extend)) && CleanupsSound(HeartbeatStep(s, lease, extend))
  {
  }

  lemma HeartbeatInv(s: State, lease: Lease, extend: nat)
    requires Inv(s)
    ensures Inv(HeartbeatStep(s, lease, extend))
  {
    HeartbeatAttempts(s, lease, extend);
    HeartbeatRest(s, lease, extend);
  }

  lemma EndInv(s: State, lease: Lease, outcome: JobState)
    requires Inv(s)
    requires Active(s, lease) && outcome != Running && outcome != Cancelled
    ensures Inv(EndJob(s, lease, outcome))
  {
    EndAttempts(s, lease, outcome);
    WorkFrame(s, EndJob(s, lease, outcome));
    LiveJobCleanups(s, EndJob(s, lease, outcome), lease.job);
  }

  /** An attempt that goes idle gives nothing up that the others rely on. */
  lemma IdleInv(s: State, lease: Lease)
    requires Inv(s) && lease in s.attempts
    ensures Inv(WithTask(s, lease, Idle))
  {
    IdleAttempts(s, lease);
    WorkFrame(s, WithTask(s, lease, Idle));
    CleanupFrameSame(s, WithTask(s, lease, Idle));
  }

  lemma IdleAttempts(s: State, lease: Lease)
    requires AttemptsCurrent(s) && Protected(s) && lease in s.attempts
    ensures AttemptsCurrent(WithTask(s, lease, Idle)) && Protected(WithTask(s, lease, Idle))
    ensures forall l :: Working(WithTask(s, lease, Idle), l) ==> Working(s, l)
  {
    var t := WithTask(s, lease, Idle);
    assert forall l :: InLease(t, l) <==> InLease(s, l);
    forall l | Concerned(t, l)
      ensures OwnsIntent(t, l)
    {
      assert Concerned(s, l) && OwnsIntent(s, l);
    }
  }

  lemma CleanupFrameSame(s: State, t: State)
    requires CleanupsSound(s) && t == s.(attempts := t.attempts)
    ensures CleanupsSound(t)
  {
  }

  // ---------------------------------------------------------------- registering intents

  /** Registering for the job of an active lease keeps the concerned attempts protected. */
  lemma RegisterIntentAttempts(s: State, lease: Lease, path: Path)
    requires AttemptsCurrent(s) && Protected(s) && Active(s, lease)
    requires Spares(s, lease.job, path) && RegisterIntent(s, lease.job, path).Ok?
    ensures AttemptsCurrent(RegisterIntent(s, lease.job, path).value)
    ensures Protected(RegisterIntent(s, lease.job, path).value)
  {
    var t := RegisterIntent(s, lease.job, path).value;
    assert forall l :: InLease(t, l) <==> InLease(s, l);
    forall l | Concerned(t, l)
      ensures OwnsIntent(t, l)
    {
      assert Concerned(s, l) && OwnsIntent(s, l);
      if TaskPath(s, l) == path {
        KeptByOwner(s, lease.job, path, l);
        assert !IsCancelled(s, lease.job);
      }
    }
  }

  /** A concerned attempt on `path` keeps its intent: its live job cannot be displaced, and `Spares` guards the rest. */
  lemma KeptByOwner(s: State, job: nat, path: Path, l: Lease)
    requires AttemptsCurrent(s) && Protected(s) && Spares(s, job, path) && RegisterIntent(s, job, path).Ok?
    requires Concerned(s, l) && TaskPath(s, l) == path
    ensures l.job == job
  {
    assert OwnsIntent(s, l);
  }

  lemma RegisterIntentCleanups(s: State, lease: Lease, path: Path)
    requires CleanupsSound(s) && RegisterIntent(s, lease.job, path).Ok?
    ensures CleanupsSound(RegisterIntent(s, lease.job, path).value)
  {
  }

  lemma RegisterIntentInv(s: State, lease: Lease, path: Path)
    requires Inv(s) && Active(s, lease)
    requires Spares(s, lease.job, path) && RegisterIntent(s, lease.job, path).Ok?
    ensures Inv(RegisterIntent(s, lease.job, path).value)
  {
    var t := RegisterIntent(s, lease.job, path).value;
    RegisterIntentAttempts(s, lease, path);
    WorkFrame(s, t);
    RegisterIntentCleanups(s, lease, path);
  }

  /** Moving on with an item: a concerned attempt must own its intent. */
  lemma TakeUpInv(s: State, lease: Lease, task: Task)
    requires Inv(s) && InLease(s, lease) && task != Idle && TaskSound(s.rows, task)
    requires !IsCancelled(s, lease.job) || CanHarm(s.rows, task) ==> OwnsFor(s, lease, ItemPath(task.item))
    requires HasStored(task) && !MayRemove(s.rows, task) ==>
      || IsCancelled(s, lease.job) || Overtaken(s.rows, task.item)
      || (ItemPath(task.item) in s.files && s.files[ItemPath(task.item)] == task.digest)
    requires MayRemove(s.rows, task) ==> !Referenced(s.rows, ItemPath(task.item))
    ensures Inv(WithTask(s, lease, task))
  {
    TakeUpAttempts(s, lease, task);
    TakeUpWork(s, lease, task);
    CleanupFrameSame(s, WithTask(s, lease, task));
  }

  /** The attempt's job owns the intent of `path`, for as long as the lease when the job is cancelled. */
  predicate OwnsFor(s: State, l: Lease, path: Path)
    requires l in s.attempts
  {
    && path in s.intents && s.intents[path].job == l.job
    && (IsCancelled(s, l.job) ==> s.intents[path].cleanupAfter >= s.attempts[l].until)
  }

  lemma TakeUpAttempts(s: State, lease: Lease, task: Task)
    requires AttemptsCurrent(s) && Protected(s) && lease in s.attempts && task != Idle
    requires !IsCancelled(s, lease.job) || CanHarm(s.rows, task) ==> OwnsFor(s, lease, ItemPath(task.item))
    ensures AttemptsCurrent(WithTask(s, lease, task)) && Protected(WithTask(s, lease, task))
  {
    var t := WithTask(s, lease, task);
    assert forall l :: InLease(t, l) <==> InLease(s, l);
    forall l | Concerned(t, l)
      ensures OwnsIntent(t, l)
    {
      if l != lease {
        assert Concerned(s, l) && OwnsIntent(s, l);
      }
    }
  }

  lemma TakeUpWork(s: State, lease: Lease, task: Task)
    requires WorkSound(s) && lease in s.attempts && task != Idle && TaskSound(s.rows, task)
    requires HasStored(task) && !MayRemove(s.rows, task) ==>
      || IsCancelled(s, lease.job) || Overtaken(s.rows, task.item)
      || (ItemPath(task.item) in s.files && s.files[ItemPath(task.item)] == task.digest)
    requires MayRemove(s.rows, task) ==> !Referenced(s.rows, ItemPath(task.item))
    ensures WorkSound(WithTask(s, lease, task))
  {
    var t := WithTask(s, lease, task);
    forall l | InLease(t, l) && HasStored(t.attempts[l].task) && MaySave(t, l)
      ensures OnDisk(t, l)
    {
      if l != lease {
        assert InLease(s, l) && MaySave(s, l) && OnDisk(s, l);
      }
    }
    forall l | InLease(t, l) && MayRemove(t.rows, t.attempts[l].task)
      ensures !Referenced(t.rows, TaskPath(t, l))
    {
      assert l != lease ==> InLease(s, l) && MayRemove(s.rows, s.attempts[l].task);
    }
  }

  lemma RegisterInv(s: State, lease: Lease, item: Item)
    requires Inv(s) && Sparing(s, Register(lease, item))
    ensures Inv(RegisterStep(s, lease, item))
  {
    if RegisterStep(s, lease, item) != s {
      RegisterIntentInv(s, lease, ItemPath(item));
      var t := RegisterIntent(s, lease.job, ItemPath(item)).value;
      assert InLease(t, lease) && Active(t, lease);
      TakeUpInv(t, lease, Registered(item));
    }
  }

  // ---------------------------------------------------------------- file operations

  /** No two concerned attempts work on one path. */
  lemma NoRival(s: State, k: Lease, l: Lease)
    requires AttemptsCurrent(s) && Protected(s)
    requires Concerned(s, k) && Concerned(s, l) && TaskPath(s, k) == TaskPath(s, l)
    ensures k == l
  {
    assert OwnsIntent(s, k) && OwnsIntent(s, l);
  }

  /** The cleaner holds no lock on a path a concerned attempt is working on. */
  lemma NoCleaner(s: State, l: Lease, c: nat)
    requires AttemptsCurrent(s) && Protected(s) && CleanupsSound(s)
    requires Concerned(s, l) && c in s.cleanups
    ensures s.cleanups[c].path != TaskPath(s, l)
  {
    assert OwnsIntent(s, l) && CleanupSound(s, c);
  }

  /** A worker about to write a file that is not there can still do harm, and so owns its intent. */
  lemma WriterConcerned(s: State, lease: Lease)
    requires RowsHaveFiles(s.rows, s.files) && Working(s, lease)
    requires s.attempts[lease].task.Registered? && TaskPath(s, lease) !in s.files
    ensures Concerned(s, lease) && !Referenced(s.rows, TaskPath(s, lease))
  {
  }

  lemma AddFileInv(s: State, lease: Lease, digest: Digest)
    requires Inv(s) && Concerned(s, lease) && TaskPath(s, lease) !in s.files
    ensures Inv(s.(files := s.files[TaskPath(s, lease) := digest]))
  {
    var path := TaskPath(s, lease);
    var t := s.(files := s.files[path := digest]);
    assert OwnsIntent(s, lease);
    AttemptsFrame(s, t);
    AddFileWork(s, t, path);
    AddFileCleanups(s, lease, t);
  }

  lemma AddFileWork(s: State, t: State, path: Path)
    requires WorkSound(s) && path !in s.files && path in t.files && t == s.(files := s.files[path := t.files[path]])
    ensures WorkSound(t)
  {
    forall l | InLease(t, l) && HasStored(t.attempts[l].task) && MaySave(t, l)
      ensures OnDisk(t, l)
    {
      assert InLease(s, l) && MaySave(s, l) && OnDisk(s, l);
    }
    forall l | InLease(t, l) && MayRemove(t.rows, t.attempts[l].task)
      ensures !Referenced(t.rows, TaskPath(t, l))
    {
      assert InLease(s, l);
    }
  }

  lemma AddFileCleanups(s: State, lease: Lease, t: State)
    requires AttemptsCurrent(s) && Protected(s) && CleanupsSound(s) && Concerned(s, lease)
    requires t == s.(files := t.files)
    requires forall p :: p in t.files ==> p in s.files || p == TaskPath(s, lease)
    ensures CleanupsSound(t)
  {
    forall c | c in t.cleanups
      ensures CleanupSound(t, c)
    {
      assert CleanupSound(s, c);
      NoCleaner(s, lease, c);
    }
  }

  lemma WriteInv(s: State, lease: Lease, digest: Digest)
    requires Inv(s)
    ensures Inv(WriteStep(s, lease, digest))
  {
    if InLease(s, lease) && s.attempts[lease].task.Registered? {
      var item := s.attempts[lease].task.item;
      var path := ItemPath(item);
      assert TaskSound(s.rows, s.attempts[lease].task);
      if path !in s.files {
        WriterConcerned(s, lease);
        AddFileInv(s, lease, digest);
        var t := s.(files := s.files[path := digest]);
        assert InLease(t, lease) && OwnsIntent(s, lease);
        TakeUpInv(t, lease, Stored(item, digest));
        assert WriteStep(s, lease, digest) == WithTask(t, lease, Stored(item, digest));
      } else if item.DerivativeItem? || s.files[path] == digest {
        FoundUnreferenced(s.rows, s.files, item);
        assert Concerned(s, lease) ==> OwnsIntent(s, lease);
        TakeUpInv(s, lease, Stored(item, s.files[path]));
      }
    }
  }

  /** A file that repeats the revision its item follows is not the file of a row. */
  lemma FoundUnreferenced(rows: Rows, files: map<Path, Digest>, item: Item)
    requires RowsSound(rows) && RowsHaveFiles(rows, files) && Planned(rows, item) && ItemPath(item) in files
    ensures MayRemove(rows, Stored(item, files[ItemPath(item)])) ==> !Referenced(rows, ItemPath(item))
  {
  }

  /** The file of a plan's base revision is present, so equal content is always recognised. */
  lemma JudgeInv(s: State, lease: Lease)
    requires Inv(s)
    ensures Inv(JudgeStep(s, lease))
  {
    if InLease(s, lease) && s.attempts[lease].task.Stored? {
      var verdict := JudgeStep(s, lease).attempts[lease].task;
      JudgeVerdict(s, lease);
      assert Concerned(s, lease) ==> OwnsIntent(s, lease);
      TakeUpInv(s, lease, verdict);
    }
  }

  lemma JudgeVerdict(s: State, lease: Lease)
    requires WorkSound(s) && DiskSound(s) && InLease(s, lease) && s.attempts[lease].task.Stored?
    ensures var task, verdict := s.attempts[lease].task, JudgeStep(s, lease).attempts[lease].task;
      && JudgeStep(s, lease) == WithTask(s, lease, verdict)
      && HasStored(verdict) && verdict.item == task.item && verdict.digest == task.digest && TaskSound(s.rows, verdict)
      && (MayRemove(s.rows, verdict) <==> MayRemove(s.rows, task))
      && (MayRemove(s.rows, verdict) ==> !Referenced(s.rows, TaskPath(s, lease)))
      && (CanHarm(s.rows, verdict) ==> CanHarm(s.rows, task))
      && (MaySave(s, lease) ==> OnDisk(s, lease))
  {
    assert TaskSound(s.rows, s.attempts[lease].task);
  }

  /** The attempt has stored a file at `path` that it may save. */
  predicate SavesFrom(s: State, l: Lease, path: Path) {
    Working(s, l) && HasStored(s.attempts[l].task) && MaySave(s, l) && TaskPath(s, l) == path
  }

  lemma RemoveFileInv(s: State, path: Path)
    requires Inv(s) && !Referenced(s.rows, path)
    requires forall l :: !SavesFrom(s, l, path)
    ensures Inv(s.(files := s.files - {path}))
  {
    var t := s.(files := s.files - {path});
    AttemptsFrame(s, t);
    RemoveFileWork(s, path);
    RemoveFileCleanups(s, path);
    RemoveFileDisk(s.rows, s.intents, s.files, path);
  }

  lemma RemoveFileWork(s: State, path: Path)
    requires WorkSound(s)
    requires forall l :: !SavesFrom(s, l, path)
    ensures WorkSound(s.(files := s.files - {path}))
  {
    var t := s.(files := s.files - {path});
    forall l | InLease(t, l) && HasStored(t.attempts[l].task) && MaySave(t, l)
      ensures OnDisk(t, l)
    {
      assert Working(s, l) && MaySave(s, l) && OnDisk(s, l);
      assert !SavesFrom(s, l, path);
    }
    forall l | InLease(t, l) && MayRemove(t.rows, t.attempts[l].task)
      ensures !Referenced(t.rows, TaskPath(t, l))
    {
      assert InLease(s, l);
    }
  }

  lemma RemoveFileCleanups(s: State, path: Path)
    requires CleanupsSound(s)
    ensures CleanupsSound(s.(files := s.files - {path}))
  {
  }

  lemma RemoveFileDisk(rows: Rows, intents: map<Path, Intent>, files: map<Path, Digest>, path: Path)
    requires RowsHaveFiles(rows, files) && FilesCovered(rows, intents, files) && !Referenced(rows, path)
    ensures RowsHaveFiles(rows, files - {path}) && FilesCovered(rows, intents, files - {path})
  {
  }

  /** Two items planned for one path were planned against the same revision. */
  lemma SamePlan(rows: Rows, a: Item, b: Item)
    requires RowsSound(rows) && Planned(rows, a) && Planned(rows, b) && ItemPath(a) == ItemPath(b) && a.SourceItem?
    ensures a == b
  {
    assert a.current.Some? ==> NumberedUpTo(rows, a.current.value);
    assert b.current.Some? ==> NumberedUpTo(rows, b.current.value);
  }

  /** Nobody may save an item under whose path another attempt holds a redundant copy. */
  lemma RedundantAlone(s: State, lease: Lease, l: Lease)
    requires AttemptsCurrent(s) && Protected(s) && TasksSound(s) && RowsSound(s.rows)
    requires InLease(s, lease) && s.attempts[lease].task.Redundant?
    requires Working(s, l) && MaySave(s, l) && TaskPath(s, l) == TaskPath(s, lease)
    ensures l == lease
  {
    assert TaskSound(s.rows, s.attempts[lease].task) && TaskSound(s.rows, s.attempts[l].task);
    SamePlan(s.rows, s.attempts[lease].task.item, s.attempts[l].task.item);
    assert Concerned(s, l) && Concerned(s, lease);
    NoRival(s, l, lease);
  }

  lemma RemovalSparesSavers(s: State, lease: Lease, l: Lease)
    requires AttemptsCurrent(s) && Protected(s) && TasksSound(s) && RowsSound(s.rows)
    requires InLease(s, lease) && s.attempts[lease].task.Redundant?
    requires var t := WithTask(s, lease, Idle); Working(t, l) && MaySave(t, l)
    ensures TaskPath(s, l) != TaskPath(s, lease)
  {
    assert Working(s, l) && MaySave(s, l);
    if TaskPath(s, l) == TaskPath(s, lease) {
      RedundantAlone(s, lease, l);
    }
  }

  lemma RemovalSparesAllSavers(s: State, lease: Lease)
    requires AttemptsCurrent(s) && Protected(s) && TasksSound(s) && RowsSound(s.rows)
    requires InLease(s, lease) && s.attempts[lease].task.Redundant?
    ensures var t := WithTask(s, lease, Idle);
      forall l :: Working(t, l) && MaySave(t, l) ==> TaskPath(t, l) != TaskPath(s, lease)
  {
    var t := WithTask(s, lease, Idle);
    forall l | Working(t, l) && MaySave(t, l)
      ensures TaskPath(t, l) != TaskPath(s, lease)
    {
      RemovalSparesSavers(s, lease, l);
    }
  }

  lemma RemoveIdle(s: State, lease: Lease)
    requires AttemptsCurrent(s) && Protected(s) && WorkSound(s) && RowsSound(s.rows)
    requires InLease(s, lease) && s.attempts[lease].task.Redundant? && Inv(WithTask(s, lease, Idle))
    ensures Inv(RemoveRedundantStep(s, lease))
  {
    assert MayRemove(s.rows, s.attempts[lease].task);
    RemovalSparesAllSavers(s, lease);
    RemoveFileInv(WithTask(s, lease, Idle), TaskPath(s, lease));
  }

  lemma RemoveRedundantInv(s: State, lease: Lease)
    requires Inv(s)
    ensures Inv(RemoveRedundantStep(s, lease))
  {
    if InLease(s, lease) && s.attempts[lease].task.Redundant? {
      IdleInv(s, lease);
      RemoveIdle(s, lease);
    }
  }

  // ---------------------------------------------------------------- saving rows

  lemma InsertRevisionSound(rows: Rows, id: nat, row: Revision)
    requires RowsSound(rows)
    requires id !in rows.revisions && row.page in rows.pages && !NumberTaken(rows, row.page, row.number)
    requires row.path.SourcePath? && row.path.page == row.page && row.path.number == row.number
    requires rows.pages[row.page].None? ==> row.number == 1
    requires rows.pages[row.page].Some? ==>
      row.number == rows.revisions[rows.pages[row.page].value].number + 1
      && row.sha != rows.revisions[rows.pages[row.page].value].sha
    ensures RowsSound(InsertRevision(rows, id, row))
  {
    InsertRevisionNumbers(rows, id, row);
    InsertRevisionCurrent(rows, id, row);
    InsertRevisionNeighbours(rows, id, row);
  }

  lemma InsertRevisionNumbers(rows: Rows, id: nat, row: Revision)
    requires NumbersUnique(rows) && !NumberTaken(rows, row.page, row.number) && id !in rows.revisions
    ensures NumbersUnique(InsertRevision(rows, id, row))
  {
  }

  lemma InsertRevisionCurrent(rows: Rows, id: nat, row: Revision)
    requires CurrentIsLast(rows) && id !in rows.revisions && row.page in rows.pages
    requires rows.pages[row.page].None? ==> row.number == 1
    requires rows.pages[row.page].Some? ==> row.number == rows.revisions[rows.pages[row.page].value].number + 1
    ensures CurrentIsLast(InsertRevision(rows, id, row))
  {
  }

  lemma InsertRevisionNeighbours(rows: Rows, id: nat, row: Revision)
    requires NumbersUnique(rows) && CurrentIsLast(rows) && NeighboursDiffer(rows)
    requires id !in rows.revisions && row.page in rows.pages
    requires rows.pages[row.page].None? ==> row.number == 1
    requires rows.pages[row.page].Some? ==>
      row.number == rows.revisions[rows.pages[row.page].value].number + 1
      && row.sha != rows.revisions[rows.pages[row.page].value].sha
    ensures NeighboursDiffer(InsertRevision(rows, id, row))
  {
  }

  /** What a new state of the rows may not give back to an attempt: the chance to save or to do harm. */
  predicate NoWorse(rows: Rows, more: Rows, task: Task) {
    && (CanHarm(more, task) ==> CanHarm(rows, task))
    && (MayRemove(more, task) ==> MayRemove(rows, task))
    && (task != Idle && !Overtaken(more, task.item) ==> !Overtaken(rows, task.item))
  }

  /** Releasing the intent of a path whose only concerned worker has gone idle. */
  lemma ReleaseAttempts(s: State, t: State, lease: Lease)
    requires AttemptsCurrent(s) && Protected(s) && Concerned(s, lease)
    requires t == WithTask(s, lease, Idle).(rows := t.rows, intents := s.intents - {TaskPath(s, lease)})
    requires forall l :: l in t.attempts ==> NoWorse(s.rows, t.rows, t.attempts[l].task)
    ensures AttemptsCurrent(t) && Protected(t)
  {
    assert forall l :: InLease(t, l) <==> InLease(s, l);
    forall l | Concerned(t, l)
      ensures OwnsIntent(t, l)
    {
      assert NoWorse(s.rows, t.rows, t.attempts[l].task);
      assert Concerned(s, l) && OwnsIntent(s, l);
      if TaskPath(s, l) == TaskPath(s, lease) {
        NoRival(s, l, lease);
      }
    }
  }

  lemma ReleaseWork(s: State, t: State, lease: Lease)
    requires WorkSound(s) && lease in s.attempts
    requires t == WithTask(s, lease, Idle).(rows := t.rows, intents := t.intents)
    requires forall id :: id in s.rows.revisions ==>
      id in t.rows.revisions && t.rows.revisions[id] == s.rows.revisions[id]
    requires forall l :: l in t.attempts ==> NoWorse(s.rows, t.rows, t.attempts[l].task)
    requires forall l :: l != lease && InLease(s, l) && MayRemove(s.rows, s.attempts[l].task) ==>
      !Referenced(t.rows, TaskPath(s, l))
    ensures WorkSound(t)
  {
    forall l | l in t.attempts
      ensures TaskSound(t.rows, t.attempts[l].task)
    {
      assert TaskSound(s.rows, s.attempts[l].task);
    }
    forall l | InLease(t, l) && HasStored(t.attempts[l].task) && MaySave(t, l)
      ensures OnDisk(t, l)
    {
      assert NoWorse(s.rows, t.rows, t.attempts[l].task);
      assert InLease(s, l) && MaySave(s, l) && OnDisk(s, l);
    }
    forall l | InLease(t, l) && MayRemove(t.rows, t.attempts[l].task)
      ensures !Referenced(t.rows, TaskPath(t, l))
    {
      assert NoWorse(s.rows, t.rows, t.attempts[l].task);
      assert InLease(s, l) && l != lease;
    }
  }

  lemma ReleaseCleanups(s: State, t: State, lease: Lease)
    requires AttemptsCurrent(s) && Protected(s) && CleanupsSound(s) && Concerned(s, lease)
    requires t == WithTask(s, lease, Idle).(rows := t.rows, intents := s.intents - {TaskPath(s, lease)})
    requires forall c :: c in s.cleanups && s.cleanups[c].path != TaskPath(s, lease) ==>
      (Referenced(t.rows, s.cleanups[c].path) <==> Referenced(s.rows, s.cleanups[c].path))
    ensures CleanupsSound(t)
  {
    forall c | c in t.cleanups
      ensures CleanupSound(t, c)
    {
      assert CleanupSound(s, c);
      NoCleaner(s, lease, c);
    }
  }

  lemma InsertRevisionReferences(rows: Rows, id: nat, row: Revision, path: Path)
    requires id !in rows.revisions
    ensures Referenced(InsertRevision(rows, id, row), path) <==> Referenced(rows, path) || path == row.path
  {
    var after := InsertRevision(rows, id, row);
    assert after.revisions[id].path == row.path;
    assert forall i :: i in rows.revisions ==> i in after.revisions && after.revisions[i] == rows.revisions[i];
  }

  lemma SavedSourceDisk(rows: Rows, intents: map<Path, Intent>, files: map<Path, Digest>, id: nat, row: Revision)
    requires RowsHaveFiles(rows, files) && FilesCovered(rows, intents, files) && id !in rows.revisions
    requires row.path in files && files[row.path] == row.sha
    ensures RowsHaveFiles(InsertRevision(rows, id, row), files)
    ensures FilesCovered(InsertRevision(rows, id, row), intents - {row.path}, files)
  {
    forall p | p in files
      ensures Referenced(InsertRevision(rows, id, row), p) || p in intents - {row.path}
    {
      InsertRevisionReferences(rows, id, row, p);
    }
  }

  ghost predicate SourceReady(s: State, lease: Lease, revision: nat) {
    && lease in s.attempts && s.attempts[lease].task.Unique? && s.attempts[lease].task.item.SourceItem?
    && SaveSourceTx(s, lease, s.attempts[lease].task.item, s.attempts[lease].task.digest, revision).Ok?
  }

  ghost function SourceSaved(s: State, lease: Lease, revision: nat): State
    requires SourceReady(s, lease, revision)
  {
    SaveSourceTx(s, lease, s.attempts[lease].task.item, s.attempts[lease].task.digest, revision).value
  }

  function SourceRow(s: State, lease: Lease): Revision
    requires lease in s.attempts && s.attempts[lease].task.Unique? && s.attempts[lease].task.item.SourceItem?
  {
    var item := s.attempts[lease].task.item;
    Revision(item.page, item.number, ItemPath(item), s.attempts[lease].task.digest)
  }

  lemma SavedSourceShape(s: State, lease: Lease, revision: nat)
    requires SourceReady(s, lease, revision)
    ensures WithTask(SourceSaved(s, lease, revision), lease, Idle) == SourceAfter(s, lease, revision)
    ensures Active(s, lease) && revision !in s.rows.revisions && TaskPath(s, lease) == SourceRow(s, lease).path
  {
  }

  lemma SavedSourceWorking(s: State, lease: Lease, revision: nat)
    requires AttemptsCurrent(s) && StoredOnDisk(s) && SourceReady(s, lease, revision)
    ensures Concerned(s, lease) && MaySave(s, lease) && OnDisk(s, lease)
    ensures TaskPath(s, lease) in s.intents && s.intents[TaskPath(s, lease)].job == lease.job
  {
    assert Holds(s, lease);
    assert Working(s, lease) && MaySave(s, lease);
  }

  lemma SavedSourceRows(s: State, lease: Lease, revision: nat)
    requires RowsSound(s.rows) && TasksSound(s) && SourceReady(s, lease, revision)
    ensures RowsSound(InsertRevision(s.rows, revision, SourceRow(s, lease)))
  {
    assert TaskSound(s.rows, s.attempts[lease].task);
    InsertRevisionSound(s.rows, revision, SourceRow(s, lease));
  }

  lemma InsertedTask(rows: Rows, id: nat, row: Revision, task: Task)
    requires TaskSound(rows, task) && id !in rows.revisions
    ensures NoWorse(rows, InsertRevision(rows, id, row), task)
  {
    if task != Idle {
      InsertRevisionReferences(rows, id, row, ItemPath(task.item));
    }
  }

  /** A redundant copy waiting to be removed does not get a row: its holder owns the intent, and is not saving. */
  lemma InsertedUnreferenced(s: State, lease: Lease, revision: nat, l: Lease)
    requires AttemptsCurrent(s) && Protected(s) && WorkSound(s) && RowsSound(s.rows)
    requires SourceReady(s, lease, revision) && Concerned(s, lease)
    requires l != lease && InLease(s, l) && MayRemove(s.rows, s.attempts[l].task)
    ensures !Referenced(InsertRevision(s.rows, revision, SourceRow(s, lease)), TaskPath(s, l))
  {
    var row := SourceRow(s, lease);
    InsertRevisionReferences(s.rows, revision, row, TaskPath(s, l));
    if TaskPath(s, l) == row.path {
      assert TaskSound(s.rows, s.attempts[lease].task) && TaskSound(s.rows, s.attempts[l].task);
      SamePlan(s.rows, s.attempts[lease].task.item, s.attempts[l].task.item);
      assert Concerned(s, l);
      NoRival(s, l, lease);
    }
  }

  lemma SavedSourceCleanups(s: State, t: State, lease: Lease, revision: nat, row: Revision)
    requires AttemptsCurrent(s) && Protected(s) && CleanupsSound(s) && Concerned(s, lease)
    requires row.path == TaskPath(s, lease) && revision !in s.rows.revisions
    requires t == WithTask(s, lease, Idle).(rows := InsertRevision(s.rows, revision, row),
                                                intents := s.intents - {row.path})
    ensures CleanupsSound(t)
  {
    forall c | c in s.cleanups && s.cleanups[c].path != TaskPath(s, lease)
      ensures Referenced(t.rows, s.cleanups[c].path) <==> Referenced(s.rows, s.cleanups[c].path)
    {
      InsertRevisionReferences(s.rows, revision, row, s.cleanups[c].path);
    }
    ReleaseCleanups(s, t, lease);
  }

  /** The state after the save, said directly. */
  function SourceAfter(s: State, lease: Lease, revision: nat): State
    requires lease in s.attempts && s.attempts[lease].task.Unique? && s.attempts[lease].task.item.SourceItem?
  {
    var row := SourceRow(s, lease);
    WithTask(s, lease, Idle).(rows := InsertRevision(s.rows, revision, row), intents := s.intents - {row.path})
  }

  lemma SourceAfterDisk(s: State, lease: Lease, revision: nat)
    requires DiskSound(s) && TasksSound(s) && SourceReady(s, lease, revision) && OnDisk(s, lease)
    ensures DiskSound(SourceAfter(s, lease, revision))
  {
    SavedSourceShape(s, lease, revision);
    SavedSourceRows(s, lease, revision);
    SavedSourceDisk(s.rows, s.intents, s.files, revision, SourceRow(s, lease));
  }

  lemma SourceAfterAttempts(s: State, lease: Lease, revision: nat)
    requires AttemptsCurrent(s) && Protected(s) && WorkSound(s) && RowsSound(s.rows)
    requires SourceReady(s, lease, revision) && Concerned(s, lease)
    ensures var t := SourceAfter(s, lease, revision); AttemptsCurrent(t) && Protected(t) && WorkSound(t)
  {
    var t := SourceAfter(s, lease, revision);
    forall l | l in t.attempts
      ensures NoWorse(s.rows, t.rows, t.attempts[l].task)
    {
      assert TaskSound(s.rows, t.attempts[l].task);
      InsertedTask(s.rows, revision, SourceRow(s, lease), t.attempts[l].task);
    }
    forall l | l != lease && InLease(s, l) && MayRemove(s.rows, s.attempts[l].task)
      ensures !Referenced(t.rows, TaskPath(s, l))
    {
      InsertedUnreferenced(s, lease, revision, l);
    }
    ReleaseAttempts(s, t, lease);
    ReleaseWork(s, t, lease);
  }

  /** Saving a source revision, up to the attempt's next item. */
  lemma SavedSourceInv(s: State, lease: Lease, revision: nat)
    requires Inv(s) && SourceReady(s, lease, revision)
    ensures Inv(WithTask(SourceSaved(s, lease, revision), lease, Idle))
  {
    SavedSourceShape(s, lease, revision);
    SavedSourceWorking(s, lease, revision);
    SourceAfterDisk(s, lease, revision);
    SourceAfterAttempts(s, lease, revision);
    SavedSourceCleanups(s, SourceAfter(s, lease, revision), lease, revision, SourceRow(s, lease));
  }

  lemma EndAfterIdle(s: State, lease: Lease)
    requires lease in s.attempts && lease.job in s.jobs
    ensures EndJob(WithTask(s, lease, Idle), lease, Completed) == EndJob(s, lease, Completed)
  {
  }

  lemma AfterSaveInv(s: State, lease: Lease, complete: bool)
    requires lease in s.attempts && Active(s, lease) && Inv(WithTask(s, lease, Idle))
    ensures Inv(AfterSave(s, lease, complete))
  {
    if complete {
      EndAfterIdle(s, lease);
      EndInv(WithTask(s, lease, Idle), lease, Completed);
    }
  }

  lemma SaveSourceCases(s: State, lease: Lease, revision: nat, complete: bool)
    ensures !SourceReady(s, lease, revision) ==> SaveSourceStep(s, lease, revision, complete) == s
    ensures SourceReady(s, lease, revision) ==>
      var t := SourceSaved(s, lease, revision);
      Active(t, lease) && t.attempts == s.attempts
      && SaveSourceStep(s, lease, revision, complete) == AfterSave(t, lease, complete)
  {
  }

  lemma SaveSourceInv(s: State, lease: Lease, revision: nat, complete: bool)
    requires Inv(s)
    ensures Inv(SaveSourceStep(s, lease, revision, complete))
  {
    SaveSourceCases(s, lease, revision, complete);
    if SourceReady(s, lease, revision) {
      SavedSourceInv(s, lease, revision);
      AfterSaveInv(SourceSaved(s, lease, revision), lease, complete);
    }
  }

  lemma UpsertReferences(rows: Rows, key: DerivativeKey, path: Path, p: Path)
    requires p != path && (key in rows.derivatives ==> rows.derivatives[key] != p)
    ensures Referenced(rows.(derivatives := rows.derivatives[key := path]), p) <==> Referenced(rows, p)
  {
    var after := rows.(derivatives := rows.derivatives[key := path]);
    assert forall k :: k in rows.derivatives && k != key ==>
      k in after.derivatives && after.derivatives[k] == rows.derivatives[k];
  }

  lemma UpsertedDisk(rows: Rows, intents: map<Path, Intent>, files: map<Path, Digest>, key: DerivativeKey, path: Path)
    requires RowsHaveFiles(rows, files) && FilesCovered(rows, intents, files) && path in files
    requires key in rows.derivatives && rows.derivatives[key] != path ==> rows.derivatives[key] in intents
    ensures RowsHaveFiles(rows.(derivatives := rows.derivatives[key := path]), files)
    ensures FilesCovered(rows.(derivatives := rows.derivatives[key := path]), intents - {path}, files)
  {
    var after := rows.(derivatives := rows.derivatives[key := path]);
    forall p | p in files
      ensures Referenced(after, p) || p in intents - {path}
    {
      if p == path {
        assert after.derivatives[key] == path;
      } else if !(key in rows.derivatives && rows.derivatives[key] == p) {
        UpsertReferences(rows, key, path, p);
      }
    }
  }

  /** The second half of saving a derivative, once the row's previous path is remembered by an intent. */
  function Upserted(s: State, lease: Lease, key: DerivativeKey): State
    requires lease in s.attempts && s.attempts[lease].task != Idle
  {
    var path := TaskPath(s, lease);
    WithTask(s, lease, Idle).(rows := s.rows.(derivatives := s.rows.derivatives[key := path]),
                              intents := s.intents - {path})
  }

  ghost predicate PreviousRemembered(s: State, lease: Lease, key: DerivativeKey)
    requires lease in s.attempts && s.attempts[lease].task != Idle
  {
    key in s.rows.derivatives && s.rows.derivatives[key] != TaskPath(s, lease) ==>
      s.rows.derivatives[key] in s.intents && s.intents[s.rows.derivatives[key]].job == lease.job
  }

  lemma UpsertedTask(rows: Rows, key: DerivativeKey, path: Path, task: Task)
    requires RowPaths(rows) && path.DerivativePath?
    ensures NoWorse(rows, rows.(derivatives := rows.derivatives[key := path]), task)
  {
    if task != Idle && task.item.SourceItem? {
      UpsertReferences(rows, key, path, ItemPath(task.item));
    }
  }

  lemma UpsertedWork(s: State, lease: Lease, key: DerivativeKey)
    requires WorkSound(s) && RowPaths(s.rows)
    requires lease in s.attempts && s.attempts[lease].task != Idle && s.attempts[lease].task.item.DerivativeItem?
    ensures WorkSound(Upserted(s, lease, key))
    ensures forall l :: l in s.attempts ==>
      NoWorse(s.rows, Upserted(s, lease, key).rows, Upserted(s, lease, key).attempts[l].task)
  {
    var t := Upserted(s, lease, key);
    forall l | l in t.attempts
      ensures NoWorse(s.rows, t.rows, t.attempts[l].task)
    {
      UpsertedTask(s.rows, key, TaskPath(s, lease), t.attempts[l].task);
    }
    forall l | l != lease && InLease(s, l) && MayRemove(s.rows, s.attempts[l].task)
      ensures !Referenced(t.rows, TaskPath(s, l))
    {
      assert TaskSound(s.rows, s.attempts[l].task);
      UpsertReferences(s.rows, key, TaskPath(s, lease), TaskPath(s, l));
    }
    ReleaseWork(s, t, lease);
  }

  lemma UpsertedAttempts(s: State, lease: Lease, key: DerivativeKey)
    requires AttemptsCurrent(s) && Protected(s) && WorkSound(s) && RowPaths(s.rows)
    requires Concerned(s, lease) && s.attempts[lease].task.item.DerivativeItem?
    ensures var t := Upserted(s, lease, key); AttemptsCurrent(t) && Protected(t) && WorkSound(t)
  {
    UpsertedWork(s, lease, key);
    ReleaseAttempts(s, Upserted(s, lease, key), lease);
  }

  lemma UpsertedInv(s: State, lease: Lease, key: DerivativeKey)
    requires Inv(s) && Active(s, lease) && Concerned(s, lease) && s.attempts[lease].task.Unique?
    requires s.attempts[lease].task.item.DerivativeItem? && PreviousRemembered(s, lease, key)
    requires key.revision in s.rows.revisions
    ensures Inv(Upserted(s, lease, key))
  {
    assert MaySave(s, lease) && OnDisk(s, lease);
    UpsertedDisk(s.rows, s.intents, s.files, key, TaskPath(s, lease));
    UpsertedRowsSound(s.rows, key, TaskPath(s, lease));
    UpsertedAttempts(s, lease, key);
    UpsertedCleanups(s, lease, key);
  }

  lemma UpsertedRowsSound(rows: Rows, key: DerivativeKey, path: Path)
    requires RowsSound(rows) && path.DerivativePath? && key.revision in rows.revisions
    ensures RowsSound(rows.(derivatives := rows.derivatives[key := path]))
  {
  }

  lemma UpsertedCleanups(s: State, lease: Lease, key: DerivativeKey)
    requires AttemptsCurrent(s) && Protected(s) && CleanupsSound(s) && Active(s, lease) && Concerned(s, lease)
    requires PreviousRemembered(s, lease, key)
    ensures CleanupsSound(Upserted(s, lease, key))
  {
    UpsertedReferences(s, lease, key, TaskPath(s, lease));
    ReleaseCleanups(s, Upserted(s, lease, key), lease);
  }

  lemma UpsertedReferences(s: State, lease: Lease, key: DerivativeKey, path: Path)
    requires CleanupsSound(s) && Active(s, lease)
    requires key in s.rows.derivatives && s.rows.derivatives[key] != path ==>
      s.rows.derivatives[key] in s.intents && s.intents[s.rows.derivatives[key]].job == lease.job
    ensures forall c :: c in s.cleanups && s.cleanups[c].path != path ==>
      (Referenced(s.rows.(derivatives := s.rows.derivatives[key := path]), s.cleanups[c].path)
       <==> Referenced(s.rows, s.cleanups[c].path))
  {
    forall c | c in s.cleanups && s.cleanups[c].path != path
      ensures Referenced(s.rows.(derivatives := s.rows.derivatives[key := path]), s.cleanups[c].path)
              <==> Referenced(s.rows, s.cleanups[c].path)
    {
      LockedJobs(s, c);
      UpsertReferences(s.rows, key, path, s.cleanups[c].path);
    }
  }

  ghost predicate DerivativeReady(s: State, lease: Lease) {
    && lease in s.attempts && s.attempts[lease].task.Unique? && s.attempts[lease].task.item.DerivativeItem?
    && SaveDerivativeTx(s, lease, s.attempts[lease].task.item).Ok?
  }

  ghost function DerivativeSaved(s: State, lease: Lease): State
    requires DerivativeReady(s, lease)
  {
    SaveDerivativeTx(s, lease, s.attempts[lease].task.item).value
  }

  lemma SaveDerivativeCases(s: State, lease: Lease, complete: bool)
    ensures !DerivativeReady(s, lease) ==> SaveDerivativeStep(s, lease, complete) == s
    ensures DerivativeReady(s, lease) ==>
      var t := DerivativeSaved(s, lease);
      Active(t, lease) && t.attempts == s.attempts
      && SaveDerivativeStep(s, lease, complete) == AfterSave(t, lease, complete)
  {
  }

  lemma SavedDerivativeWorking(s: State, lease: Lease)
    requires AttemptsCurrent(s) && DerivativeReady(s, lease)
    ensures Active(s, lease) && Concerned(s, lease) && s.attempts[lease].task.item.key.revision in s.rows.revisions
  {
    assert Holds(s, lease);
  }

  /** The intents a derivative's save leaves before it releases its own. */
  function Remembering(s: State, lease: Lease): Result<State, DbError>
    requires lease in s.attempts && s.attempts[lease].task != Idle && s.attempts[lease].task.item.DerivativeItem?
  {
    if Replaces(s, lease) then RegisterIntent(s, lease.job, s.rows.derivatives[s.attempts[lease].task.item.key])
      else Ok(s)
  }

  /** The path a save replaces is taken over, if at all, from nobody who can still do harm. */
  ghost predicate ReplacedSpared(s: State, lease: Lease)
    requires lease in s.attempts && s.attempts[lease].task != Idle && s.attempts[lease].task.item.DerivativeItem?
  {
    Replaces(s, lease) ==> Spares(s, lease.job, s.rows.derivatives[s.attempts[lease].task.item.key])
  }

  lemma RememberedInv(s: State, lease: Lease)
    requires Inv(s) && Active(s, lease) && Concerned(s, lease)
    requires s.attempts[lease].task.Unique? && s.attempts[lease].task.item.DerivativeItem?
    requires s.attempts[lease].task.item.key.revision in s.rows.revisions
    requires ReplacedSpared(s, lease) && Remembering(s, lease).Ok?
    ensures Inv(Upserted(Remembering(s, lease).value, lease, s.attempts[lease].task.item.key))
  {
    var key := s.attempts[lease].task.item.key;
    if Replaces(s, lease) {
      RegisterIntentInv(s, lease, s.rows.derivatives[key]);
    }
    UpsertedInv(Remembering(s, lease).value, lease, key);
  }

  /** Saving a derivative is remembering the replaced path, then swapping the row and releasing the intent. */
  lemma DerivativeSavedUnfolds(s: State, lease: Lease)
    requires DerivativeReady(s, lease)
    ensures Remembering(s, lease).Ok?
    ensures WithTask(DerivativeSaved(s, lease), lease, Idle)
      == Upserted(Remembering(s, lease).value, lease, s.attempts[lease].task.item.key)
  {
  }

  lemma UpsertedIs(s: State, lease: Lease, t: State)
    requires Inv(s) && Active(s, lease) && Concerned(s, lease)
    requires s.attempts[lease].task.Unique? && s.attempts[lease].task.item.DerivativeItem?
    requires s.attempts[lease].task.item.key.revision in s.rows.revisions
    requires ReplacedSpared(s, lease) && Remembering(s, lease).Ok?
    requires t == Upserted(Remembering(s, lease).value, lease, s.attempts[lease].task.item.key)
    ensures Inv(t)
  {
    RememberedInv(s, lease);
  }

  lemma SaveDerivativeSpares(s: State, lease: Lease, complete: bool)
    requires AttemptsCurrent(s) && DerivativeReady(s, lease) && Sparing(s, SaveDerivative(lease, complete))
    ensures ReplacedSpared(s, lease)
  {
    SaveDerivativeCases(s, lease, complete);
    SavedDerivativeWorking(s, lease);
    AfterSaveMoves(DerivativeSaved(s, lease), lease, complete);
  }

  lemma AfterSaveMoves(s: State, lease: Lease, complete: bool)
    requires lease in s.attempts && lease.job in s.jobs && s.attempts[lease].task != Idle
    ensures lease in AfterSave(s, lease, complete).attempts ==>
      AfterSave(s, lease, complete).attempts[lease].task == Idle
  {
  }

  lemma SaveDerivativeInv(s: State, lease: Lease, complete: bool)
    requires Inv(s) && Sparing(s, SaveDerivative(lease, complete))
    ensures Inv(SaveDerivativeStep(s, lease, complete))
  {
    SaveDerivativeCases(s, lease, complete);
    if DerivativeReady(s, lease) {
      SaveDerivativeSpares(s, lease, complete);
      SavedDerivativeWorking(s, lease);
      DerivativeSavedUnfolds(s, lease);
      UpsertedIs(s, lease, WithTask(DerivativeSaved(s, lease), lease, Idle));
      AfterSaveInv(DerivativeSaved(s, lease), lease, complete);
    }
  }

  lemma AddPageInv(s: State, page: nat)
    requires Inv(s)
    ensures Inv(Apply(s, AddPage(page)))
  {
    if page !in s.rows.pages {
      AddPageAttempts(s, page);
      AddPageWork(s, page);
      AddPageCleanups(s, page);
      AddPageUnique(s.rows, page);
      AddPageNeighbours(s.rows, s.files, page);
      AddPageCurrent(s.rows, page);
      AddPageCovered(s.rows, s.intents, s.files, page);
    }
  }

  lemma AddPageTask(rows: Rows, page: nat, task: Task)
    requires page !in rows.pages && CurrentIsLast(rows) && TaskSound(rows, task)
    ensures NoWorse(rows, rows.(pages := rows.pages[page := None]), task)
    ensures TaskSound(rows.(pages := rows.pages[page := None]), task)
  {
    if task != Idle && task.item.SourceItem? && task.item.current.Some? {
      assert NumberedUpTo(rows, task.item.current.value);
    }
  }

  lemma AddPageAttempts(s: State, page: nat)
    requires AttemptsCurrent(s) && Protected(s) && TasksSound(s) && CurrentIsLast(s.rows) && page !in s.rows.pages
    ensures AttemptsCurrent(Apply(s, AddPage(page))) && Protected(Apply(s, AddPage(page)))
  {
    var t := Apply(s, AddPage(page));
    forall l | Concerned(t, l)
      ensures OwnsIntent(t, l)
    {
      assert TaskSound(s.rows, s.attempts[l].task);
      AddPageTask(s.rows, page, s.attempts[l].task);
      assert Concerned(s, l) && OwnsIntent(s, l);
    }
  }

  lemma AddPageWork(s: State, page: nat)
    requires WorkSound(s) && CurrentIsLast(s.rows) && page !in s.rows.pages
    ensures WorkSound(Apply(s, AddPage(page)))
  {
    var t := Apply(s, AddPage(page));
    forall l | l in t.attempts
      ensures TaskSound(t.rows, t.attempts[l].task) && NoWorse(s.rows, t.rows, t.attempts[l].task)
    {
      assert TaskSound(s.rows, s.attempts[l].task);
      AddPageTask(s.rows, page, s.attempts[l].task);
    }
    forall l | InLease(t, l) && HasStored(t.attempts[l].task) && MaySave(t, l)
      ensures OnDisk(t, l)
    {
      assert NoWorse(s.rows, t.rows, t.attempts[l].task);
      assert InLease(s, l) && MaySave(s, l) && OnDisk(s, l);
    }
    forall l | InLease(t, l) && MayRemove(t.rows, t.attempts[l].task)
      ensures !Referenced(t.rows, TaskPath(t, l))
    {
      assert NoWorse(s.rows, t.rows, t.attempts[l].task);
      assert InLease(s, l);
    }
  }

  lemma AddPageCleanups(s: State, page: nat)
    requires CleanupsSound(s) && page !in s.rows.pages
    ensures CleanupsSound(Apply(s, AddPage(page)))
  {
  }

  lemma AddPageUnique(rows: Rows, page: nat)
    requires NumbersUnique(rows) && RowPaths(rows)
    ensures NumbersUnique(rows.(pages := rows.pages[page := None]))
      && RowPaths(rows.(pages := rows.pages[page := None]))
  {
  }

  lemma AddPageNeighbours(rows: Rows, files: map<Path, Digest>, page: nat)
    requires NeighboursDiffer(rows) && RowsHaveFiles(rows, files)
    ensures NeighboursDiffer(rows.(pages := rows.pages[page := None]))
    ensures RowsHaveFiles(rows.(pages := rows.pages[page := None]), files)
  {
  }

  lemma AddPageCurrent(rows: Rows, page: nat)
    requires CurrentIsLast(rows) && page !in rows.pages
    ensures CurrentIsLast(rows.(pages := rows.pages[page := None]))
  {
  }

  lemma AddPageCovered(rows: Rows, intents: map<Path, Intent>, files: map<Path, Digest>, page: nat)
    requires FilesCovered(rows, intents, files)
    ensures FilesCovered(rows.(pages := rows.pages[page := None]), intents, files)
  {
  }

  // ---------------------------------------------------------------- the cleaner

  lemma CleanLockInv(s: State, c: nat, path: Path)
    requires Inv(s)
    ensures Inv(CleanLockStep(s, c, path))
  {
    var t := CleanLockStep(s, c, path);
    if t != s {
      AttemptsFrame(s, t);
      WorkFrame(s, t);
      CleanLockCleanups(s, c, path);
    }
  }

  lemma CleanLockCleanups(s: State, c: nat, path: Path)
    requires CleanupsSound(s)
    ensures CleanupsSound(CleanLockStep(s, c, path))
  {
  }

  lemma DropCleanupInv(s: State, c: nat)
    requires Inv(s)
    ensures Inv(s.(cleanups := s.cleanups - {c}))
  {
    var t := s.(cleanups := s.cleanups - {c});
    AttemptsFrame(s, t);
    WorkFrame(s, t);
    forall d | d in t.cleanups
      ensures CleanupSound(t, d)
    {
      assert CleanupSound(s, d);
    }
  }

  lemma CleanRemoveInv(s: State, c: nat)
    requires Inv(s)
    ensures Inv(CleanRemoveStep(s, c))
  {
    if c in s.cleanups && !s.cleanups[c].referenced {
      var path := s.cleanups[c].path;
      assert CleanupSound(s, c);
      forall l | Working(s, l) && MaySave(s, l)
        ensures TaskPath(s, l) != path
      {
        assert Concerned(s, l);
        NoCleaner(s, l, c);
      }
      RemoveFileInv(s, path);
      RemovedInv(s.(files := s.files - {path}), c);
      assert CleanRemoveStep(s, c) ==
        s.(files := s.files - {path}).(cleanups := s.cleanups[c := s.cleanups[c].(removed := true)]);
    }
  }

  lemma RemovedInv(s: State, c: nat)
    requires Inv(s) && c in s.cleanups && !s.cleanups[c].referenced && s.cleanups[c].path !in s.files
    ensures Inv(s.(cleanups := s.cleanups[c := s.cleanups[c].(removed := true)]))
  {
    var t := s.(cleanups := s.cleanups[c := s.cleanups[c].(removed := true)]);
    AttemptsFrame(s, t);
    WorkFrame(s, t);
    forall d | d in t.cleanups
      ensures CleanupSound(t, d)
    {
      assert CleanupSound(s, d);
    }
  }

  lemma CleanCommitInv(s: State, c: nat)
    requires Inv(s)
    ensures Inv(CleanCommitStep(s, c))
  {
    var t := CleanCommitStep(s, c);
    if t != s {
      CleanCommitAttempts(s, c);
      WorkFrame(s, t);
      CleanCommitRest(s, c);
    }
  }

  lemma CleanCommitAttempts(s: State, c: nat)
    requires AttemptsCurrent(s) && Protected(s) && CleanupsSound(s) && CleanCommitStep(s, c) != s
    ensures AttemptsCurrent(CleanCommitStep(s, c)) && Protected(CleanCommitStep(s, c))
  {
    var t := CleanCommitStep(s, c);
    assert forall l :: InLease(t, l) <==> InLease(s, l);
    forall l | Concerned(t, l)
      ensures OwnsIntent(t, l)
    {
      assert Concerned(s, l) && OwnsIntent(s, l);
      NoCleaner(s, l, c);
    }
  }

  lemma CleanCommitRest(s: State, c: nat)
    requires CleanupsSound(s) && FilesCovered(s.rows, s.intents, s.files) && CleanCommitStep(s, c) != s
    ensures CleanupsSound(CleanCommitStep(s, c))
    ensures FilesCovered(s.rows, CleanCommitStep(s, c).intents, s.files)
  {
  }
}

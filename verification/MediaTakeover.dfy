/**
 * Which takeovers of an intent are safe. A takeover that displaces a cancelled attempt which can still
 * do harm lets the protocol end with a file nobody remembers or with a row whose file is gone, even if
 * no later takeover is of that kind; every other takeover is safe.
 */
module MediaTakeover {
  import opened Results
  import opened MediaModel
  import opened MediaInvariant
  import opened MediaSteps
  import opened MediaLocks
  import opened MediaTheorems

  // ---------------------------------------------------------------- runs

  ghost predicate Leads(s: State, later: seq<Action>, t: State) {
    SparingRun(s, later) && Exec(s, later) == t
  }

  lemma {:induction false} LeadsJoin(s: State, first: seq<Action>, t: State, second: seq<Action>, u: State)
    requires Leads(s, first, t) && Leads(t, second, u)
    ensures Leads(s, first + second, u)
    decreases |first|
  {
    if first == [] {
      assert first + second == second;
    } else {
      assert (first + second)[0] == first[0] && (first + second)[1..] == first[1..] + second;
      LeadsJoin(Apply(s, first[0]), first[1..], t, second, u);
    }
  }

  lemma LeadsOne(s: State, a: Action)
    requires Sparing(s, a)
    ensures Leads(s, [a], Apply(s, a))
  {
    assert [a][1..] == [];
    assert SparingRun(Apply(s, a), []) && Exec(Apply(s, a), []) == Apply(s, a);
  }

  lemma LeadsOn(s: State, later: seq<Action>, t: State, a: Action)
    requires Leads(s, later, t) && Sparing(t, a)
    ensures Leads(s, later + [a], Apply(t, a))
  {
    LeadsOne(t, a);
    LeadsJoin(s, later, t, [a], Apply(t, a));
  }

  lemma LeadsNowhere(s: State)
    ensures Leads(s, [], s)
  {
  }

  /** An index not in use. */
  lemma {:induction false} Unused(used: set<nat>) returns (n: nat)
    ensures n !in used && forall m :: m in used ==> m < n
    decreases |used|
  {
    if used == {} {
      n := 0;
    } else {
      var m :| m in used;
      var k := Unused(used - {m});
      n := if k > m then k else m + 1;
      forall i | i in used
        ensures i < n
      {
        assert i == m || i in used - {m};
      }
    }
  }

  // ---------------------------------------------------------------- a worker for a new job

  const OWNER: nat := 0

  function Hired(j: nat): Lease {
    Lease(j, 2, OWNER)
  }

  function Hiring(j: nat): seq<Action> {
    [Enqueue(j), Claim(j, OWNER, 1)]
  }

  /** The state once a worker has claimed the new job. */
  function WithWorker(s: State, j: nat): State {
    s.(jobs := s.jobs[j := Job(Running, 2, OWNER, s.clock + 1)],
       attempts := s.attempts[Hired(j) := Attempt(s.clock + 1, Idle)])
  }

  lemma HireLeads(s: State, j: nat)
    requires j !in s.jobs
    ensures Leads(s, Hiring(j), WithWorker(s, j))
  {
    LeadsOne(s, Enqueue(j));
    var queued := Apply(s, Enqueue(j));
    LeadsOn(s, [Enqueue(j)], queued, Claim(j, OWNER, 1));
    assert queued.jobs[j := Job(Running, 2, OWNER, s.clock + 1)] == WithWorker(s, j).jobs;
    assert [Enqueue(j)] + [Claim(j, OWNER, 1)] == Hiring(j);
  }

  // ---------------------------------------------------------------- a file nobody remembers

  /** A pass, then the write of a displaced worker. */
  function LeakRun(c: nat, path: Path, victim: Lease): seq<Action> {
    CleaningPass(c, path) + [Write(victim, 0)]
  }

  lemma PassLeads(s: State, c: nat, path: Path)
    requires Sweepable(s, c, path)
    ensures Leads(s, CleaningPass(c, path), s.(intents := s.intents - {path}, files := Swept(s, path)))
  {
    PassCleans(s, c, path);
    var a, b, d := CleanLock(c, path), CleanRemove(c), CleanCommit(c);
    LeadsOne(s, a);
    LeadsOn(s, [a], Apply(s, a), b);
    LeadsOn(s, [a] + [b], Apply(Apply(s, a), b), d);
    assert [a] + [b] + [d] == CleaningPass(c, path);
  }

  /** The path is swept and then written again by a worker that no longer owns its intent. */
  lemma WriterLeaks(s: State, c: nat, victim: Lease)
    requires Working(s, victim) && s.attempts[victim].task.Registered?
    requires Sweepable(s, c, TaskPath(s, victim)) && !Referenced(s.rows, TaskPath(s, victim))
    ensures var later := LeakRun(c, TaskPath(s, victim), victim); var t := Exec(s, later);
      && SparingRun(s, later)
      && TaskPath(s, victim) in t.files && TaskPath(s, victim) !in t.intents && !Referenced(t.rows, TaskPath(s, victim))
  {
    var path := TaskPath(s, victim);
    var swept := s.(intents := s.intents - {path}, files := Swept(s, path));
    PassLeads(s, c, path);
    assert InLease(swept, victim);
    LeadsOn(s, CleaningPass(c, path), swept, Write(victim, 0));
  }

  // ---------------------------------------------------------------- a row whose file is gone

  /** What a new worker does with an item whose path is free, up to its row. */
  function SavingRun(j: nat, item: Item, digest: Digest, revision: nat): seq<Action> {
    [Register(Hired(j), item), Write(Hired(j), digest), Judge(Hired(j)), SaveSource(Hired(j), revision, false)]
  }

  ghost predicate ReadyToSave(s: State, j: nat, item: Item, digest: Digest, revision: nat) {
    && Hired(j) in s.attempts && s.attempts[Hired(j)] == Attempt(s.clock + 1, Idle)
    && j in s.jobs && s.jobs[j] == Job(Running, 2, OWNER, s.clock + 1)
    && item.SourceItem? && Planned(s.rows, item) && item.page in s.rows.pages && s.rows.pages[item.page] == item.current
    && item.current.Some? && s.rows.revisions[item.current.value].sha != digest
    && ItemPath(item) !in s.files && ItemPath(item) !in s.intents
    && revision !in s.rows.revisions && !NumberTaken(s.rows, item.page, item.number)
  }

  function SavedRow(item: Item, digest: Digest): Revision
    requires item.SourceItem?
  {
    Revision(item.page, item.number, ItemPath(item), digest)
  }

  lemma RegisterFree(s: State, h: Lease, item: Item)
    requires InLease(s, h) && Active(s, h) && s.attempts[h].task == Idle && Planned(s.rows, item)
    requires ItemPath(item) !in s.intents
    ensures Sparing(s, Register(h, item))
    ensures Apply(s, Register(h, item))
      == s.(intents := s.intents[ItemPath(item) := Intent(h.job, s.clock)],
            attempts := s.attempts[h := s.attempts[h].(task := Registered(item))])
  {
  }

  lemma WriteFree(s: State, h: Lease, digest: Digest)
    requires InLease(s, h) && s.attempts[h].task.Registered? && TaskPath(s, h) !in s.files
    ensures Apply(s, Write(h, digest))
      == s.(files := s.files[TaskPath(s, h) := digest],
            attempts := s.attempts[h := s.attempts[h].(task := Stored(s.attempts[h].task.item, digest))])
  {
  }

  lemma JudgeUnique(s: State, h: Lease)
    requires InLease(s, h) && s.attempts[h].task.Stored?
    requires var task := s.attempts[h].task;
      task.item.SourceItem? && task.item.current.Some? && task.item.current.value in s.rows.revisions
      ==> s.rows.revisions[task.item.current.value].sha != task.digest
    ensures Apply(s, Judge(h))
      == s.(attempts :=
              s.attempts[h := s.attempts[h].(task := Unique(s.attempts[h].task.item, s.attempts[h].task.digest))])
  {
  }

  lemma SaveUnique(s: State, h: Lease, revision: nat)
    requires InLease(s, h) && Active(s, h) && s.attempts[h].task.Unique? && s.attempts[h].task.item.SourceItem?
    requires var item := s.attempts[h].task.item;
      && item.page in s.rows.pages && s.rows.pages[item.page] == item.current
      && revision !in s.rows.revisions && !NumberTaken(s.rows, item.page, item.number)
      && ItemPath(item) in s.intents && s.intents[ItemPath(item)].job == h.job
    ensures Apply(s, SaveSource(h, revision, false)) == SourceAfter(s, h, revision)
  {
  }

  lemma SavingLeads(s: State, j: nat, item: Item, digest: Digest, revision: nat)
    requires ReadyToSave(s, j, item, digest, revision)
    ensures Leads(s, SavingRun(j, item, digest, revision),
      s.(rows := InsertRevision(s.rows, revision, SavedRow(item, digest)), files := s.files[ItemPath(item) := digest]))
  {
    var h, path := Hired(j), ItemPath(item);
    RegisterFree(s, h, item);
    var a := Apply(s, Register(h, item));
    LeadsOne(s, Register(h, item));
    WriteFree(a, h, digest);
    var b := Apply(a, Write(h, digest));
    LeadsOn(s, [Register(h, item)], a, Write(h, digest));
    JudgeUnique(b, h);
    var d := Apply(b, Judge(h));
    LeadsOn(s, [Register(h, item)] + [Write(h, digest)], b, Judge(h));
    SaveUnique(d, h, revision);
    LeadsOn(s, [Register(h, item)] + [Write(h, digest)] + [Judge(h)], d, SaveSource(h, revision, false));
    SavedState(s, d, h, item, digest, revision);
    assert [Register(h, item)] + [Write(h, digest)] + [Judge(h)] + [SaveSource(h, revision, false)]
        == SavingRun(j, item, digest, revision);
  }

  lemma SavedState(s: State, d: State, h: Lease, item: Item, digest: Digest, revision: nat)
    requires item.SourceItem? && h in s.attempts && s.attempts[h].task == Idle && ItemPath(item) !in s.intents
    requires d == s.(files := s.files[ItemPath(item) := digest],
                     intents := s.intents[ItemPath(item) := Intent(h.job, s.clock)],
                     attempts := s.attempts[h := s.attempts[h].(task := Unique(item, digest))])
    ensures SourceAfter(d, h, revision)
      == s.(rows := InsertRevision(s.rows, revision, SavedRow(item, digest)),
           files := s.files[ItemPath(item) := digest])
  {
    assert d.attempts[h := s.attempts[h]] == s.attempts;
    assert d.intents - {ItemPath(item)} == s.intents;
  }

  /** A displaced attempt recognises its copy as redundant, if it has not yet, and removes it. */
  function RemovingRun(victim: Lease): seq<Action> {
    [Judge(victim), RemoveRedundant(victim)]
  }

  lemma RemoverTakesFile(s: State, victim: Lease)
    requires Working(s, victim) && MayRemove(s.rows, s.attempts[victim].task)
    requires var task := s.attempts[victim].task;
      task.Stored? ==> s.rows.revisions[task.item.current.value].path in s.files
    ensures SparingRun(s, RemovingRun(victim))
    ensures Exec(s, RemovingRun(victim)).files == s.files - {TaskPath(s, victim)}
    ensures Exec(s, RemovingRun(victim)).rows == s.rows
  {
    var judged := Apply(s, Judge(victim));
    LeadsOne(s, Judge(victim));
    LeadsOn(s, [Judge(victim)], judged, RemoveRedundant(victim));
    assert [Judge(victim)] + [RemoveRedundant(victim)] == RemovingRun(victim);
    assert InLease(judged, victim) && judged.attempts[victim].task.Redundant?;
  }

  /** A pass, the save of a new revision by a new worker, then the removal by the displaced attempt. */
  function LossRun(c: nat, item: Item, j: nat, digest: Digest, revision: nat, victim: Lease): seq<Action> {
    CleaningPass(c, ItemPath(item)) + Hiring(j) + SavingRun(j, item, digest, revision) + RemovingRun(victim)
  }

  /** What the displaced holder of a copy needs for its removal to hit a row. */
  ghost predicate Loss(s: State, c: nat, j: nat, digest: Digest, revision: nat, victim: Lease) {
    && Working(s, victim) && MayRemove(s.rows, s.attempts[victim].task)
    && TaskSound(s.rows, s.attempts[victim].task) && !Overtaken(s.rows, s.attempts[victim].task.item)
    && RowsSound(s.rows) && RowsHaveFiles(s.rows, s.files)
    && Sweepable(s, c, TaskPath(s, victim)) && !Referenced(s.rows, TaskPath(s, victim))
    && j !in s.jobs && victim.job != j && revision !in s.rows.revisions && digest != s.attempts[victim].task.digest
  }

  lemma LossReady(s: State, c: nat, j: nat, digest: Digest, revision: nat, victim: Lease)
    requires Loss(s, c, j, digest, revision, victim)
    ensures var item := s.attempts[victim].task.item; var path := ItemPath(item);
      ReadyToSave(WithWorker(s.(intents := s.intents - {path}, files := Swept(s, path)), j), j, item, digest, revision)
  {
    var item := s.attempts[victim].task.item;
    assert NumberedUpTo(s.rows, item.current.value);
    assert forall id :: id in s.rows.revisions ==> NumberedUpTo(s.rows, id);
  }

  /** The state in which the path has a row again, and a file of the new worker's. */
  function Resaved(s: State, j: nat, digest: Digest, revision: nat, victim: Lease): State
    requires victim in s.attempts && s.attempts[victim].task != Idle && s.attempts[victim].task.item.SourceItem?
  {
    var item := s.attempts[victim].task.item;
    var path := ItemPath(item);
    WithWorker(s, j).(intents := s.intents - {path},
                      rows := InsertRevision(s.rows, revision, SavedRow(item, digest)),
                      files := Swept(s, path)[path := digest])
  }

  lemma LossSaves(s: State, c: nat, j: nat, digest: Digest, revision: nat, victim: Lease)
    requires Loss(s, c, j, digest, revision, victim)
    ensures var item := s.attempts[victim].task.item;
      Leads(s, CleaningPass(c, ItemPath(item)) + Hiring(j) + SavingRun(j, item, digest, revision),
            Resaved(s, j, digest, revision, victim))
  {
    var item := s.attempts[victim].task.item;
    var path := ItemPath(item);
    LossReady(s, c, j, digest, revision, victim);
    SweptAndSaved(s, c, j, item, digest, revision);
  }

  lemma SweptAndSaved(s: State, c: nat, j: nat, item: Item, digest: Digest, revision: nat)
    requires Sweepable(s, c, ItemPath(item)) && j !in s.jobs
    requires var path := ItemPath(item);
      ReadyToSave(WithWorker(s.(intents := s.intents - {path}, files := Swept(s, path)), j), j, item, digest, revision)
    ensures Leads(s, CleaningPass(c, ItemPath(item)) + Hiring(j) + SavingRun(j, item, digest, revision),
      WithWorker(s, j).(intents := s.intents - {ItemPath(item)},
                        rows := InsertRevision(s.rows, revision, SavedRow(item, digest)),
                        files := Swept(s, ItemPath(item))[ItemPath(item) := digest]))
  {
    var path := ItemPath(item);
    var swept := s.(intents := s.intents - {path}, files := Swept(s, path));
    var manned := WithWorker(swept, j);
    PassLeads(s, c, path);
    HireLeads(swept, j);
    LeadsJoin(s, CleaningPass(c, path), swept, Hiring(j), manned);
    SavingLeads(manned, j, item, digest, revision);
    LeadsJoin(s, CleaningPass(c, path) + Hiring(j), manned, SavingRun(j, item, digest, revision),
      manned.(rows := InsertRevision(s.rows, revision, SavedRow(item, digest)), files := manned.files[path := digest]));
  }

  lemma RemoverLosesRow(s: State, c: nat, j: nat, digest: Digest, revision: nat, victim: Lease)
    requires Loss(s, c, j, digest, revision, victim)
    ensures var item := s.attempts[victim].task.item;
      var later := LossRun(c, item, j, digest, revision, victim); var t := Exec(s, later);
      && SparingRun(s, later)
      && revision in t.rows.revisions && t.rows.revisions[revision].path == ItemPath(item) && ItemPath(item) !in t.files
  {
    var item, saved := s.attempts[victim].task.item, Resaved(s, j, digest, revision, victim);
    LossSaves(s, c, j, digest, revision, victim);
    VictimStillHolds(s, saved, j, revision, SavedRow(item, digest), victim);
    RemoverTakesFile(saved, victim);
    LeadsJoin(s, CleaningPass(c, ItemPath(item)) + Hiring(j) + SavingRun(j, item, digest, revision), saved,
              RemovingRun(victim), Exec(saved, RemovingRun(victim)));
  }

  lemma VictimStillHolds(s: State, t: State, j: nat, revision: nat, row: Revision, victim: Lease)
    requires Working(s, victim) && MayRemove(s.rows, s.attempts[victim].task)
      && TaskSound(s.rows, s.attempts[victim].task)
    requires RowsSound(s.rows) && RowsHaveFiles(s.rows, s.files) && victim.job != j && revision !in s.rows.revisions
    requires t.rows == InsertRevision(s.rows, revision, row) && t.clock == s.clock
    requires t.attempts == s.attempts[Hired(j) := Attempt(s.clock + 1, Idle)]
    requires forall p :: p in s.files && p != TaskPath(s, victim) ==> p in t.files
    ensures Working(t, victim) && TaskPath(t, victim) == TaskPath(s, victim)
    ensures MayRemove(t.rows, t.attempts[victim].task)
    ensures var task := t.attempts[victim].task;
      task.Stored? ==> t.rows.revisions[task.item.current.value].path in t.files
  {
    var task := s.attempts[victim].task;
    assert t.attempts[victim] == s.attempts[victim];
    var current := task.item.current.value;
    assert s.rows.revisions[current].path.number != task.item.number;
  }

  // ---------------------------------------------------------------- making a derivative's path unreferenced

  ghost predicate Manned(s: State, j: nat) {
    && Hired(j) in s.attempts && s.attempts[Hired(j)] == Attempt(s.clock + 1, Idle)
    && j in s.jobs && s.jobs[j] == Job(Running, 2, OWNER, s.clock + 1)
  }

  /** What a new worker does to give a derivative another file. */
  function RepointRun(j: nat, item: Item): seq<Action> {
    [Register(Hired(j), item), Write(Hired(j), 0), Judge(Hired(j)), SaveDerivative(Hired(j), false)]
  }

  /** The worker's job owns the path's intent, or may take it over from an owner that is done. */
  ghost predicate MayRemember(s: State, j: nat, path: Path) {
    && path in s.intents && !IntentLocked(s, path) && s.intents[path].job in s.jobs
    && (s.intents[path].job == j || Terminal(s.jobs[s.intents[path].job]))
    && Spares(s, j, path)
  }

  function Repointed(s: State, j: nat, path: Path, key: DerivativeKey, name: nat): State {
    s.(rows := s.rows.(derivatives := s.rows.derivatives[key := DerivativePath(name)]),
       files := s.files[DerivativePath(name) := 0],
       intents := s.intents[path := Intent(j, s.clock)])
  }

  lemma SaveReplacing(s: State, h: Lease, path: Path)
    requires InLease(s, h) && Active(s, h) && s.attempts[h].task.Unique? && s.attempts[h].task.item.DerivativeItem?
    requires var item := s.attempts[h].task.item;
      && item.key.revision in s.rows.revisions
      && item.key in s.rows.derivatives && s.rows.derivatives[item.key] == path && path != ItemPath(item)
      && ItemPath(item) in s.intents && s.intents[ItemPath(item)].job == h.job
    requires MayRemember(s, h.job, path)
    ensures Sparing(s, SaveDerivative(h, false))
    ensures Apply(s, SaveDerivative(h, false))
      == WithTask(s, h, Idle).(
           rows := s.rows.(derivatives := s.rows.derivatives[s.attempts[h].task.item.key := TaskPath(s, h)]),
           intents := s.intents[path := Intent(h.job, s.clock)] - {TaskPath(s, h)})
  {
  }

  lemma RepointLeads(s: State, j: nat, path: Path, key: DerivativeKey, name: nat)
    requires Manned(s, j) && MayRemember(s, j, path)
    requires key in s.rows.derivatives && s.rows.derivatives[key] == path && key.revision in s.rows.revisions
    requires DerivativePath(name) !in s.files && DerivativePath(name) !in s.intents && DerivativePath(name) != path
    ensures Leads(s, RepointRun(j, DerivativeItem(key, name)), Repointed(s, j, path, key, name))
  {
    var h, item := Hired(j), DerivativeItem(key, name);
    RegisterFree(s, h, item);
    var a := Apply(s, Register(h, item));
    LeadsOne(s, Register(h, item));
    WriteFree(a, h, 0);
    var b := Apply(a, Write(h, 0));
    LeadsOn(s, [Register(h, item)], a, Write(h, 0));
    JudgeUnique(b, h);
    var d := Apply(b, Judge(h));
    LeadsOn(s, [Register(h, item)] + [Write(h, 0)], b, Judge(h));
    StillMayRemember(s, d, j, path, item);
    SaveReplacing(d, h, path);
    LeadsOn(s, [Register(h, item)] + [Write(h, 0)] + [Judge(h)], d, SaveDerivative(h, false));
    RepointedState(s, d, j, path, item);
    assert [Register(h, item)] + [Write(h, 0)] + [Judge(h)] + [SaveDerivative(h, false)] == RepointRun(j, item);
  }

  lemma StillMayRemember(s: State, d: State, j: nat, path: Path, item: Item)
    requires Manned(s, j) && MayRemember(s, j, path) && ItemPath(item) != path
    requires d == s.(files := d.files, intents := s.intents[ItemPath(item) := Intent(j, s.clock)],
                     attempts := s.attempts[Hired(j) := Attempt(s.clock + 1, Unique(item, 0))])
    ensures MayRemember(d, j, path)
  {
    assert forall l :: Working(d, l) && TaskPath(d, l) == path ==> Working(s, l) && TaskPath(s, l) == path;
  }

  lemma RepointedState(s: State, d: State, j: nat, path: Path, item: Item)
    requires Manned(s, j) && item.DerivativeItem? && ItemPath(item) != path && ItemPath(item) !in s.intents
    requires d == s.(files := s.files[ItemPath(item) := 0], intents := s.intents[ItemPath(item) := Intent(j, s.clock)],
                     attempts := s.attempts[Hired(j) := Attempt(s.clock + 1, Unique(item, 0))])
    ensures WithTask(d, Hired(j), Idle).(
              rows := d.rows.(derivatives := d.rows.derivatives[item.key := TaskPath(d, Hired(j))]),
              intents := d.intents[path := Intent(j, d.clock)] - {TaskPath(d, Hired(j))})
      == Repointed(s, j, path, item.key, item.name)
  {
    assert d.attempts[Hired(j) := Attempt(s.clock + 1, Idle)] == s.attempts;
    assert d.intents[path := Intent(j, s.clock)] - {ItemPath(item)} == s.intents[path := Intent(j, s.clock)];
  }

  function KeysAt(rows: Rows, path: Path): set<DerivativeKey> {
    set k | k in rows.derivatives && rows.derivatives[k] == path
  }

  /** One derivative after another is given a new file, until none has `path`. */
  lemma {:induction false} Unreference(s: State, j: nat, path: Path) returns (later: seq<Action>, t: State)
    requires Manned(s, j) && MayRemember(s, j, path) && KeysKnown(s.rows) && path.DerivativePath?
    ensures Leads(s, later, t) && KeysAt(t.rows, path) == {}
    ensures t == s.(rows := s.rows.(derivatives := t.rows.derivatives), files := t.files, intents := t.intents)
    ensures path in t.intents && t.intents == s.intents[path := t.intents[path]]
    ensures t.intents[path] == s.intents[path] || t.intents[path] == Intent(j, s.clock)
    decreases |KeysAt(s.rows, path)|
  {
    if KeysAt(s.rows, path) == {} {
      LeadsNowhere(s);
      later, t := [], s;
    } else {
      var key :| key in KeysAt(s.rows, path);
      var name := FreshName(s, path);
      var mid := Repointed(s, j, path, key, name);
      RepointLeads(s, j, path, key, name);
      assert KeysAt(mid.rows, path) == KeysAt(s.rows, path) - {key};
      var rest;
      rest, t := Unreference(mid, j, path);
      later := RepointRun(j, DerivativeItem(key, name)) + rest;
      LeadsJoin(s, RepointRun(j, DerivativeItem(key, name)), mid, rest, t);
    }
  }

  lemma FreshName(s: State, path: Path) returns (name: nat)
    ensures DerivativePath(name) !in s.files && DerivativePath(name) !in s.intents && DerivativePath(name) != path
  {
    name := Unused(set p | p in s.files.Keys + s.intents.Keys + {path} && p.DerivativePath? :: p.name);
  }

  // ---------------------------------------------------------------- a displaced attempt that can do harm

  /** The path's intent has passed to an owner that is done and due for cleaning, and nobody has locked it. */
  ghost predicate Doomed(s: State, victim: Lease) {
    && AttemptsCurrent(s) && LocksSound(s)
    && RowsSound(s.rows) && RowsHaveFiles(s.rows, s.files)
    && Working(s, victim) && TaskSound(s.rows, s.attempts[victim].task)
    && (MayRemove(s.rows, s.attempts[victim].task) ==> !Referenced(s.rows, TaskPath(s, victim)))
    && var path := TaskPath(s, victim);
       && Cleanable(s, path) && !IntentLocked(s, path) && !JobLocked(s, s.intents[path].job)
       && s.intents[path].job != victim.job && s.jobs[s.intents[path].job].state != Cancelled
  }

  lemma WriterFails(s: State, victim: Lease) returns (later: seq<Action>)
    requires Doomed(s, victim) && s.attempts[victim].task.Registered? && !Referenced(s.rows, TaskPath(s, victim))
    ensures SparingRun(s, later) && !Consistent(Exec(s, later))
  {
    var c := Unused(s.cleanups.Keys);
    WriterLeaks(s, c, victim);
    later := LeakRun(c, TaskPath(s, victim), victim);
  }

  lemma RemoverFails(s: State, victim: Lease) returns (later: seq<Action>)
    requires Doomed(s, victim)
    requires MayRemove(s.rows, s.attempts[victim].task) && !Overtaken(s.rows, s.attempts[victim].task.item)
    ensures SparingRun(s, later) && !Consistent(Exec(s, later))
  {
    var c := Unused(s.cleanups.Keys);
    var j := Unused(s.jobs.Keys);
    var revision := Unused(s.rows.revisions.Keys);
    var digest := s.attempts[victim].task.digest + 1;
    RemoverLosesRow(s, c, j, digest, revision, victim);
    later := LossRun(c, s.attempts[victim].task.item, j, digest, revision, victim);
  }

  /** Nobody works inside a lease of a job that ended without being cancelled. */
  lemma DoneOwnersSpared(s: State, job: nat, path: Path)
    requires AttemptsCurrent(s) && path in s.intents && s.intents[path].job in s.jobs
    requires Terminal(s.jobs[s.intents[path].job]) && s.jobs[s.intents[path].job].state != Cancelled
    ensures Spares(s, job, path)
  {
  }

  lemma DerivativeWriterFails(s: State, victim: Lease) returns (later: seq<Action>)
    requires Doomed(s, victim) && s.attempts[victim].task.Registered? && s.attempts[victim].task.item.DerivativeItem?
    ensures SparingRun(s, later) && !Consistent(Exec(s, later))
  {
    var path := TaskPath(s, victim);
    var j := Unused(s.jobs.Keys);
    var manned := WithWorker(s, j);
    HireLeads(s, j);
    DoneOwnersSpared(s, j, path);
    MannedRemembers(s, j, path);
    var bare, t := Unreference(manned, j, path);
    LeadsJoin(s, Hiring(j), manned, bare, t);
    var finish := Finish(Hired(j), Failed(false));
    LeadsOn(s, Hiring(j) + bare, t, finish);
    var c := Unused(s.cleanups.Keys);
    var done := Apply(t, finish);
    FreedOfRows(t.rows, path);
    FinishedIsDue(s, t, j, victim, c);
    WriterLeaks(done, c, victim);
    later := Hiring(j) + bare + [finish] + LeakRun(c, path, victim);
    LeadsJoin(s, Hiring(j) + bare + [finish], done, LeakRun(c, path, victim), Exec(done, LeakRun(c, path, victim)));
  }

  lemma MannedRemembers(s: State, j: nat, path: Path)
    requires j !in s.jobs && path in s.intents && !IntentLocked(s, path) && s.intents[path].job in s.jobs
    requires Terminal(s.jobs[s.intents[path].job]) && Spares(s, j, path)
    ensures Manned(WithWorker(s, j), j) && MayRemember(WithWorker(s, j), j, path)
  {
    var t := WithWorker(s, j);
    assert forall l :: Working(t, l) ==> Working(s, l) && t.attempts[l] == s.attempts[l];
  }

  lemma FreedOfRows(rows: Rows, path: Path)
    requires forall id :: id in rows.revisions ==> rows.revisions[id].path.SourcePath?
    requires path.DerivativePath? && KeysAt(rows, path) == {}
    ensures !Referenced(rows, path)
  {
    assert forall k :: k in rows.derivatives ==> k !in KeysAt(rows, path);
  }

  lemma FinishedIsDue(s: State, t: State, j: nat, victim: Lease, c: nat)
    requires Doomed(s, victim) && j !in s.jobs && c !in s.cleanups && s.attempts[victim].task.Registered?
    requires var path := TaskPath(s, victim); var manned := WithWorker(s, j);
      && path in t.intents && t.intents == manned.intents[path := t.intents[path]]
      && (t.intents[path] == s.intents[path] || t.intents[path] == Intent(j, s.clock))
      && t == manned.(rows := t.rows, files := t.files, intents := t.intents)
    ensures var done := Apply(t, Finish(Hired(j), Failed(false)));
      && done.rows == t.rows
      && Working(done, victim) && done.attempts[victim] == s.attempts[victim]
      && Sweepable(done, c, TaskPath(s, victim))
  {
    var done := Apply(t, Finish(Hired(j), Failed(false)));
    assert Active(t, Hired(j));
    assert victim.job in s.jobs && victim != Hired(j);
    assert forall d :: d in s.cleanups ==> LockSound(s, d);
    assert !JobLocked(done, j);
  }

  lemma DoomedFails(s: State, victim: Lease) returns (later: seq<Action>)
    requires Doomed(s, victim) && CanHarm(s.rows, s.attempts[victim].task)
    ensures SparingRun(s, later) && !Consistent(Exec(s, later))
  {
    if !s.attempts[victim].task.Registered? {
      later := RemoverFails(s, victim);
    } else if s.attempts[victim].task.item.DerivativeItem? {
      later := DerivativeWriterFails(s, victim);
    } else {
      later := WriterFails(s, victim);
    }
  }

  // ---------------------------------------------------------------- from the takeover to the harm

  lemma InvLocks(s: State)
    requires Inv(s)
    ensures LocksSound(s)
  {
    forall c | c in s.cleanups
      ensures LockSound(s, c)
    {
      assert CleanupSound(s, c);
    }
  }

  /** The victim works on a path whose intent has just passed to `heir`. */
  ghost predicate Ousted(s: State, victim: Lease, heir: nat) {
    && Working(s, victim) && TaskSound(s.rows, s.attempts[victim].task)
    && (MayRemove(s.rows, s.attempts[victim].task) ==> !Referenced(s.rows, TaskPath(s, victim)))
    && TaskPath(s, victim) in s.intents && s.intents[TaskPath(s, victim)] == Intent(heir, s.clock)
    && !IntentLocked(s, TaskPath(s, victim)) && !JobLocked(s, heir) && heir != victim.job && heir in s.jobs
  }

  /** What a takeover leaves: the victim without its intent, and its path in the hands of a worker's job. */
  ghost predicate Dispossessed(s: State, victim: Lease, heir: nat) {
    && AttemptsCurrent(s) && LocksSound(s)
    && RowsSound(s.rows) && RowsHaveFiles(s.rows, s.files)
    && Ousted(s, victim, heir)
  }

  /** The end of the heir's job touches neither the victim nor the intent. */
  lemma EndOusts(s: State, heir: Lease, outcome: JobState, victim: Lease)
    requires Ousted(s, victim, heir.job) && Active(s, heir)
    ensures var t := EndJob(s, heir, outcome);
      && Ousted(t, victim, heir.job) && t.jobs[heir.job].state == outcome
      && t.rows == s.rows && t.files == s.files && t.attempts[victim] == s.attempts[victim]
  {
  }

  /** When the heir's job fails for good the path is due for cleaning. */
  lemma HeirFails(s: State, victim: Lease, heir: Lease)
    requires Dispossessed(s, victim, heir.job) && Active(s, heir)
    ensures var t := Apply(s, Finish(heir, Failed(false)));
      Doomed(t, victim) && t.rows == s.rows && t.attempts[victim] == s.attempts[victim]
  {
    var finish := Finish(heir, Failed(false));
    EndCurrent(s, heir, Failed(false));
    StepLocks(s, finish);
    EndOusts(s, heir, Failed(false), victim);
  }

  lemma DispossessedFails(s: State, victim: Lease, heir: Lease) returns (later: seq<Action>)
    requires Dispossessed(s, victim, heir.job) && CanHarm(s.rows, s.attempts[victim].task)
    requires Active(s, heir) || s.jobs[heir.job].state == Completed
    ensures SparingRun(s, later) && !Consistent(Exec(s, later))
  {
    if Active(s, heir) {
      var finish := Finish(heir, Failed(false));
      HeirFails(s, victim, heir);
      var rest := DoomedFails(Apply(s, finish), victim);
      LeadsOne(s, finish);
      LeadsJoin(s, [finish], Apply(s, finish), rest, Exec(Apply(s, finish), rest));
      later := [finish] + rest;
    } else {
      later := DoomedFails(s, victim);
    }
  }

  /** The owner that a takeover displaces, with work on the path that can still do harm. */
  ghost predicate Victim(s: State, path: Path, victim: Lease) {
    && Working(s, victim) && TaskPath(s, victim) == path && CanHarm(s.rows, s.attempts[victim].task)
    && path in s.intents && s.intents[path].job == victim.job
  }

  lemma VictimExists(s: State, job: nat, path: Path) returns (victim: Lease)
    requires !Spares(s, job, path)
    ensures Victim(s, path, victim) && victim.job != job
  {
    victim :| Working(s, victim) && TaskPath(s, victim) == path && victim.job == s.intents[path].job
      && CanHarm(s.rows, s.attempts[victim].task);
  }

  /** The heir is live, so no cleaner has its job; and the intent it got was not locked. */
  lemma TakenUnlocked(s: State, heir: Lease, path: Path)
    requires LocksSound(s) && Active(s, heir) && path in s.intents && RegisterIntent(s, heir.job, path).Ok?
    ensures !IntentLocked(s, path) && !JobLocked(s, heir.job)
  {
    forall c | c in s.cleanups
      ensures s.cleanups[c].job != heir.job
    {
      assert LockSound(s, c);
    }
  }

  lemma RegisterOusts(s: State, heir: Lease, item: Item, victim: Lease)
    requires WorkSound(s) && RegisterStep(s, heir, item) != s
    requires Victim(s, ItemPath(item), victim) && victim.job != heir.job
    requires !IntentLocked(s, ItemPath(item)) && !JobLocked(s, heir.job)
    ensures Ousted(RegisterStep(s, heir, item), victim, heir.job) && Active(RegisterStep(s, heir, item), heir)
    ensures RegisterStep(s, heir, item).attempts[victim] == s.attempts[victim]
  {
    assert TaskSound(s.rows, s.attempts[victim].task);
  }

  lemma RegisterCurrent(s: State, heir: Lease, item: Item)
    requires AttemptsCurrent(s)
    ensures AttemptsCurrent(RegisterStep(s, heir, item))
    ensures RegisterStep(s, heir, item).rows == s.rows && RegisterStep(s, heir, item).files == s.files
    ensures RegisterStep(s, heir, item) != s ==> Active(s, heir) && RegisterIntent(s, heir.job, ItemPath(item)).Ok?
  {
    assert forall l :: InLease(RegisterStep(s, heir, item), l) <==> InLease(s, l);
  }

  lemma RegisterDispossesses(s: State, heir: Lease, item: Item, victim: Lease)
    requires AttemptsCurrent(s) && LocksSound(s) && WorkSound(s) && RowsSound(s.rows) && RowsHaveFiles(s.rows, s.files)
    requires RegisterStep(s, heir, item) != s
    requires Victim(s, ItemPath(item), victim) && victim.job != heir.job
    ensures var t := RegisterStep(s, heir, item);
      Dispossessed(t, victim, heir.job) && Active(t, heir) && CanHarm(t.rows, t.attempts[victim].task)
  {
    RegisterCurrent(s, heir, item);
    TakenUnlocked(s, heir, ItemPath(item));
    RegisterOusts(s, heir, item, victim);
    RegisterStepLocks(s, heir, item);
  }

  /** The path that a derivative's save replaces. */
  function OldPath(s: State, heir: Lease): Path
    requires heir in s.attempts && s.attempts[heir].task != Idle && s.attempts[heir].task.item.DerivativeItem?
    requires Replaces(s, heir)
  {
    s.rows.derivatives[s.attempts[heir].task.item.key]
  }

  lemma SaverOnDisk(s: State, heir: Lease)
    requires AttemptsCurrent(s) && StoredOnDisk(s) && DerivativeReady(s, heir)
    ensures Active(s, heir) && OnDisk(s, heir) && s.attempts[heir].task.item.key.revision in s.rows.revisions
  {
    SavedDerivativeWorking(s, heir);
    assert MaySave(s, heir);
  }

  lemma UpsertedRows(s: State, heir: Lease)
    requires AttemptsCurrent(s) && StoredOnDisk(s) && RowsSound(s.rows) && RowsHaveFiles(s.rows, s.files)
    requires DerivativeReady(s, heir)
    ensures var rows := DerivativeSaved(s, heir).rows; RowsSound(rows) && RowsHaveFiles(rows, s.files)
  {
    var key, path := s.attempts[heir].task.item.key, TaskPath(s, heir);
    SavedDerivativeOwns(s, heir);
    SaverOnDisk(s, heir);
    UpsertedRowsSound(s.rows, key, path);
    UpsertedHaveFiles(s.rows, s.files, key, path);
  }

  lemma UpsertedHaveFiles(rows: Rows, files: map<Path, Digest>, key: DerivativeKey, path: Path)
    requires RowsHaveFiles(rows, files) && path in files
    ensures RowsHaveFiles(rows.(derivatives := rows.derivatives[key := path]), files)
  {
  }

  lemma SavedTables(s: State, heir: Lease)
    requires DerivativeReady(s, heir) && Replaces(s, heir)
    ensures var u := WithTask(DerivativeSaved(s, heir), heir, Idle);
      && RegisterIntent(s, heir.job, OldPath(s, heir)).Ok? && Active(s, heir) && Active(u, heir)
      && u.clock == s.clock && u.jobs == s.jobs && u.files == s.files && u.cleanups == s.cleanups
      && u.attempts == s.attempts[heir := s.attempts[heir].(task := Idle)]
      && OldPath(s, heir) in u.intents && u.intents[OldPath(s, heir)] == Intent(heir.job, s.clock)
  {
    DerivativeSavedUnfolds(s, heir);
  }

  lemma SaveOusts(s: State, heir: Lease, victim: Lease)
    requires RowPaths(s.rows) && TasksSound(s)
    requires DerivativeReady(s, heir) && Replaces(s, heir)
    requires Victim(s, OldPath(s, heir), victim) && victim.job != heir.job
    requires !IntentLocked(s, OldPath(s, heir)) && !JobLocked(s, heir.job)
    ensures var u := WithTask(DerivativeSaved(s, heir), heir, Idle);
      Ousted(u, victim, heir.job) && CanHarm(u.rows, u.attempts[victim].task)
  {
    SavedTables(s, heir);
    VictimWrites(s, heir, victim);
  }

  /** After the save, and before its job ends, the replaced path's former owner is dispossessed. */
  lemma SavedDispossesses(s: State, heir: Lease, victim: Lease)
    requires AttemptsCurrent(s) && LocksSound(s) && WorkSound(s) && RowsSound(s.rows) && RowsHaveFiles(s.rows, s.files)
    requires DerivativeReady(s, heir) && Replaces(s, heir)
    requires Victim(s, OldPath(s, heir), victim) && victim.job != heir.job
    ensures var u := WithTask(DerivativeSaved(s, heir), heir, Idle);
      Dispossessed(u, victim, heir.job) && Active(u, heir) && CanHarm(u.rows, u.attempts[victim].task)
  {
    var u := WithTask(DerivativeSaved(s, heir), heir, Idle);
    SavedTables(s, heir);
    SavedDerivativeLocks(s, heir);
    LocksBelowAttempts(DerivativeSaved(s, heir), u);
    UpsertedRows(s, heir);
    TakenUnlocked(s, heir, OldPath(s, heir));
    SaveOusts(s, heir, victim);
    IdleCurrent(s, u, heir);
  }

  lemma VictimWrites(s: State, heir: Lease, victim: Lease)
    requires RowPaths(s.rows) && TasksSound(s)
    requires heir in s.attempts && s.attempts[heir].task != Idle && s.attempts[heir].task.item.DerivativeItem?
    requires Replaces(s, heir) && Victim(s, OldPath(s, heir), victim)
    ensures s.attempts[victim].task.Registered? && s.attempts[victim].task.item.DerivativeItem?
  {
    assert TaskSound(s.rows, s.attempts[victim].task);
  }

  lemma IdleCurrent(s: State, u: State, heir: Lease)
    requires AttemptsCurrent(s) && heir in s.attempts
    requires u.jobs == s.jobs && u.clock == s.clock && u.attempts == s.attempts[heir := s.attempts[heir].(task := Idle)]
    ensures AttemptsCurrent(u)
  {
    assert forall l :: InLease(u, l) <==> InLease(s, l);
  }

  /** Nothing of that changes when the heir's job completes with the save. */
  lemma CompletedDispossesses(u: State, heir: Lease, victim: Lease)
    requires Dispossessed(u, victim, heir.job) && Active(u, heir)
    requires CanHarm(u.rows, u.attempts[victim].task)
    ensures var t := EndJob(u, heir, Completed);
      && Dispossessed(t, victim, heir.job) && t.jobs[heir.job].state == Completed
      && CanHarm(t.rows, t.attempts[victim].task)
  {
    EndCurrent(u, heir, Completed);
    StepLocks(u, Finish(heir, Completed));
    EndOusts(u, heir, Completed, victim);
  }

  lemma SaveFails(s: State, heir: Lease, complete: bool, victim: Lease) returns (later: seq<Action>)
    requires Inv(s) && DerivativeReady(s, heir) && Replaces(s, heir)
    requires Victim(s, OldPath(s, heir), victim) && victim.job != heir.job
    ensures var t := SaveDerivativeStep(s, heir, complete); SparingRun(t, later) && !Consistent(Exec(t, later))
  {
    SaveDispossesses(s, heir, complete, victim);
    later := DispossessedFails(SaveDerivativeStep(s, heir, complete), victim, heir);
  }

  lemma SaveDispossesses(s: State, heir: Lease, complete: bool, victim: Lease)
    requires Inv(s) && DerivativeReady(s, heir) && Replaces(s, heir)
    requires Victim(s, OldPath(s, heir), victim) && victim.job != heir.job
    ensures var t := SaveDerivativeStep(s, heir, complete);
      && Dispossessed(t, victim, heir.job) && CanHarm(t.rows, t.attempts[victim].task)
      && (Active(t, heir) || t.jobs[heir.job].state == Completed)
  {
    SaveDerivativeCases(s, heir, complete);
    InvLocks(s);
    SavedDispossesses(s, heir, victim);
    if complete {
      EndAfterIdle(DerivativeSaved(s, heir), heir);
      CompletedDispossesses(WithTask(DerivativeSaved(s, heir), heir, Idle), heir, victim);
    }
  }

  // ---------------------------------------------------------------- which takeovers are safe

  /** Whatever happens from here on, if nobody dangerous is displaced, rows and files stay consistent. */
  ghost predicate Safe(s: State) {
    forall later :: SparingRun(s, later) ==> Consistent(Exec(s, later))
  }

  lemma TakeoverHarms(s: State, a: Action) returns (later: seq<Action>)
    requires Inv(s) && !Sparing(s, a)
    ensures SparingRun(Apply(s, a), later) && !Consistent(Exec(Apply(s, a), later))
  {
    match a
    case Register(lease, item) =>
      var victim := VictimExists(s, lease.job, ItemPath(item));
      InvLocks(s);
      RegisterDispossesses(s, lease, item, victim);
      later := DispossessedFails(Apply(s, a), victim, lease);
    case SaveDerivative(lease, complete) =>
      SaveDerivativeCases(s, lease, complete);
      var victim := VictimExists(s, lease.job, OldPath(s, lease));
      later := SaveFails(s, lease, complete, victim);
  }

  lemma InvSafe(s: State)
    requires Inv(s)
    ensures Safe(s)
  {
    forall later | SparingRun(s, later)
      ensures Consistent(Exec(s, later))
    {
      ExecInv(s, later);
    }
  }

  /**
   * A step is safe exactly when it takes no intent over from an attempt that is still inside its lease
   * and about to write a derivative there, or a source that no row references, or to remove the copy of a
   * page's current revision.
   */
  lemma TakeoverIsSafe(s: State, a: Action)
    requires Inv(s)
    ensures Safe(Apply(s, a)) <==> Sparing(s, a)
  {
    if Sparing(s, a) {
      StepInv(s, a);
      InvSafe(Apply(s, a));
    } else {
      var later := TakeoverHarms(s, a);
    }
  }

  /** Every state on the way of a run is safe. */
  ghost predicate SafeThroughout(s: State, actions: seq<Action>)
    decreases |actions|
  {
    Safe(s) && (actions == [] || SafeThroughout(Apply(s, actions[0]), actions[1..]))
  }

  /** A whole run displaces nobody dangerous exactly when every state on its way is safe. */
  lemma {:induction false} RunIsSafe(s: State, actions: seq<Action>)
    requires Inv(s)
    ensures SparingRun(s, actions) <==> SafeThroughout(s, actions)
    decreases |actions|
  {
    InvSafe(s);
    if actions != [] {
      TakeoverIsSafe(s, actions[0]);
      if Sparing(s, actions[0]) {
        StepInv(s, actions[0]);
        RunIsSafe(Apply(s, actions[0]), actions[1..]);
      }
    }
  }
}

/**
 * The transactions of the media repository and the cleaner's loop as methods over mutable
 * tables. Each is proved against the transition it is in the protocol of MediaModel.
 */
module MediaTables {
  import opened Results
  import opened MediaModel

  /** The paths a cleaning pass over `listed` gets rid of, when the files in `stuck` cannot be removed. */
  function Cleaned(s: State, listed: seq<Path>, stuck: set<Path>): set<Path> {
    set p | p in listed && Cleanable(s, p) && (Referenced(s.rows, p) || p !in stuck)
  }

  class MediaRepository {
    var clock: int
    var jobs: map<nat, Job>
    var intents: map<Path, Intent>
    var rows: Rows
    var files: map<Path, Digest>

    constructor ()
      ensures Snapshot() == Start
    {
      clock, jobs, intents, rows, files := 0, map[], map[], Rows(map[], map[], map[]), map[];
    }

    /** The tables as a protocol state in which no other process is in the middle of anything. */
    function Snapshot(): State
      reads this
    {
      State(clock, jobs, intents, rows, files, map[], map[])
    }

    method RegisterArtifactIntent(lease: Lease, item: Item) returns (outcome: Result<(), DbError>)
      modifies this`intents
      ensures Snapshot() == Settle(old(Snapshot()), RegisterTx(old(Snapshot()), lease, item))
      ensures outcome.Ok? <==> RegisterTx(old(Snapshot()), lease, item).Ok?
      ensures outcome.Err? ==> RegisterTx(old(Snapshot()), lease, item) == Err(outcome.error)
    {
      if !Active(Snapshot(), lease) {
        return Err(LeaseConflict);
      }
      outcome := UpsertIntent(lease.job, ItemPath(item));
    }

    method UpsertIntent(job: nat, path: Path) returns (outcome: Result<(), DbError>)
      modifies this`intents
      ensures Snapshot() == Settle(old(Snapshot()), RegisterIntent(old(Snapshot()), job, path))
      ensures outcome.Ok? <==> RegisterIntent(old(Snapshot()), job, path).Ok?
      ensures outcome.Err? ==> RegisterIntent(old(Snapshot()), job, path) == Err(outcome.error)
    {
      if path in intents {
        var owner := intents[path].job;
        if owner != job && !(owner in jobs && Terminal(jobs[owner])) {
          return Err(RevisionConflict);
        }
      }
      intents := intents[path := Intent(job, clock)];
      return Ok(());
    }

    /** Inserts the page's next revision and releases its intent, or changes nothing. */
    method SaveSourceRevision(lease: Lease, item: Item, digest: Digest, revision: nat, complete: bool)
      returns (outcome: Result<nat, DbError>)
      requires item.SourceItem?
      modifies this`rows, this`intents, this`jobs
      ensures match SaveSourceTx(old(Snapshot()), lease, item, digest, revision)
              case Err(e) => outcome == Err(e) && Snapshot() == old(Snapshot())
              case Ok(t) => outcome == Ok(revision) && Snapshot() == if complete then EndJob(t, lease, Completed) else t
    {
      var path := ItemPath(item);
      if !Active(Snapshot(), lease) {
        return Err(LeaseConflict);
      }
      if item.page !in rows.pages {
        return Err(NotFound);
      }
      if rows.pages[item.page] != item.current {
        return Err(RevisionConflict);
      }
      if revision in rows.revisions || NumberTaken(rows, item.page, item.number) {
        return Err(Constraint);
      }
      if path !in intents || intents[path].job != lease.job {
        return Err(InvalidValue);
      }
      rows := rows.(revisions := rows.revisions[revision := Revision(item.page, item.number, path, digest)]);
      rows := rows.(pages := rows.pages[item.page := Some(revision)]);
      intents := intents - {path};
      if complete {
        CompleteJob(lease);
      }
      return Ok(revision);
    }

    method CompleteJob(lease: Lease)
      requires Active(Snapshot(), lease)
      modifies this`jobs
      ensures Snapshot() == EndJob(old(Snapshot()), lease, Completed)
    {
      var job := jobs[lease.job];
      jobs := jobs[lease.job := job.(state := Completed, revision := job.revision + 1)];
      assert Snapshot().attempts - {lease} == map[];
    }

    /** Points the derivative row at its new file; the file it pointed at before becomes this job's to clean up. */
    method SaveDerivative(lease: Lease, item: Item, complete: bool) returns (outcome: Result<(), DbError>)
      requires item.DerivativeItem?
      modifies this`rows, this`intents, this`jobs
      ensures match SaveDerivativeTx(old(Snapshot()), lease, item)
              case Err(e) => outcome == Err(e) && Snapshot() == old(Snapshot())
              case Ok(t) => outcome == Ok(()) && Snapshot() == if complete then EndJob(t, lease, Completed) else t
    {
      var path := ItemPath(item);
      if !Active(Snapshot(), lease) {
        return Err(LeaseConflict);
      }
      if item.key.revision !in rows.revisions {
        return Err(Constraint);
      }
      var rowsBefore, intentsBefore := rows, intents;
      var replaced := if item.key in rows.derivatives then Some(rows.derivatives[item.key]) else None;
      rows := rows.(derivatives := rows.derivatives[item.key := path]);
      if replaced.Some? && replaced.value != path {
        var registered := UpsertIntent(lease.job, replaced.value);
        if registered.Err? {
          rows, intents := rowsBefore, intentsBefore;
          return Err(registered.error);
        }
      }
      if path !in intents || intents[path].job != lease.job {
        rows, intents := rowsBefore, intentsBefore;
        return Err(InvalidValue);
      }
      intents := intents - {path};
      if complete {
        CompleteJob(lease);
      }
      return Ok(());
    }

    /**
     * Goes through the listed intents: one that is no longer due is skipped, one whose file
     * cannot be removed stays, every other is deleted together with its unreferenced file.
     */
    method CleanupTerminal(listed: seq<Path>, stuck: set<Path>) returns (cleaned: nat)
      modifies this`intents, this`files
      ensures var gone := Cleaned(old(Snapshot()), listed, stuck);
        && cleaned == |gone|
        && Snapshot() == Without(old(Snapshot()), gone)
    {
      ghost var before := Snapshot();
      ghost var gone: set<Path> := {};
      cleaned := 0;
      assert Without(before, {}) == before;
      for i := 0 to |listed|
        invariant gone == Cleaned(before, listed[..i], stuck)
        invariant cleaned == |gone|
        invariant Snapshot() == Without(before, gone)
      {
        var path := listed[i];
        CleanedNext(before, listed, i, stuck);
        WithoutNext(before, gone, path);
        var removed := CleanupOne(path, stuck);
        if removed {
          cleaned := cleaned + 1;
          gone := gone + {path};
        }
      }
      assert listed[..|listed|] == listed;
    }

    method CleanupOne(path: Path, stuck: set<Path>) returns (removed: bool)
      modifies this`intents, this`files
      ensures removed <==> Cleanable(old(Snapshot()), path) && (Referenced(rows, path) || path !in stuck)
      ensures Snapshot() == if removed then Without(old(Snapshot()), {path}) else old(Snapshot())
    {
      if !Cleanable(Snapshot(), path) {
        return false;
      }
      if !Referenced(rows, path) {
        if path in stuck {
          return false;
        }
        files := files - {path};
      }
      intents := intents - {path};
      return true;
    }
  }

  function Unreferenced(rows: Rows, paths: set<Path>): set<Path> {
    set p | p in paths && !Referenced(rows, p)
  }

  /** The state once the intents of `gone` are deleted, with their files where no row needs them. */
  function Without(s: State, gone: set<Path>): State {
    s.(intents := s.intents - gone, files := s.files - Unreferenced(s.rows, gone))
  }

  lemma CleanedNext(s: State, listed: seq<Path>, i: nat, stuck: set<Path>)
    requires i < |listed|
    ensures Cleaned(s, listed[..i + 1], stuck) == Cleaned(s, listed[..i], stuck)
      + (if Cleanable(s, listed[i]) && (Referenced(s.rows, listed[i]) || listed[i] !in stuck) then {listed[i]} else {})
  {
  }

  lemma WithoutNext(s: State, gone: set<Path>, path: Path)
    ensures Without(Without(s, gone), {path}) == Without(s, gone + {path})
    ensures Cleanable(Without(s, gone), path) <==> Cleanable(s, path) && path !in gone
  {
  }
}

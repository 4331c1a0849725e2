/** The refresh coordinator as the object it is: each method is one synchronous stretch of its code. */
module RefreshCoordinator {
  import opened Results
  import opened RefreshModel

  class ResourceRefreshCoordinator<V(!new)> {
    const options: Options<V>
    var active: bool
    var disposed: bool
    var running: bool
    var paused: bool
    var timer: bool
    var generation: nat
    var retryRequested: bool
    var currentVersion: Option<V>
    var latestVersion: Option<V>
    var failedVersion: Option<V>
    /** The target and generation held by the refresh that is under way. */
    var flight: Option<Flight<V>>
    /** How many times the refresh callback has been called. */
    var starts: nat

    function Snapshot(): Coordinator<V>
      reads this
    {
      Coordinator(active, disposed, running, paused, timer, generation, retryRequested,
                  currentVersion, latestVersion, failedVersion, flight, starts)
    }

    ghost predicate Valid()
      reads this
    {
      Inv(options, Snapshot())
    }

    constructor (initialVersion: Option<V>, options: Options<V>)
      ensures this.options == options && Snapshot() == Created(initialVersion) && Valid()
    {
      this.options := options;
      active, disposed, running, paused, timer := initialVersion.Some?, false, false, false, false;
      generation, retryRequested, starts := 0, false, 0;
      currentVersion, latestVersion, failedVersion, flight := initialVersion, initialVersion, None, None;
    }

    method Start(version: V)
      requires Valid()
      modifies this
      ensures Valid() && Snapshot() == Apply(options, old(Snapshot()), Call.Start(version))
    {
      ApplyInv(options, Snapshot(), Call.Start(version));
      if disposed {
        return;
      }
      active := true;
      ObserveVersion(version, false);
    }

    method Observe(version: V, paused: bool)
      requires Valid()
      modifies this
      ensures Valid() && Snapshot() == Apply(options, old(Snapshot()), Call.Observe(version, paused))
    {
      ApplyInv(options, Snapshot(), Call.Observe(version, paused));
      ObserveVersion(version, paused);
    }

    method ObserveVersion(version: V, paused: bool)
      modifies this
      ensures Snapshot() == Observed(options, old(Snapshot()), version, paused)
    {
      if disposed {
        return;
      }
      latestVersion := Some(version);
      this.paused := paused;
      if Matches(options, version, currentVersion) {
        failedVersion := None;
        if !running {
          Cancel();
        }
        return;
      }
      if Matches(options, version, failedVersion) {
        if !running {
          Cancel();
        }
        return;
      }
      ScheduleRefresh();
    }

    method MarkCurrent(current: V)
      requires Valid()
      modifies this
      ensures Valid() && Snapshot() == Apply(options, old(Snapshot()), Call.MarkCurrent(current))
    {
      ApplyInv(options, Snapshot(), Call.MarkCurrent(current));
      MarkVersion(current);
    }

    method MarkVersion(current: V)
      modifies this
      ensures Snapshot() == Marked(options, old(Snapshot()), current)
    {
      if disposed {
        return;
      }
      generation := generation + 1;
      currentVersion := Some(current);
      latestVersion :=
        if latestVersion.Some? && options.merge.Some? then Some(options.merge.value(latestVersion.value, current))
        else Some(current);
      failedVersion := None;
      Cancel();
      ScheduleRefresh();
    }

    method Retry()
      requires Valid()
      modifies this
      ensures Valid() && Snapshot() == Apply(options, old(Snapshot()), Call.Retry)
    {
      ApplyInv(options, Snapshot(), Call.Retry);
      if disposed {
        return;
      }
      if running {
        retryRequested := true;
        return;
      }
      if failedVersion.None? {
        return;
      }
      failedVersion := None;
      Cancel();
      if !paused && !running {
        BeginRefresh();
      }
    }

    method Dispose()
      requires Valid()
      modifies this
      ensures Valid() && Snapshot() == Apply(options, old(Snapshot()), Call.Dispose)
    {
      ApplyInv(options, Snapshot(), Call.Dispose);
      disposed := true;
      generation := generation + 1;
      retryRequested := false;
      Cancel();
    }

    method TimerFires()
      requires Valid() && timer
      modifies this
      ensures Valid() && Snapshot() == Apply(options, old(Snapshot()), Call.TimerFires)
    {
      ApplyInv(options, Snapshot(), Call.TimerFires);
      timer := false;
      BeginRefresh();
    }

    /** What `runRefresh` does before it waits for the callback. */
    method BeginRefresh()
      modifies this`running, this`flight, this`starts
      ensures Snapshot() == Begin(options, old(Snapshot()))
    {
      if disposed || !active || paused || running || latestVersion.None?
        || Matches(options, latestVersion.value, currentVersion)
        || Matches(options, latestVersion.value, failedVersion)
      {
        return;
      }
      flight := Some(Flight(latestVersion.value, generation));
      running := true;
      starts := starts + 1;
    }

    /** What `runRefresh` does once the callback has answered. */
    method RefreshEnds(succeeded: bool)
      requires Valid() && running
      modifies this
      ensures Valid() && Snapshot() == Apply(options, old(Snapshot()), Call.RefreshEnds(succeeded))
    {
      ApplyInv(options, Snapshot(), Call.RefreshEnds(succeeded));
      var captured := flight.value;
      running, flight := false, None;
      if disposed {
        return;
      }
      var retry := retryRequested;
      retryRequested := false;
      if captured.generation == generation {
        if succeeded {
          currentVersion := Some(captured.target);
          failedVersion := None;
        } else {
          failedVersion := if retry then None else Some(captured.target);
        }
      }
      ScheduleRefresh();
    }

    method ScheduleRefresh()
      modifies this`timer, this`running, this`flight, this`starts
      ensures Snapshot() == Schedule(options, old(Snapshot()))
    {
      if disposed || !active || paused || running || timer || latestVersion.None?
        || Matches(options, latestVersion.value, currentVersion)
        || Matches(options, latestVersion.value, failedVersion)
      {
        return;
      }
      if options.delayed {
        timer := true;
        return;
      }
      BeginRefresh();
    }

    method Cancel()
      modifies this`timer
      ensures Snapshot() == CancelTimer(old(Snapshot()))
    {
      timer := false;
    }
  }
}

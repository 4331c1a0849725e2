/**
 * The coordinator measured against what it was told: which version it is to show, and whether it may
 * work, are computed here from the calls alone.
 */
module RefreshTheorems {
  import opened Results
  import opened RefreshModel

  /** What the calls so far have said. Nothing that is said after a disposal counts. */
  datatype Told<+V> = Told(active: bool, paused: bool, disposed: bool, latest: Option<V>)

  function Hears<V(!new)>(o: Options<V>, t: Told<V>, call: Call<V>): Told<V> {
    if t.disposed then t
    else
      match call
      case Start(version) => Told(true, false, false, Some(version))
      case Observe(version, paused) => t.(latest := Some(version), paused := paused)
      case MarkCurrent(version) =>
        if t.latest.Some? && o.merge.Some? then t.(latest := Some(o.merge.value(t.latest.value, version)))
        else t.(latest := Some(version))
      case Dispose => t.(disposed := true)
      case _ => t
  }

  function ToldBy<V(!new)>(o: Options<V>, t: Told<V>, calls: seq<Call<V>>): Told<V>
    decreases |calls|
  {
    if calls == [] then t else ToldBy(o, Hears(o, t, calls[0]), calls[1..])
  }

  function AtFirst<V(!new)>(initial: Option<V>): Told<V> {
    Told(initial.Some?, false, false, initial)
  }

  function KnownBy<V(!new)>(c: Coordinator<V>): Told<V> {
    Told(c.active, c.paused, c.disposed, c.latest)
  }

  lemma ApplyHears<V(!new)>(o: Options<V>, c: Coordinator<V>, call: Call<V>)
    ensures KnownBy(Apply(o, c, call)) == Hears(o, KnownBy(c), call)
  {
    match call
    case Start(version) => ObservedHears(o, c.(active := true), version, false);
    case Observe(version, paused) => ObservedHears(o, c, version, paused);
    case MarkCurrent(version) => MarkedHears(o, c, version);
    case RefreshEnds(succeeded) => if c.flight.Some? { EndHears(o, c, succeeded); }
    case _ =>
  }

  lemma ScheduleHears<V(!new)>(o: Options<V>, c: Coordinator<V>)
    ensures KnownBy(Schedule(o, c)) == KnownBy(c)
  {
  }

  lemma ObservedHears<V(!new)>(o: Options<V>, c: Coordinator<V>, version: V, paused: bool)
    ensures KnownBy(Observed(o, c, version, paused)) == Hears(o, KnownBy(c), Observe(version, paused))
  {
    ScheduleHears(o, c.(latest := Some(version), paused := paused));
  }

  lemma MarkedHears<V(!new)>(o: Options<V>, c: Coordinator<V>, version: V)
    ensures KnownBy(Marked(o, c, version)) == Hears(o, KnownBy(c), MarkCurrent(version))
  {
  }

  lemma EndHears<V(!new)>(o: Options<V>, c: Coordinator<V>, succeeded: bool)
    requires c.flight.Some?
    ensures KnownBy(Ended(o, c, succeeded)) == KnownBy(c)
  {
  }

  /** In every run the coordinator knows what it was told: latest version, pause and all. */
  lemma {:induction false} KnowsWhatItWasTold<V(!new)>(o: Options<V>, c: Coordinator<V>, calls: seq<Call<V>>)
    ensures KnownBy(Exec(o, c, calls)) == ToldBy(o, KnownBy(c), calls)
    decreases |calls|
  {
    if calls != [] {
      ApplyHears(o, c, calls[0]);
      KnowsWhatItWasTold(o, Apply(o, c, calls[0]), calls[1..]);
    }
  }

  ghost predicate MayWork<V(!new)>(t: Told<V>) {
    t.active && !t.paused && !t.disposed && t.latest.Some?
  }

  /**
   * No update is lost: whenever the coordinator may work and is doing nothing, the version it was told
   * last is the one shown or the one whose refresh failed; and it never waits and refreshes at once.
   */
  lemma NoLostUpdate<V(!new)>(o: Options<V>, initial: Option<V>, calls: seq<Call<V>>)
    ensures var c := Exec(o, Created(initial), calls); var told := ToldBy(o, AtFirst(initial), calls);
      && !(c.timer && c.running)
      && (MayWork(told) && !c.running && !c.timer ==>
            Matches(o, told.latest.value, c.current) || Matches(o, told.latest.value, c.failed))
  {
    CreatedInv(o, initial);
    ExecInv(o, Created(initial), calls);
    KnowsWhatItWasTold(o, Created(initial), calls);
  }

  lemma RemainingIsThree<V(!new)>(o: Options<V>, c: Coordinator<V>)
    ensures Remaining(o, c) <= 3
  {
  }

  /**
   * Left alone while its refreshes succeed, from any run, a coordinator that may work comes to rest after
   * at most three events, showing the version it was told last unless that is the one whose refresh had
   * failed.
   */
  lemma ShowsWhatItWasTold<V(!new)>(o: Options<V>, initial: Option<V>, calls: seq<Call<V>>, n: nat)
    requires MayWork(ToldBy(o, AtFirst(initial), calls)) && n >= 3
    ensures var c := Exec(o, Created(initial), calls); var later := AdvanceTimes(o, c, n);
      var latest := ToldBy(o, AtFirst(initial), calls).latest.value;
      && !later.running && !later.timer
      && (Matches(o, latest, later.current) || (Matches(o, latest, later.failed) && later.failed == c.failed))
  {
    var c := Exec(o, Created(initial), calls);
    CreatedInv(o, initial);
    ExecInv(o, Created(initial), calls);
    KnowsWhatItWasTold(o, Created(initial), calls);
    RemainingIsThree(o, c);
    ShowsLatest(o, c, n);
  }

  // ----- When refreshes begin ----------------------------------------------------------------

  /**
   * A call begins at most one refresh, of the latest version, when the coordinator may work and neither
   * shows that version nor has failed on it; with a delay only the timer or a retry begins one.
   */
  lemma BeginsTheLatest<V(!new)>(o: Options<V>, c: Coordinator<V>, call: Call<V>)
    requires Inv(o, c)
    ensures var next := Apply(o, c, call); var ended := call.RefreshEnds? && c.running;
      && c.starts <= next.starts <= c.starts + 1
      && (next.starts == c.starts ==> next.flight == if ended then None else c.flight)
      && (next.starts > c.starts ==>
            && (!c.running || ended)
            && MayWork(KnownBy(next)) && next.flight == Some(Flight(next.latest.value, next.generation))
            && !Matches(o, next.latest.value, next.current) && !Matches(o, next.latest.value, next.failed)
            && (o.delayed ==> call.TimerFires? || call.Retry?))
  {
    match call
    case RefreshEnds(succeeded) => if c.running { EndBegins(o, c, succeeded); }
    case Start(version) => AnnouncementBegins(o, c.(active := !c.disposed || c.active), version, false);
    case Observe(version, paused) => AnnouncementBegins(o, c, version, paused);
    case _ =>
  }

  /** At most one refresh has begun, of the latest version of a coordinator that may work. */
  ghost predicate Begun<V(!new)>(o: Options<V>, c: Coordinator<V>, next: Coordinator<V>) {
    && next.starts == c.starts + 1 && MayWork(KnownBy(next))
    && next.flight == Some(Flight(next.latest.value, next.generation))
    && !Matches(o, next.latest.value, next.current) && !Matches(o, next.latest.value, next.failed)
  }

  lemma EndBegins<V(!new)>(o: Options<V>, c: Coordinator<V>, succeeded: bool)
    requires Inv(o, c) && c.running
    ensures var next := Ended(o, c, succeeded);
      (next.starts == c.starts && next.flight == None) || (!o.delayed && Begun(o, c, next))
  {
  }

  lemma AnnouncementBegins<V(!new)>(o: Options<V>, c: Coordinator<V>, version: V, paused: bool)
    requires c.running <==> c.flight.Some?
    ensures var next := Observed(o, c, version, paused);
      (next.starts == c.starts && next.flight == c.flight) || (!o.delayed && !c.running && Begun(o, c, next))
  {
  }

  /**
   * The timer is set only with a delay, and not when there is nothing left to refresh: announcing the
   * version shown or the one that failed, marking the latest, a retry and a disposal stop it.
   */
  lemma TimerWaitsForWork<V(!new)>(o: Options<V>, c: Coordinator<V>, call: Call<V>)
    requires Inv(o, c) && !c.disposed
    ensures var next := Apply(o, c, call);
      && (next.timer ==> c.timer || o.delayed)
      && ((call.Start? || call.Observe?) && next.timer ==>
            !Matches(o, call.version, c.current) && !Matches(o, call.version, c.failed))
      && (call.MarkCurrent? && next.timer ==> !Idle(o, next))
      && (call.Retry? && next.timer ==> c.timer && c.failed.None?)
      && (call.TimerFires? || call.Dispose? ==> !next.timer)
  {
  }

  // ----- What failed, and retries ------------------------------------------------------------

  /** A failure is remembered when a refresh fails and nobody asked for a retry; this is when it is forgotten. */
  lemma FailureFate<V(!new)>(o: Options<V>, c: Coordinator<V>, call: Call<V>)
    requires Inv(o, c) && !c.disposed
    ensures var next := Apply(o, c, call);
      && (call.MarkCurrent? ==> next.failed == None)
      && (call.Start? || call.Observe? ==>
            next.failed == if Matches(o, call.version, c.current) then None else c.failed)
      && (call.Retry? ==> next.failed == if c.running then c.failed else None)
      && (call.RefreshEnds? && c.running && c.flight.value.generation == c.generation ==>
            next.failed == if call.succeeded || c.retryRequested then None else Some(c.flight.value.target))
      && (call.RefreshEnds? && c.running && c.flight.value.generation != c.generation ==> next.failed == c.failed)
      && (call.TimerFires? || call.Dispose? ==> next.failed == c.failed)
  {
  }

  /** A retry of a failed version that is not shown begins exactly one refresh, at once, of the latest version. */
  lemma RetryBegins<V(!new)>(o: Options<V>, c: Coordinator<V>)
    requires Inv(o, c) && MayWork(KnownBy(c)) && !c.running && c.failed.Some?
    requires !Matches(o, c.latest.value, c.current)
    ensures var next := Apply(o, c, Retry);
      && next.running && next.starts == c.starts + 1 && next.failed == None && !next.timer
      && next.flight == Some(Flight(c.latest.value, c.generation))
  {
  }

  /** Without a failure there is nothing to retry, and under way or disposed nothing begins either. */
  lemma RetryNeedsFailure<V(!new)>(o: Options<V>, c: Coordinator<V>)
    ensures c.disposed || (!c.running && c.failed.None?) ==> Apply(o, c, Retry) == c
    ensures !c.disposed && c.running ==> Apply(o, c, Retry) == c.(retryRequested := true)
  {
  }

  ghost predicate Retries<V(!new)>(calls: seq<Call<V>>) {
    exists i :: 0 <= i < |calls| && calls[i].Retry?
  }

  lemma RetriesRest<V(!new)>(calls: seq<Call<V>>)
    requires calls != []
    ensures Retries(calls) <==> calls[0].Retry? || Retries(calls[1..])
  {
    if Retries(calls[1..]) {
      var i :| 0 <= i < |calls[1..]| && calls[1..][i].Retry?;
      assert calls[i + 1].Retry?;
    }
  }

  lemma DuringRetry<V(!new)>(o: Options<V>, c: Coordinator<V>, call: Call<V>)
    requires Inv(o, c) && c.running && !c.disposed && !call.RefreshEnds? && !call.Dispose?
    ensures Apply(o, c, call).retryRequested == (c.retryRequested || call.Retry?)
  {
  }

  /**
   * A refresh that fails with nothing marked or disposed since it began is remembered as failed, unless
   * a retry was asked for while it was under way.
   */
  lemma {:induction false} RetryInFlight<V(!new)>(o: Options<V>, c: Coordinator<V>, calls: seq<Call<V>>)
    requires Inv(o, c) && c.running && !c.disposed && c.flight.value.generation == c.generation
    requires DuringFlight(calls) && !Marks(calls) && !Disposes(calls) && !calls[|calls| - 1].succeeded
    ensures Exec(o, c, calls).failed
      == if c.retryRequested || Retries(calls) then None else Some(c.flight.value.target)
    decreases |calls|
  {
    var call, rest := calls[0], calls[1..];
    var next := Apply(o, c, call);
    RetriesRest(calls);
    if |calls| == 1 {
      assert Exec(o, c, calls) == Exec(o, next, rest) == next;
      FailureFate(o, c, call);
    } else {
      RestOfFlight(calls);
      DuringStep(o, c, call);
      DuringRetry(o, c, call);
      RetryInFlight(o, next, rest);
    }
  }
}

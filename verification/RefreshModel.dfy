/**
 * The coordinator that keeps a displayed resource up to date: it remembers the version shown, the
 * latest version announced and the version whose refresh failed, and starts at most one refresh at
 * a time. A refresh is asynchronous; other calls happen between its start and its end.
 */
module RefreshModel {
  import opened Results

  /** What a refresh under way has captured. */
  datatype Flight<+V> = Flight(target: V, generation: nat)

  /** When two versions are the same; every version is the same as itself. */
  type Sameness<!V(!new)> = same: (V, V) -> bool | forall v :: same(v, v) witness (a, b) => true

  datatype Options<!V(!new)> = Options(same: Sameness<V>, merge: Option<(V, V) -> V>, delayed: bool)

  /** `flight` is the refresh under way, `starts` how many have begun. */
  datatype Coordinator<+V> = Coordinator(
    active: bool, disposed: bool, running: bool, paused: bool, timer: bool, generation: nat, retryRequested: bool,
    current: Option<V>, latest: Option<V>, failed: Option<V>, flight: Option<Flight<V>>, starts: nat)

  datatype Call<+V> =
    | Start(version: V)
    | Observe(version: V, paused: bool)
    | MarkCurrent(version: V)
    | Retry
    | Dispose
    | TimerFires
    | RefreshEnds(succeeded: bool)

  function Created<V(!new)>(initial: Option<V>): Coordinator<V> {
    Coordinator(initial.Some?, false, false, false, false, 0, false, initial, initial, None, None, 0)
  }

  predicate Matches<V(!new)>(o: Options<V>, left: V, right: Option<V>) {
    right.Some? && o.same(left, right.value)
  }

  /** Nothing to refresh, or no permission to. */
  predicate Idle<V(!new)>(o: Options<V>, c: Coordinator<V>) {
    || c.disposed || !c.active || c.paused || c.running || c.latest.None?
    || Matches(o, c.latest.value, c.current) || Matches(o, c.latest.value, c.failed)
  }

  function Begin<V(!new)>(o: Options<V>, c: Coordinator<V>): Coordinator<V> {
    if Idle(o, c) then c
    else c.(running := true, flight := Some(Flight(c.latest.value, c.generation)), starts := c.starts + 1)
  }

  function Schedule<V(!new)>(o: Options<V>, c: Coordinator<V>): Coordinator<V> {
    if c.timer || Idle(o, c) then c
    else if o.delayed then c.(timer := true)
    else Begin(o, c)
  }

  function CancelTimer<V(!new)>(c: Coordinator<V>): Coordinator<V> {
    c.(timer := false)
  }

  function Observed<V(!new)>(o: Options<V>, c: Coordinator<V>, version: V, paused: bool): Coordinator<V> {
    if c.disposed then c
    else
      var seen := c.(latest := Some(version), paused := paused);
      var matched := if Matches(o, version, c.current) then seen.(failed := None) else seen;
      if Matches(o, version, c.current) || Matches(o, version, c.failed) then
        if c.running then matched else CancelTimer(matched)
      else Schedule(o, seen)
  }

  function Marked<V(!new)>(o: Options<V>, c: Coordinator<V>, version: V): Coordinator<V> {
    if c.disposed then c
    else
      var latest := if c.latest.Some? && o.merge.Some? then o.merge.value(c.latest.value, version) else version;
      Schedule(o, c.(generation := c.generation + 1, current := Some(version), latest := Some(latest),
                     failed := None, timer := false))
  }

  function Retried<V(!new)>(o: Options<V>, c: Coordinator<V>): Coordinator<V> {
    if c.disposed then c
    else if c.running then c.(retryRequested := true)
    else if c.failed.None? then c
    else Begin(o, c.(failed := None, timer := false))
  }

  /** The end of a refresh. Its outcome counts only if no other version was marked current meanwhile. */
  function Ended<V(!new)>(o: Options<V>, c: Coordinator<V>, succeeded: bool): Coordinator<V>
    requires c.flight.Some?
  {
    var flight := c.flight.value;
    var landed := c.(running := false, flight := None);
    if c.disposed then landed
    else
      var judged := landed.(retryRequested := false);
      if flight.generation != c.generation then Schedule(o, judged)
      else if succeeded then Schedule(o, judged.(current := Some(flight.target), failed := None))
      else Schedule(o, judged.(failed := if c.retryRequested then None else Some(flight.target)))
  }

  function Apply<V(!new)>(o: Options<V>, c: Coordinator<V>, call: Call<V>): Coordinator<V> {
    match call
    case Start(version) => if c.disposed then c else Observed(o, c.(active := true), version, false)
    case Observe(version, paused) => Observed(o, c, version, paused)
    case MarkCurrent(version) => Marked(o, c, version)
    case Retry => Retried(o, c)
    case Dispose => c.(disposed := true, generation := c.generation + 1, retryRequested := false, timer := false)
    case TimerFires => if c.timer then Begin(o, CancelTimer(c)) else c
    case RefreshEnds(succeeded) => if c.flight.Some? then Ended(o, c, succeeded) else c
  }

  function Exec<V(!new)>(o: Options<V>, c: Coordinator<V>, calls: seq<Call<V>>): Coordinator<V>
    decreases |calls|
  {
    if calls == [] then c else Exec(o, Apply(o, c, calls[0]), calls[1..])
  }

  // ----- What every call keeps ---------------------------------------------------------------

  ghost predicate Inv<V(!new)>(o: Options<V>, c: Coordinator<V>) {
    && !(c.timer && c.running)
    && (c.running <==> c.flight.Some?)
    && (c.retryRequested ==> c.running && !c.disposed)
    && (c.disposed ==> !c.timer)
    && (c.flight.Some? ==> c.flight.value.generation <= c.generation)
    && (!c.timer ==> Idle(o, c))
  }

  lemma CreatedInv<V(!new)>(o: Options<V>, initial: Option<V>)
    ensures Inv(o, Created(initial))
  {
  }

  lemma ApplyInv<V(!new)>(o: Options<V>, c: Coordinator<V>, call: Call<V>)
    requires Inv(o, c)
    ensures Inv(o, Apply(o, c, call))
  {
  }

  lemma {:induction false} ExecInv<V(!new)>(o: Options<V>, c: Coordinator<V>, calls: seq<Call<V>>)
    requires Inv(o, c)
    ensures Inv(o, Exec(o, c, calls))
    decreases |calls|
  {
    if calls != [] {
      ApplyInv(o, c, calls[0]);
      ExecInv(o, Apply(o, c, calls[0]), calls[1..]);
    }
  }

  // ----- How many refreshes start ------------------------------------------------------------

  /** The refresh under way will not make the coordinator rest: something happened since it began. */
  predicate Stale<V(!new)>(o: Options<V>, c: Coordinator<V>) {
    && c.flight.Some?
    && (c.retryRequested || c.flight.value.generation != c.generation
        || c.latest.None? || !o.same(c.latest.value, c.flight.value.target))
  }

  /** The refreshes still owed for calls already made. */
  function Owed<V(!new)>(o: Options<V>, c: Coordinator<V>): nat {
    if c.timer || (!c.disposed && Stale(o, c)) then 1 else 0
  }

  function Charge<V(!new)>(call: Call<V>): nat {
    if call.Start? || call.Observe? || call.MarkCurrent? || call.Retry? then 1 else 0
  }

  function Charges<V(!new)>(calls: seq<Call<V>>): nat
    decreases |calls|
  {
    if calls == [] then 0 else Charge(calls[0]) + Charges(calls[1..])
  }

  /** `next` has started no fewer refreshes than `c`, and owes and has started no more than `charge` more. */
  ghost predicate Charged<V(!new)>(o: Options<V>, c: Coordinator<V>, next: Coordinator<V>, charge: nat) {
    c.starts <= next.starts && next.starts + Owed(o, next) <= c.starts + Owed(o, c) + charge
  }

  lemma EndCharges<V(!new)>(o: Options<V>, c: Coordinator<V>, succeeded: bool)
    requires Inv(o, c) && c.flight.Some?
    ensures Charged(o, c, Ended(o, c, succeeded), 0)
  {
  }

  lemma AnnounceCharges<V(!new)>(o: Options<V>, c: Coordinator<V>, version: V, paused: bool)
    requires Inv(o, c)
    ensures Charged(o, c, Observed(o, c, version, paused), 1)
    ensures Charged(o, c, Observed(o, c.(active := true), version, paused), 1)
  {
  }

  lemma MarkCharges<V(!new)>(o: Options<V>, c: Coordinator<V>, version: V)
    requires Inv(o, c)
    ensures Charged(o, c, Marked(o, c, version), 1)
  {
  }

  lemma ApplyCharges<V(!new)>(o: Options<V>, c: Coordinator<V>, call: Call<V>)
    requires Inv(o, c)
    ensures Charged(o, c, Apply(o, c, call), Charge(call))
  {
    match call
    case Start(version) => AnnounceCharges(o, c, version, false);
    case Observe(version, paused) => AnnounceCharges(o, c, version, paused);
    case MarkCurrent(version) => MarkCharges(o, c, version);
    case RefreshEnds(succeeded) => if c.flight.Some? { EndCharges(o, c, succeeded); }
    case _ =>
  }

  lemma {:induction false} ExecCharges<V(!new)>(o: Options<V>, c: Coordinator<V>, calls: seq<Call<V>>)
    requires Inv(o, c)
    ensures var later := Exec(o, c, calls); later.starts + Owed(o, later) <= c.starts + Owed(o, c) + Charges(calls)
    decreases |calls|
  {
    if calls != [] {
      ApplyInv(o, c, calls[0]);
      ApplyCharges(o, c, calls[0]);
      ExecCharges(o, Apply(o, c, calls[0]), calls[1..]);
    }
  }

  /** Refreshes never outnumber the calls that announce, mark or retry a version. */
  lemma StartsAreCharged<V(!new)>(o: Options<V>, initial: Option<V>, calls: seq<Call<V>>)
    ensures Exec(o, Created(initial), calls).starts <= Charges(calls)
  {
    CreatedInv(o, initial);
    ExecCharges(o, Created(initial), calls);
  }

  // ----- A refresh that was overtaken --------------------------------------------------------

  /** The calls made while one refresh stays under way, ending with its end. */
  ghost predicate DuringFlight<V(!new)>(calls: seq<Call<V>>) {
    calls != [] && calls[|calls| - 1].RefreshEnds? && forall i :: 0 <= i < |calls| - 1 ==> !calls[i].RefreshEnds?
  }

  /** What `current` is after `calls` if only the calls that mark a version change it, until a disposal. */
  function LastMarked<V(!new)>(current: Option<V>, calls: seq<Call<V>>): Option<V>
    decreases |calls|
  {
    if calls == [] || calls[0].Dispose? then current
    else LastMarked(if calls[0].MarkCurrent? then Some(calls[0].version) else current, calls[1..])
  }

  ghost predicate Marks<V(!new)>(calls: seq<Call<V>>) {
    exists i :: 0 <= i < |calls| && calls[i].MarkCurrent?
  }

  ghost predicate Disposes<V(!new)>(calls: seq<Call<V>>) {
    exists i :: 0 <= i < |calls| && calls[i].Dispose?
  }

  /**
   * While a refresh is under way, and at its end, the version shown changes only as it is marked, and
   * never after a disposal; the refresh itself changes it exactly when it succeeds and nothing was
   * marked or disposed since it began, and then to the version it was started for.
   */
  lemma {:induction false} FlightOutcome<V(!new)>(o: Options<V>, c: Coordinator<V>, calls: seq<Call<V>>)
    requires Inv(o, c) && c.running && DuringFlight(calls)
    ensures var last := calls[|calls| - 1];
      Exec(o, c, calls).current ==
        if c.disposed then c.current
        else if last.succeeded && !Marks(calls) && !Disposes(calls) && c.flight.value.generation == c.generation
        then Some(c.flight.value.target)
        else LastMarked(c.current, calls)
    decreases |calls|
  {
    var call, rest := calls[0], calls[1..];
    var next := Apply(o, c, call);
    if c.disposed {
      DisposedKeeps(o, c, calls);
    } else if |calls| == 1 {
      assert Exec(o, c, calls) == Exec(o, next, rest) == next;
      EndOutcome(o, c, call.succeeded);
    } else if call.Dispose? {
      assert Disposes(calls);
      DisposedKeeps(o, next, rest);
    } else {
      RestOfFlight(calls);
      DuringStep(o, c, call);
      FlightOutcome(o, next, rest);
    }
  }

  /** A disposed coordinator shows what it showed. */
  lemma {:induction false} DisposedKeeps<V(!new)>(o: Options<V>, c: Coordinator<V>, calls: seq<Call<V>>)
    requires c.disposed
    ensures Exec(o, c, calls).current == c.current && Exec(o, c, calls).disposed
    decreases |calls|
  {
    if calls != [] {
      DisposedKeeps(o, Apply(o, c, calls[0]), calls[1..]);
    }
  }

  lemma RestOfFlight<V(!new)>(calls: seq<Call<V>>)
    requires |calls| > 1 && DuringFlight(calls)
    ensures DuringFlight(calls[1..]) && !calls[0].RefreshEnds?
    ensures Marks(calls) <==> calls[0].MarkCurrent? || Marks(calls[1..])
    ensures Disposes(calls) <==> calls[0].Dispose? || Disposes(calls[1..])
  {
  }

  lemma DuringStep<V(!new)>(o: Options<V>, c: Coordinator<V>, call: Call<V>)
    requires Inv(o, c) && c.running && !c.disposed && !call.RefreshEnds? && !call.Dispose?
    ensures var next := Apply(o, c, call);
      && Inv(o, next) && next.running && !next.disposed && next.flight == c.flight
      && next.current == (if call.MarkCurrent? then Some(call.version) else c.current)
      && next.generation == (if call.MarkCurrent? then c.generation + 1 else c.generation)
  {
  }

  lemma EndOutcome<V(!new)>(o: Options<V>, c: Coordinator<V>, succeeded: bool)
    requires c.flight.Some? && !c.disposed
    ensures Ended(o, c, succeeded).current ==
      if succeeded && c.flight.value.generation == c.generation then Some(c.flight.value.target) else c.current
  {
  }

  // ----- Coming to rest ----------------------------------------------------------------------

  /** How many more times a timer fires or a refresh ends before the coordinator rests by itself. */
  function Remaining<V(!new)>(o: Options<V>, c: Coordinator<V>): nat {
    if c.timer then 2
    else if c.running then (if Stale(o, c) && !c.disposed then 3 else 1)
    else 0
  }

  lemma EndsLess<V(!new)>(o: Options<V>, c: Coordinator<V>, call: Call<V>)
    requires Inv(o, c)
    requires (call.TimerFires? && c.timer) || (call.RefreshEnds? && c.running)
    ensures Remaining(o, Apply(o, c, call)) < Remaining(o, c)
  {
  }

  /** A timer that is set fires, and otherwise a refresh that is under way succeeds. */
  function Advance<V(!new)>(c: Coordinator<V>): Call<V> {
    if c.timer then TimerFires else RefreshEnds(true)
  }

  function AdvanceTimes<V(!new)>(o: Options<V>, c: Coordinator<V>, n: nat): Coordinator<V>
    decreases n
  {
    if n == 0 then c else AdvanceTimes(o, Apply(o, c, Advance(c)), n - 1)
  }

  /**
   * Left alone while its refreshes succeed, a coordinator that may work comes to rest after at most
   * three events, showing the latest version unless that is the one whose refresh had failed.
   */
  lemma {:induction false} ShowsLatest<V(!new)>(o: Options<V>, c: Coordinator<V>, n: nat)
    requires Inv(o, c)
    requires c.active && !c.paused && !c.disposed && c.latest.Some? && Remaining(o, c) <= n
    ensures var later := AdvanceTimes(o, c, n);
      && !later.running && !later.timer && later.latest == c.latest
      && (Matches(o, c.latest.value, later.current)
          || (Matches(o, c.latest.value, later.failed) && later.failed == c.failed))
    decreases n
  {
    if n > 0 {
      var next := Apply(o, c, Advance(c));
      ApplyInv(o, c, Advance(c));
      if c.timer || c.running {
        EndsLess(o, c, Advance(c));
      }
      AdvanceKeeps(o, c);
      ShowsLatest(o, next, n - 1);
    }
  }

  lemma AdvanceKeeps<V(!new)>(o: Options<V>, c: Coordinator<V>)
    requires Inv(o, c) && !c.disposed
    ensures var next := Apply(o, c, Advance(c));
      && next.active == c.active && next.paused == c.paused && next.disposed == c.disposed && next.latest == c.latest
      && (next.failed.None? || next.failed == c.failed)
  {
  }
}

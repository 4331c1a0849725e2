/**
 * The request gate: a permit first, then a slot, if the gate has a rate at all. Slots are handed out
 * one interval apart, the interval being the window divided by the number of requests, in whole
 * nanoseconds.
 */
module RateGate {
  import opened Results

  type Caller = nat

  datatype GateError = InvalidConcurrency | InvalidRate

  /** A caller with a permit: it has not asked for a slot, sleeps until one, or has been let through. */
  datatype Phase = Permitted | Sleeping(slot: nat) | Entered

  /**
   * `limited` says whether there is a rate; `slots` are all the slots ever reserved, in order, and
   * `abandoned` those whose callers gave up while they slept.
   */
  datatype Gate = Gate(
    clock: int, limited: bool, interval: nat, nextStart: int, free: nat, callers: map<Caller, Phase>, slots: seq<int>,
    abandoned: set<nat>)

  datatype Action =
    | Tick(to: int)
    | Acquire(caller: Caller)
    | Reserve(caller: Caller)
    | Wake(caller: Caller)
    | Release(caller: Caller)
    | Cancel(caller: Caller)

  function Interval(requests: nat, window: nat): Result<nat, GateError> {
    if requests == 0 || window == 0 then Err(InvalidRate)
    else if window / requests == 0 then Err(InvalidRate)
    else Ok(window / requests)
  }

  function Fresh(clock: int, concurrency: nat, interval: nat): Gate {
    Gate(clock, true, interval, clock, concurrency, map[], [], {})
  }

  /** A gate without a rate. */
  function Unlimited(clock: int, concurrency: nat): Gate {
    Gate(clock, false, 0, clock, concurrency, map[], [], {})
  }

  function Slot(nextStart: int, now: int): int {
    if nextStart < now then now else nextStart
  }

  function Reserved(g: Gate, caller: Caller): Gate {
    var scheduled := Slot(g.nextStart, g.clock);
    g.(nextStart := scheduled + g.interval, slots := g.slots + [scheduled],
       callers := g.callers[caller := Sleeping(|g.slots|)])
  }

  function Left(g: Gate, caller: Caller): Gate {
    g.(free := g.free + 1, callers := g.callers - {caller})
  }

  /** A step that its caller is not ready for changes nothing. */
  function Apply(g: Gate, action: Action): Gate {
    match action
    case Tick(to) => if to < g.clock then g else g.(clock := to)
    case Acquire(caller) =>
      if g.free == 0 || caller in g.callers then g
      else g.(free := g.free - 1, callers := g.callers[caller := Permitted])
    case Reserve(caller) =>
      if caller !in g.callers || !g.callers[caller].Permitted? then g
      else if g.limited then Reserved(g, caller)
      else g.(callers := g.callers[caller := Entered])
    case Wake(caller) =>
      if caller in g.callers && g.callers[caller].Sleeping? && g.callers[caller].slot < |g.slots|
         && g.slots[g.callers[caller].slot] <= g.clock
      then g.(callers := g.callers[caller := Entered]) else g
    case Release(caller) =>
      if caller in g.callers && g.callers[caller].Entered? then Left(g, caller) else g
    case Cancel(caller) =>
      if caller !in g.callers || g.callers[caller].Entered? then g
      else if g.callers[caller].Permitted? then Left(g, caller)
      else Left(g, caller).(abandoned := g.abandoned + {g.callers[caller].slot})
  }

  function Exec(g: Gate, actions: seq<Action>): Gate
    decreases |actions|
  {
    if actions == [] then g else Exec(Apply(g, actions[0]), actions[1..])
  }

  // ----- The invariant -----------------------------------------------------------------------

  /** A slot is an interval after the one before it, or was free at once, and then it has passed. */
  ghost predicate Spaced(slots: seq<int>, nextStart: int, interval: nat, clock: int) {
    && (|slots| > 0 ==> nextStart == slots[|slots| - 1] + interval && slots[0] <= clock)
    && (|slots| == 0 ==> nextStart <= clock)
    && (forall i :: 0 < i < |slots| ==>
          slots[i] >= slots[i - 1] + interval && (slots[i] > clock ==> slots[i] == slots[i - 1] + interval))
  }

  /** Every slot still to come has its own sleeping caller, unless it was abandoned. */
  ghost predicate Owned(g: Gate) {
    forall i :: 0 <= i < |g.slots| && g.slots[i] > g.clock ==> i in g.abandoned || i in SlotsOf(g.callers)
  }

  function SlotsOf(callers: map<Caller, Phase>): set<nat> {
    set c | c in callers && callers[c].Sleeping? :: callers[c].slot
  }

  function Sleepers(callers: map<Caller, Phase>): set<Caller> {
    set c | c in callers && callers[c].Sleeping?
  }

  ghost predicate Inv(g: Gate, concurrency: nat) {
    Spaced(g.slots, g.nextStart, g.interval, g.clock) && Owned(g) && g.free + |g.callers| == concurrency
  }

  lemma SleepsAt(callers: map<Caller, Phase>, caller: Caller)
    requires caller in callers && callers[caller].Sleeping?
    ensures callers[caller].slot in SlotsOf(callers)
  {
  }

  lemma OwnedElsewhere(before: map<Caller, Phase>, later: map<Caller, Phase>, slot: nat)
    requires slot in SlotsOf(before)
    requires forall c :: c in before && before[c] == Sleeping(slot) ==> c in later && later[c] == before[c]
    ensures slot in SlotsOf(later)
  {
  }

  lemma StepOwned(g: Gate, action: Action)
    requires Owned(g)
    ensures Owned(Apply(g, action))
  {
    var next := Apply(g, action);
    forall i | 0 <= i < |next.slots| && next.slots[i] > next.clock
      ensures i in next.abandoned || i in SlotsOf(next.callers)
    {
      if i == |g.slots| {
        SleepsAt(next.callers, action.caller);
      } else if i !in next.abandoned {
        assert i in SlotsOf(g.callers);
        OwnedElsewhere(g.callers, next.callers, i);
      }
    }
  }

  lemma SpacedNext(slots: seq<int>, nextStart: int, interval: nat, clock: int)
    requires Spaced(slots, nextStart, interval, clock)
    ensures Spaced(slots + [Slot(nextStart, clock)], Slot(nextStart, clock) + interval, interval, clock)
  {
  }

  /** What a step can do to the slots. */
  lemma StepSlots(g: Gate, action: Action)
    ensures var next := Apply(g, action);
      && next.interval == g.interval && next.clock >= g.clock
      && ((next.slots == g.slots && next.nextStart == g.nextStart)
          || (next.slots == g.slots + [Slot(g.nextStart, g.clock)] && next.clock == g.clock
              && next.nextStart == Slot(g.nextStart, g.clock) + g.interval))
  {
  }

  lemma SpacedLater(slots: seq<int>, nextStart: int, interval: nat, clock: int, later: int)
    requires Spaced(slots, nextStart, interval, clock) && clock <= later
    ensures Spaced(slots, nextStart, interval, later)
  {
  }

  lemma StepSpaced(g: Gate, action: Action)
    requires Spaced(g.slots, g.nextStart, g.interval, g.clock)
    ensures var next := Apply(g, action); Spaced(next.slots, next.nextStart, next.interval, next.clock)
  {
    StepSlots(g, action);
    SpacedNext(g.slots, g.nextStart, g.interval, g.clock);
    SpacedLater(g.slots, g.nextStart, g.interval, g.clock, Apply(g, action).clock);
  }

  lemma SetSize(callers: map<Caller, Phase>, caller: Caller, phase: Phase)
    ensures |callers[caller := phase]| == |callers| + (if caller in callers then 0 else 1)
  {
    assert callers[caller := phase].Keys == callers.Keys + {caller};
  }

  lemma DropSize(callers: map<Caller, Phase>, caller: Caller)
    requires caller in callers
    ensures |callers - {caller}| == |callers| - 1
  {
    assert (callers - {caller}).Keys == callers.Keys - {caller};
  }

  lemma StayingPermits(g: Gate, action: Action)
    requires !action.Release? && !action.Cancel?
    ensures Apply(g, action).free + |Apply(g, action).callers| == g.free + |g.callers|
  {
    if !action.Tick? {
      SetSize(g.callers, action.caller, Permitted);
      SetSize(g.callers, action.caller, Entered);
      SetSize(g.callers, action.caller, Sleeping(|g.slots|));
    }
  }

  lemma LeavingPermits(g: Gate, action: Action)
    requires action.Release? || action.Cancel?
    ensures Apply(g, action).free + |Apply(g, action).callers| == g.free + |g.callers|
  {
    if action.caller in g.callers {
      DropSize(g.callers, action.caller);
    }
  }

  lemma StepPermits(g: Gate, action: Action)
    ensures Apply(g, action).free + |Apply(g, action).callers| == g.free + |g.callers|
  {
    if action.Release? || action.Cancel? {
      LeavingPermits(g, action);
    } else {
      StayingPermits(g, action);
    }
  }

  lemma StepInv(g: Gate, action: Action, concurrency: nat)
    requires Inv(g, concurrency)
    ensures Inv(Apply(g, action), concurrency)
  {
    StepSpaced(g, action);
    StepOwned(g, action);
    StepPermits(g, action);
  }

  lemma {:induction false} ExecInv(g: Gate, actions: seq<Action>, concurrency: nat)
    requires Inv(g, concurrency)
    ensures Inv(Exec(g, actions), concurrency)
    decreases |actions|
  {
    if actions != [] {
      StepInv(g, actions[0], concurrency);
      ExecInv(Apply(g, actions[0]), actions[1..], concurrency);
    }
  }

  // ----- How many slots a window holds -------------------------------------------------------

  function SlotsIn(slots: seq<int>, from: int, window: nat): nat
    decreases |slots|
  {
    if slots == [] then 0
    else SlotsIn(slots[..|slots| - 1], from, window) + (if from <= slots[|slots| - 1] < from + window then 1 else 0)
  }

  ghost predicate Apart(slots: seq<int>, interval: nat) {
    forall i :: 0 < i < |slots| ==> slots[i] >= slots[i - 1] + interval
  }

  /** The slots inside a window take one interval each, but for the last. */
  lemma {:induction false} WindowHolds(slots: seq<int>, interval: nat, from: int, window: nat)
    requires Apart(slots, interval)
    ensures var n := SlotsIn(slots, from, window);
      n > 0 ==> (n - 1) * interval < window && |slots| > 0 && slots[|slots| - 1] >= from + (n - 1) * interval
    decreases |slots|
  {
    if slots != [] {
      var k := |slots| - 1;
      WindowHolds(slots[..k], interval, from, window);
      var m := SlotsIn(slots[..k], from, window);
      if m > 0 {
        assert slots[k] >= slots[k - 1] + interval >= from + (m - 1) * interval + interval == from + m * interval;
      }
    }
  }

  lemma FewEnough(n: nat, requests: nat, window: nat)
    requires requests > 0 && window > 0 && window % requests == 0
    requires n > 0 ==> (n - 1) * (window / requests) < window
    ensures n <= requests
  {
  }

  /** A run in which one caller after another finds its slot free at once. */
  function Steady(interval: nat, n: nat): seq<Action> {
    if n == 0 then []
    else Steady(interval, n - 1) + [Tick((n - 1) * interval), Acquire(0), Reserve(0), Wake(0), Release(0)]
  }

  function Multiples(interval: nat, n: nat): seq<int> {
    seq(n, i requires 0 <= i < n => i * interval)
  }

  lemma {:induction false} ExecAppend(g: Gate, first: seq<Action>, rest: seq<Action>)
    ensures Exec(g, first + rest) == Exec(Exec(g, first), rest)
    decreases |first|
  {
    if first == [] {
      assert first + rest == rest;
    } else {
      assert (first + rest)[1..] == first[1..] + rest;
      ExecAppend(Apply(g, first[0]), first[1..], rest);
    }
  }

  lemma {:induction false} SteadySlots(interval: nat, concurrency: nat, n: nat)
    requires concurrency > 0 && interval > 0
    ensures var g := Exec(Fresh(0, concurrency, interval), Steady(interval, n));
      && g.limited && g.interval == interval && g.free == concurrency && g.callers == map[]
      && g.clock == (if n == 0 then 0 else (n - 1) * interval) && g.nextStart == n * interval
      && g.slots == Multiples(interval, n)
    decreases n
  {
    if n > 0 {
      var turn := [Tick((n - 1) * interval), Acquire(0), Reserve(0), Wake(0), Release(0)];
      SteadySlots(interval, concurrency, n - 1);
      var g := Exec(Fresh(0, concurrency, interval), Steady(interval, n - 1));
      ExecAppend(Fresh(0, concurrency, interval), Steady(interval, n - 1), turn);
      SteadyTurn(g, n - 1);
      assert Multiples(interval, n) == Multiples(interval, n - 1) + [(n - 1) * interval];
    }
  }

  lemma SteadyTurn(g: Gate, n: nat)
    requires g.limited && g.free > 0 && g.callers == map[] && g.clock <= n * g.interval && g.nextStart == n * g.interval
    ensures var later := Exec(g, [Tick(n * g.interval), Acquire(0), Reserve(0), Wake(0), Release(0)]);
      later == g.(clock := n * g.interval, nextStart := n * g.interval + g.interval,
                    slots := g.slots + [n * g.interval])
  {
    var at := n * g.interval;
    var a := Reserved(g.(clock := at, free := g.free - 1, callers := map[0 := Permitted]), 0);
    var first, rest := [Tick(at), Acquire(0), Reserve(0)], [Wake(0), Release(0)];
    assert first + rest == [Tick(at), Acquire(0), Reserve(0), Wake(0), Release(0)];
    ExecAppend(g, first, rest);
    SteadyIn(g, at);
    assert a.callers == map[0 := Sleeping(|a.slots| - 1)];
    SteadyOut(a);
    assert Left(a.(callers := map[0 := Entered]), 0).callers == g.callers;
  }

  lemma SteadyIn(g: Gate, at: int)
    requires g.limited && g.free > 0 && g.callers == map[] && g.clock <= at
    ensures Exec(g, [Tick(at), Acquire(0), Reserve(0)])
      == Reserved(g.(clock := at, free := g.free - 1, callers := map[0 := Permitted]), 0)
  {
    var a := g.(clock := at);
    var b := a.(free := g.free - 1, callers := map[0 := Permitted]);
    var turn := [Tick(at), Acquire(0), Reserve(0)];
    assert turn[1..] == [Acquire(0), Reserve(0)] && turn[1..][1..] == [Reserve(0)] && turn[1..][1..][1..] == [];
    assert Apply(g, turn[0]) == a && Apply(a, Acquire(0)) == b && Apply(b, Reserve(0)) == Reserved(b, 0);
    assert Exec(b, [Reserve(0)]) == Exec(Reserved(b, 0), []) == Reserved(b, 0);
  }

  lemma SteadyOut(g: Gate)
    requires |g.slots| > 0 && g.callers == map[0 := Sleeping(|g.slots| - 1)] && g.slots[|g.slots| - 1] <= g.clock
    ensures Exec(g, [Wake(0), Release(0)]) == Left(g.(callers := map[0 := Entered]), 0)
  {
    var turn := [Wake(0), Release(0)];
    assert turn[1..] == [Release(0)] && turn[1..][1..] == [];
    assert Apply(g, turn[0]) == g.(callers := map[0 := Entered]);
  }

  lemma {:induction false} MultiplesIn(interval: nat, n: nat, window: nat)
    requires n > 0 ==> (n - 1) * interval < window
    ensures SlotsIn(Multiples(interval, n), 0, window) == n
    decreases n
  {
    if n > 0 {
      assert Multiples(interval, n)[..n - 1] == Multiples(interval, n - 1);
      assert 0 <= (n - 1) * interval;
      assert n > 1 ==> (n - 2) * interval <= (n - 1) * interval;
      MultiplesIn(interval, n - 1, window);
    }
  }

  /** Whether no run puts more than `requests` slots into a window. */
  ghost predicate KeepsRate(requests: nat, window: nat, concurrency: nat, interval: nat) {
    forall clock, actions, from ::
      SlotsIn(Exec(Fresh(clock, concurrency, interval), actions).slots, from, window) <= requests
  }

  /**
   * The gate lets at most the configured number of requests have slots in any window exactly when
   * that number divides the window; otherwise the interval is rounded down and one more can fit.
   */
  lemma RateIsKept(requests: nat, window: nat, concurrency: nat)
    requires concurrency > 0 && Interval(requests, window).Ok?
    ensures KeepsRate(requests, window, concurrency, window / requests) <==> window % requests == 0
  {
    var interval := window / requests;
    if window % requests == 0 {
      forall clock, actions, from
        ensures SlotsIn(Exec(Fresh(clock, concurrency, interval), actions).slots, from, window) <= requests
      {
        var g := Fresh(clock, concurrency, interval);
        ExecInv(g, actions, concurrency);
        IntervalStays(g, actions);
        WindowHolds(Exec(g, actions).slots, interval, from, window);
        FewEnough(SlotsIn(Exec(g, actions).slots, from, window), requests, window);
      }
    } else {
      assert requests * interval < window;
      SteadySlots(interval, concurrency, requests + 1);
      MultiplesIn(interval, requests + 1, window);
      assert SlotsIn(Exec(Fresh(0, concurrency, interval), Steady(interval, requests + 1)).slots, 0, window) > requests;
    }
  }

  lemma {:induction false} IntervalStays(g: Gate, actions: seq<Action>)
    ensures Exec(g, actions).interval == g.interval && Exec(g, actions).limited == g.limited
    decreases |actions|
  {
    if actions != [] {
      IntervalStays(Apply(g, actions[0]), actions[1..]);
    }
  }

  // ----- How long a caller with a permit waits -----------------------------------------------

  /** The slots still to come. */
  function Future(g: Gate): set<nat> {
    set i | 0 <= i < |g.slots| && g.slots[i] > g.clock
  }

  lemma {:induction false} ImageSize(callers: map<Caller, Phase>, who: set<Caller>)
    requires forall c :: c in who ==> c in callers && callers[c].Sleeping?
    ensures |set c | c in who :: callers[c].slot| <= |who|
    decreases |who|
  {
    if who != {} {
      var c :| c in who;
      var rest := who - {c};
      ImageSize(callers, rest);
      assert (set x | x in who :: callers[x].slot) == (set x | x in rest :: callers[x].slot) + {callers[c].slot};
    }
  }

  lemma SubsetSize<T>(a: set<T>, b: set<T>)
    requires a <= b
    ensures |a| <= |b|
  {
    assert b == a + (b - a);
    assert |b| == |a| + |b - a|;
  }

  /** The slots still to come are no more than the other callers with permits and the abandoned slots. */
  lemma FutureIsShort(g: Gate, caller: Caller, concurrency: nat)
    requires Inv(g, concurrency) && caller in g.callers && g.callers[caller].Permitted?
    ensures |Future(g)| + 1 <= concurrency + |g.abandoned|
  {
    var sleepers := Sleepers(g.callers);
    ImageSize(g.callers, sleepers);
    assert SlotsOf(g.callers) == set c | c in sleepers :: g.callers[c].slot;
    assert sleepers <= g.callers.Keys - {caller};
    SubsetSize(sleepers, g.callers.Keys - {caller});
    SubsetSize(Future(g), SlotsOf(g.callers) + g.abandoned);
    assert |SlotsOf(g.callers) + g.abandoned| <= |SlotsOf(g.callers)| + |g.abandoned|;
  }

  /** The slots to come stand exactly one interval apart after one that has passed. */
  lemma {:induction false} LastAt(slots: seq<int>, nextStart: int, interval: nat, clock: int, k: nat, n: nat)
    requires Spaced(slots, nextStart, interval, clock) && 0 < k <= n <= |slots|
    requires forall i :: k <= i < n ==> slots[i] > clock
    ensures slots[n - 1] == slots[k - 1] + (n - k) * interval
    decreases n - k
  {
    if k < n {
      LastAt(slots, nextStart, interval, clock, k, n - 1);
      assert (n - 1 - k) * interval + interval == (n - k) * interval;
    }
  }

  lemma {:induction false} FirstFuture(g: Gate, n: nat) returns (k: nat)
    requires n <= |g.slots| && (n == 0 || g.slots[0] <= g.clock)
    ensures k <= n && (n > 0 ==> k > 0 && g.slots[k - 1] <= g.clock)
    ensures forall i :: k <= i < n ==> g.slots[i] > g.clock
    decreases n
  {
    if n == 0 || g.slots[n - 1] <= g.clock {
      k := n;
    } else {
      k := FirstFuture(g, n - 1);
    }
  }

  lemma IndexRange(s: set<nat>, lo: nat, hi: nat)
    requires lo <= hi && forall i :: lo <= i < hi ==> i in s
    ensures hi - lo <= |s|
    decreases hi - lo
  {
    if lo < hi {
      IndexRange(s - {lo}, lo + 1, hi);
    }
  }

  lemma NextIsNear(g: Gate, concurrency: nat)
    requires Inv(g, concurrency)
    ensures g.nextStart <= g.clock + (|Future(g)| + 1) * g.interval
  {
    if g.slots == [] {
      Longer(0, |Future(g)| + 1, g.interval);
    } else {
      var n := |g.slots|;
      var k := FirstFuture(g, n);
      LastAt(g.slots, g.nextStart, g.interval, g.clock, k, n);
      IndexRange(Future(g), k, n);
      assert (n - k) * g.interval + g.interval == (n - k + 1) * g.interval;
      Longer(n - k + 1, |Future(g)| + 1, g.interval);
    }
  }

  /**
   * In every run a caller that holds a permit gets a slot no later than one interval for each permit,
   * and one for each caller that has given up in its sleep, after it asked.
   */
  lemma SlotIsNear(clock: int, concurrency: nat, interval: nat, actions: seq<Action>, caller: Caller)
    requires var g := Exec(Fresh(clock, concurrency, interval), actions);
      caller in g.callers && g.callers[caller].Permitted?
    ensures var g := Exec(Fresh(clock, concurrency, interval), actions);
      g.clock <= Slot(g.nextStart, g.clock) <= g.clock + (concurrency + |g.abandoned|) * interval
  {
    var g := Exec(Fresh(clock, concurrency, interval), actions);
    ExecInv(Fresh(clock, concurrency, interval), actions, concurrency);
    IntervalStays(Fresh(clock, concurrency, interval), actions);
    FutureIsShort(g, caller, concurrency);
    NextIsNear(g, concurrency);
    Longer(|Future(g)| + 1, concurrency + |g.abandoned|, interval);
    Longer(0, concurrency + |g.abandoned|, interval);
  }

  lemma Longer(a: nat, b: nat, interval: nat)
    ensures a <= b ==> a * interval <= b * interval
  {
  }

  predicate NoCancel(actions: seq<Action>) {
    forall i :: 0 <= i < |actions| ==> !actions[i].Cancel?
  }

  lemma {:induction false} NothingAbandoned(g: Gate, actions: seq<Action>)
    requires NoCancel(actions) && g.abandoned == {}
    ensures Exec(g, actions).abandoned == {}
    decreases |actions|
  {
    if actions != [] {
      NothingAbandoned(Apply(g, actions[0]), actions[1..]);
    }
  }

  /** When no caller is cancelled the wait is at most one interval for each permit. */
  lemma SlotWithinConcurrency(clock: int, concurrency: nat, interval: nat, actions: seq<Action>, caller: Caller)
    requires NoCancel(actions)
    requires var g := Exec(Fresh(clock, concurrency, interval), actions);
      caller in g.callers && g.callers[caller].Permitted?
    ensures var g := Exec(Fresh(clock, concurrency, interval), actions);
      Slot(g.nextStart, g.clock) <= g.clock + concurrency * interval
  {
    NothingAbandoned(Fresh(clock, concurrency, interval), actions);
    SlotIsNear(clock, concurrency, interval, actions, caller);
  }

  // ----- Permits -----------------------------------------------------------------------------

  function Started(clock: int, concurrency: nat, interval: Option<nat>): Gate {
    if interval.Some? then Fresh(clock, concurrency, interval.value) else Unlimited(clock, concurrency)
  }

  /** In every run, with a rate or without, no permit is lost and no more are held than there are. */
  lemma PermitsAreKept(clock: int, concurrency: nat, interval: Option<nat>, actions: seq<Action>)
    ensures var g := Exec(Started(clock, concurrency, interval), actions);
      g.free + |g.callers| == concurrency && |g.callers| <= concurrency
  {
    ExecInv(Started(clock, concurrency, interval), actions, concurrency);
  }

  ghost predicate NobodySleeps(g: Gate) {
    !g.limited && g.slots == [] && forall c :: c in g.callers ==> !g.callers[c].Sleeping?
  }

  lemma {:induction false} UnlimitedRun(g: Gate, actions: seq<Action>)
    requires NobodySleeps(g)
    ensures NobodySleeps(Exec(g, actions))
    decreases |actions|
  {
    if actions != [] {
      UnlimitedRun(Apply(g, actions[0]), actions[1..]);
    }
  }

  /** Without a rate nobody ever sleeps: in every run a caller with a permit enters at once. */
  lemma EntersAtOnce(clock: int, concurrency: nat, actions: seq<Action>, caller: Caller)
    ensures var g := Exec(Unlimited(clock, concurrency), actions);
      caller in g.callers ==> !g.callers[caller].Sleeping? && Apply(g, Reserve(caller)).callers[caller] == Entered
  {
    UnlimitedRun(Unlimited(clock, concurrency), actions);
  }

  /** A caller that leaves, having entered or given up before, frees its permit, and only its own. */
  lemma LeavingFrees(g: Gate, action: Action)
    requires action.Release? || action.Cancel?
    requires action.caller in g.callers && (action.Release? <==> g.callers[action.caller].Entered?)
    ensures var next := Apply(g, action);
      && next.free == g.free + 1 && next.callers == g.callers - {action.caller}
      && next.slots == g.slots && next.nextStart == g.nextStart
  {
  }

  // ----- The gate as an object ---------------------------------------------------------------

  class PixivRequestGate {
    const limited: bool
    const interval: nat
    var nextStart: int
    var free: nat
    ghost var callers: map<Caller, Phase>
    ghost var slots: seq<int>
    ghost var abandoned: set<nat>

    ghost function At(clock: int): Gate
      reads this
    {
      Gate(clock, limited, interval, nextStart, free, callers, slots, abandoned)
    }

    constructor (concurrency: nat, rate: Option<nat>, now: int)
      ensures At(now) == Started(now, concurrency, rate) && Inv(At(now), concurrency)
    {
      limited, interval := rate.Some?, if rate.Some? then rate.value else 0;
      nextStart, free := now, concurrency;
      callers, slots, abandoned := map[], [], {};
    }

    /** Takes a permit if one is left. */
    method TryAcquire(now: int, ghost caller: Caller) returns (taken: bool)
      requires caller !in callers
      modifies this`free, this`callers
      ensures taken <==> old(free) > 0
      ensures At(now) == Apply(old(At(now)), Acquire(caller))
    {
      taken := free > 0;
      if taken {
        free := free - 1;
        callers := callers[caller := Permitted];
      }
    }

    /** Reserves the next slot, until which the caller then sleeps; without a rate it enters. */
    method Wait(now: int, ghost caller: Caller) returns (scheduled: Option<int>)
      requires caller in callers && callers[caller].Permitted?
      modifies this`nextStart, this`slots, this`callers
      ensures At(now) == Apply(old(At(now)), Reserve(caller))
      ensures scheduled.Some? <==> limited
      ensures match scheduled
        case Some(slot) => slot >= now && slots == old(slots) + [slot]
        case None => callers[caller] == Entered && slots == old(slots)
    {
      if !limited {
        callers := callers[caller := Entered];
        return None;
      }
      var slot := if nextStart < now then now else nextStart;
      nextStart := slot + interval;
      callers := callers[caller := Sleeping(|slots|)];
      slots := slots + [slot];
      return Some(slot);
    }

    /** Gives the permit back once the request is over. */
    method Release(now: int, ghost caller: Caller)
      requires caller in callers && callers[caller].Entered?
      modifies this`free, this`callers
      ensures At(now) == Apply(old(At(now)), Action.Release(caller))
    {
      free := free + 1;
      callers := callers - {caller};
    }
  }

  datatype Rate = Rate(requests: nat, window: nat)

  predicate Refuses(rate: Option<Rate>) {
    rate.Some? && (rate.value.requests == 0 || rate.value.window < rate.value.requests)
  }

  /** A gate for so many requests in a window, or for as many as come, or why there can be none. */
  method NewGate(concurrency: nat, rate: Option<Rate>, now: int) returns (result: Result<PixivRequestGate, GateError>)
    ensures result.Err? <==> concurrency == 0 || Refuses(rate)
    ensures result.Err? ==> result.error == (if concurrency == 0 then InvalidConcurrency else InvalidRate)
    ensures result.Ok? ==> fresh(result.value)
    ensures result.Ok? && rate.None? ==> result.value.At(now) == Unlimited(now, concurrency)
    ensures result.Ok? && rate.Some? ==>
      result.value.At(now) == Fresh(now, concurrency, rate.value.window / rate.value.requests)
  {
    if concurrency == 0 {
      return Err(InvalidConcurrency);
    }
    var spacing: Option<nat> := None;
    if rate.Some? {
      var interval := Interval(rate.value.requests, rate.value.window);
      if interval.Err? {
        return Err(interval.error);
      }
      spacing := Some(interval.value);
    }
    var gate := new PixivRequestGate(concurrency, spacing, now);
    return Ok(gate);
  }
}

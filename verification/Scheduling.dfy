/** Which priority a worker serves next, and when a subscription runs next. */
module Scheduling {
  import opened Results

  // ----- The quota rotation ------------------------------------------------------------------

  datatype Priority = Immediate | ManualImport | ScheduledCollection | BackgroundMaintenance

  datatype Weights = Weights(immediate: nat, manualImport: nat, scheduledCollection: nat, backgroundMaintenance: nat)

  datatype QuotaError = ZeroWeight

  predicate ValidWeights(w: Weights) {
    w.immediate > 0 && w.manualImport > 0 && w.scheduledCollection > 0 && w.backgroundMaintenance > 0
  }

  /** Weights for a rotation, none of which may be zero. */
  function NewWeights(immediate: nat, manualImport: nat, scheduledCollection: nat, backgroundMaintenance: nat)
    : (result: Result<Weights, QuotaError>)
    ensures result.Ok? <==> 0 !in {immediate, manualImport, scheduledCollection, backgroundMaintenance}
    ensures result.Ok? ==> ValidWeights(result.value)
    ensures result.Ok? ==>
      && WeightOf(result.value, Immediate) == immediate && WeightOf(result.value, ManualImport) == manualImport
      && WeightOf(result.value, ScheduledCollection) == scheduledCollection
      && WeightOf(result.value, BackgroundMaintenance) == backgroundMaintenance
  {
    if immediate == 0 || manualImport == 0 || scheduledCollection == 0 || backgroundMaintenance == 0 then
      Err(ZeroWeight)
    else Ok(Weights(immediate, manualImport, scheduledCollection, backgroundMaintenance))
  }

  function WeightOf(w: Weights, p: Priority): nat {
    match p
    case Immediate => w.immediate
    case ManualImport => w.manualImport
    case ScheduledCollection => w.scheduledCollection
    case BackgroundMaintenance => w.backgroundMaintenance
  }

  function Total(w: Weights): nat {
    w.immediate + w.manualImport + w.scheduledCollection + w.backgroundMaintenance
  }

  function Repeat(p: Priority, n: nat): seq<Priority> {
    seq(n, i => p)
  }

  function Sequence(w: Weights): seq<Priority> {
    Repeat(ManualImport, w.manualImport) + Repeat(Immediate, w.immediate)
    + Repeat(ScheduledCollection, w.scheduledCollection) + Repeat(BackgroundMaintenance, w.backgroundMaintenance)
  }

  function Count(s: seq<Priority>, p: Priority): nat
    decreases |s|
  {
    if s == [] then 0 else (if s[0] == p then 1 else 0) + Count(s[1..], p)
  }

  lemma {:induction false} CountRepeat(q: Priority, n: nat, p: Priority)
    ensures Count(Repeat(q, n), p) == if p == q then n else 0
    decreases n
  {
    if n > 0 {
      assert Repeat(q, n)[1..] == Repeat(q, n - 1);
      CountRepeat(q, n - 1, p);
    }
  }

  lemma {:induction false} CountJoin(a: seq<Priority>, b: seq<Priority>, p: Priority)
    ensures Count(a + b, p) == Count(a, p) + Count(b, p)
    decreases |a|
  {
    if a == [] {
      assert a + b == b;
    } else {
      assert (a + b)[1..] == a[1..] + b;
      CountJoin(a[1..], b, p);
    }
  }

  lemma SequenceCounts(w: Weights, p: Priority)
    ensures |Sequence(w)| == Total(w) && Count(Sequence(w), p) == WeightOf(w, p)
  {
    var a, b := Repeat(ManualImport, w.manualImport), Repeat(Immediate, w.immediate);
    var c := Repeat(ScheduledCollection, w.scheduledCollection);
    var d := Repeat(BackgroundMaintenance, w.backgroundMaintenance);
    CountJoin(a, b, p);
    CountJoin(a + b, c, p);
    CountJoin(a + b + c, d, p);
    CountRepeat(ManualImport, w.manualImport, p);
    CountRepeat(Immediate, w.immediate, p);
    CountRepeat(ScheduledCollection, w.scheduledCollection, p);
    CountRepeat(BackgroundMaintenance, w.backgroundMaintenance, p);
  }

  function Advance(cursor: nat, size: nat): (next: nat)
    requires cursor < size
    ensures next == if cursor + 1 == size then 0 else cursor + 1
  {
    (cursor + 1) % size
  }

  /** The primary priorities of `n` ticks, when the rotation stands at `cursor`. */
  function Primaries(s: seq<Priority>, cursor: nat, n: nat): seq<Priority>
    requires cursor < |s|
    decreases n
  {
    if n == 0 then [] else [s[cursor]] + Primaries(s, Advance(cursor, |s|), n - 1)
  }

  lemma PrimariesFirst(s: seq<Priority>, cursor: nat, n: nat)
    requires cursor < |s| && n > 0
    ensures Primaries(s, cursor, n) == [s[cursor]] + Primaries(s, Advance(cursor, |s|), n - 1)
  {
  }

  lemma {:induction false} PrimariesStraight(s: seq<Priority>, cursor: nat, n: nat)
    requires cursor < |s| && cursor + n <= |s|
    ensures Primaries(s, cursor, n) == s[cursor..cursor + n]
    decreases n
  {
    if n > 0 {
      PrimariesFirst(s, cursor, n);
      assert s[cursor..cursor + n] == [s[cursor]] + s[cursor + 1..cursor + n];
      if n > 1 {
        PrimariesStraight(s, cursor + 1, n - 1);
      }
    }
  }

  lemma FirstOf(s: seq<Priority>, cursor: nat, rest: seq<Priority>)
    requires cursor < |s|
    ensures s[cursor..] + rest == [s[cursor]] + (s[cursor + 1..] + rest)
  {
  }

  /** At the end of the sequence the rotation starts over. */
  lemma {:induction false} PrimariesWrap(s: seq<Priority>, cursor: nat, n: nat)
    requires cursor < |s|
    ensures Primaries(s, cursor, |s| - cursor + n) == s[cursor..] + Primaries(s, 0, n)
    decreases |s| - cursor
  {
    PrimariesFirst(s, cursor, |s| - cursor + n);
    FirstOf(s, cursor, Primaries(s, 0, n));
    if cursor + 1 < |s| {
      PrimariesWrap(s, cursor + 1, n);
    }
  }

  /** In any window of as many ticks as the weights add up to, each priority is primary its weight times. */
  lemma WindowIsFair(w: Weights, cursor: nat, p: Priority)
    requires cursor < Total(w)
    ensures |Sequence(w)| == Total(w)
    ensures Count(Primaries(Sequence(w), cursor, Total(w)), p) == WeightOf(w, p)
  {
    var s := Sequence(w);
    SequenceCounts(w, p);
    PrimariesWrap(s, cursor, cursor);
    PrimariesStraight(s, 0, cursor);
    CountJoin(s[cursor..], s[..cursor], p);
    CountJoin(s[..cursor], s[cursor..], p);
    assert s == s[..cursor] + s[cursor..];
  }

  function Fallback(primary: Priority, order: seq<Priority>): seq<Priority>
    decreases |order|
  {
    if order == [] then []
    else (if order[0] != primary then [order[0]] else []) + Fallback(primary, order[1..])
  }

  const FallbackOrder: seq<Priority> := [ManualImport, Immediate, ScheduledCollection, BackgroundMaintenance]

  function WithFallback(primary: Priority): seq<Priority> {
    [primary] + Fallback(primary, FallbackOrder)
  }

  class QueueQuotaRotation {
    const sequence: seq<Priority>
    var cursor: nat

    ghost predicate Valid()
      reads this
    {
      cursor < |sequence|
    }

    constructor (weights: Weights)
      requires ValidWeights(weights)
      ensures Valid() && sequence == Sequence(weights) && cursor == 0
    {
      sequence, cursor := Sequence(weights), 0;
      new;
      SequenceCounts(weights, Immediate);
    }

    /** The next primary priority, followed by the other three in their fixed order. */
    method NextSelection() returns (priorities: seq<Priority>)
      requires Valid()
      modifies this
      ensures Valid() && cursor == Advance(old(cursor), |sequence|)
      ensures priorities == WithFallback(sequence[old(cursor)])
    {
      var primary := sequence[cursor];
      cursor := (cursor + 1) % |sequence|;
      priorities := SelectWithFallback(primary, FallbackOrder);
    }
  }

  method SelectWithFallback(primary: Priority, order: seq<Priority>) returns (priorities: seq<Priority>)
    ensures priorities == [primary] + Fallback(primary, order)
  {
    priorities := [primary];
    var i := 0;
    while i < |order|
      invariant 0 <= i <= |order|
      invariant priorities + Fallback(primary, order[i..]) == [primary] + Fallback(primary, order)
    {
      assert order[i..][1..] == order[i + 1..];
      if order[i] != primary {
        priorities := priorities + [order[i]];
      }
      i := i + 1;
    }
  }

  /** The list tried for a job holds all four priorities, each once. */
  lemma FallbackIsAll(primary: Priority)
    ensures |WithFallback(primary)| == 4 && WithFallback(primary)[0] == primary
    ensures forall p: Priority :: p in WithFallback(primary)
  {
    var a := FallbackOrder;
    assert a[1..] == [Immediate, ScheduledCollection, BackgroundMaintenance];
    assert a[1..][1..] == [ScheduledCollection, BackgroundMaintenance];
    assert a[1..][1..][1..] == [BackgroundMaintenance] && a[1..][1..][1..][1..] == [];
    assert Fallback(primary, []) == [];
    assert Fallback(primary, a[1..][1..][1..])
      == if primary == BackgroundMaintenance then [] else [BackgroundMaintenance];
    forall p: Priority
      ensures p in WithFallback(primary)
    {
      match p
      case Immediate =>
      case ManualImport =>
      case ScheduledCollection =>
      case BackgroundMaintenance =>
    }
  }

  // ----- The subscription schedule -----------------------------------------------------------

  /** Instants and durations in nanoseconds; the representable dates are the years -9999 to 9999. */
  const Second: int := 1_000_000_000
  const MinInstant: int := -377_705_116_800 * Second
  const MaxInstant: int := 253_402_300_800 * Second - 1
  const I64Max: int := 0x7FFF_FFFF_FFFF_FFFF
  const MinInterval: int := 15
  const MaxInterval: int := 43_200
  const MaxLookback: int := 7

  datatype Schedule = Schedule(intervalMinutes: int, lookbackPages: int)

  datatype ScheduleError = IntervalMinutes | LookbackPages | OutOfRange

  predicate Representable(instant: int) {
    MinInstant <= instant <= MaxInstant
  }

  function NewSchedule(intervalMinutes: int, lookbackPages: int): Result<Schedule, ScheduleError> {
    if !(MinInterval <= intervalMinutes <= MaxInterval) then Err(IntervalMinutes)
    else if !(0 <= lookbackPages <= MaxLookback) then Err(LookbackPages)
    else Ok(Schedule(intervalMinutes, lookbackPages))
  }

  /** An interval of a quarter of an hour to thirty days, and up to seven pages to look back. */
  lemma ScheduleIs(intervalMinutes: int, lookbackPages: int)
    ensures var outcome := NewSchedule(intervalMinutes, lookbackPages);
      var interval := 15 <= intervalMinutes <= 30 * 24 * 60;
      && (outcome == Err(IntervalMinutes) <==> !interval)
      && (outcome == Err(LookbackPages) <==> interval && (lookbackPages < 0 || lookbackPages > 7))
      && (outcome.Ok? <==> interval && 0 <= lookbackPages <= 7)
      && (outcome.Ok? ==> outcome.value == Schedule(intervalMinutes, lookbackPages))
  {
  }

  predicate ValidSchedule(s: Schedule) {
    NewSchedule(s.intervalMinutes, s.lookbackPages) == Ok(s)
  }

  function CheckedI64(n: int): Result<int, ScheduleError> {
    if -I64Max - 1 <= n <= I64Max then Ok(n) else Err(OutOfRange)
  }

  function NextRunAfter(s: Schedule, scheduledFor: int, now: int): Result<int, ScheduleError>
    requires s.intervalMinutes > 0
  {
    if scheduledFor > now then Ok(scheduledFor)
    else
      match CheckedI64(s.intervalMinutes * 60)
      case Err(error) => Err(error)
      case Ok(interval) =>
        match CheckedI64((now - scheduledFor) / Second / interval + 1)
        case Err(error) => Err(error)
        case Ok(occurrences) =>
          match CheckedI64(interval * occurrences)
          case Err(error) => Err(error)
          case Ok(advance) =>
            var next := scheduledFor + advance * Second;
            if Representable(next) then Ok(next) else Err(OutOfRange)
  }

  function IntervalOf(s: Schedule): int {
    s.intervalMinutes * 60 * Second
  }

  /** The instants `scheduledFor`, one interval later, two intervals later and so on. */
  ghost predicate OnGrid(s: Schedule, scheduledFor: int, instant: int) {
    exists k: nat :: instant == scheduledFor + k * IntervalOf(s)
  }

  lemma WholeSeconds(elapsed: int, interval: int)
    requires elapsed >= 0 && interval > 0
    ensures var k := elapsed / Second / interval;
      k >= 0 && k * interval * Second <= elapsed < (k + 1) * interval * Second
  {
  }

  /** How many intervals lie between a planned time and the first later instant of its grid. */
  function Steps(s: Schedule, scheduledFor: int, now: int): int
    requires s.intervalMinutes > 0
  {
    if scheduledFor > now then 0 else (now - scheduledFor) / Second / (s.intervalMinutes * 60) + 1
  }

  lemma StepsAreLeast(s: Schedule, scheduledFor: int, now: int)
    requires ValidSchedule(s)
    ensures var k := Steps(s, scheduledFor, now);
      && k >= 0 && now < scheduledFor + k * IntervalOf(s)
      && (k > 0 ==> scheduledFor + (k - 1) * IntervalOf(s) <= now)
  {
  }

  lemma Regroup(k: int, minutes: int)
    ensures k * minutes * Second == k * (minutes * Second)
    ensures minutes * k * Second == k * (minutes * Second)
  {
  }

  lemma NoOverflow(s: Schedule, scheduledFor: int, now: int)
    requires ValidSchedule(s) && Representable(scheduledFor) && Representable(now) && scheduledFor <= now
    ensures var minutes := s.intervalMinutes * 60; var k := Steps(s, scheduledFor, now);
      0 < k <= I64Max && 0 <= minutes * k <= I64Max && minutes <= I64Max
  {
    var minutes := s.intervalMinutes * 60;
    WholeSeconds(now - scheduledFor, minutes);
    Bounded(now - scheduledFor, (now - scheduledFor) / Second / minutes, minutes);
  }

  /**
   * The next run is the first instant of the grid that is strictly after now, to the nanosecond, and
   * it is refused only when it is no date; none of the integer operations overflows.
   */
  lemma NextRunIsLeast(s: Schedule, scheduledFor: int, now: int)
    requires ValidSchedule(s) && Representable(scheduledFor) && Representable(now)
    ensures var k := Steps(s, scheduledFor, now); var next := scheduledFor + k * IntervalOf(s);
      && NextRunAfter(s, scheduledFor, now) == (if next <= MaxInstant then Ok(next) else Err(OutOfRange))
      && now < next && (k > 0 ==> next - IntervalOf(s) <= now)
  {
    StepsAreLeast(s, scheduledFor, now);
    var k := Steps(s, scheduledFor, now);
    assert (k - 1) * IntervalOf(s) == k * IntervalOf(s) - IntervalOf(s);
    if scheduledFor <= now {
      NoOverflow(s, scheduledFor, now);
      Regroup(k, s.intervalMinutes * 60);
    }
  }

  /** No instant of the grid lies between now and the next run. */
  lemma NothingBetween(s: Schedule, scheduledFor: int, now: int, j: nat)
    requires ValidSchedule(s) && scheduledFor + j * IntervalOf(s) > now
    ensures j >= Steps(s, scheduledFor, now)
  {
    StepsAreLeast(s, scheduledFor, now);
    Product(j, Steps(s, scheduledFor, now) - 1, IntervalOf(s));
  }

  lemma Bounded(elapsed: int, k: int, minutes: int)
    requires 0 <= k && 0 < minutes <= MaxInterval * 60 && k * minutes * Second <= elapsed <= MaxInstant - MinInstant
    ensures k + 1 <= I64Max && minutes * (k + 1) <= I64Max && minutes * (k + 1) >= 0
  {
  }

  lemma Product(a: int, b: int, c: int)
    requires c >= 0
    ensures a <= b ==> a * c <= b * c
  {
  }

  /** A scan passes over a subscription that is not due; one that is due is planned again, if there is a date for it. */
  function Replan(s: Schedule, planned: int, notice: int): int
    requires s.intervalMinutes > 0
  {
    if notice < planned then planned
    else
      match NextRunAfter(s, planned, notice)
      case Err(_) => planned
      case Ok(next) => next
  }

  /** The planned time after each scan, at whatever times the scans come. */
  function Plans(s: Schedule, planned: int, notices: seq<int>): seq<int>
    requires s.intervalMinutes > 0
    decreases |notices|
  {
    if notices == [] then []
    else
      var next := Replan(s, planned, notices[0]);
      [next] + Plans(s, next, notices[1..])
  }

  /** The planned time before the `i`-th scan. */
  function PlannedBefore(planned: int, plans: seq<int>, i: nat): int
    requires i <= |plans|
  {
    if i == 0 then planned else plans[i - 1]
  }

  lemma GridJoin(s: Schedule, a: int, b: int, c: int)
    requires OnGrid(s, a, b) && OnGrid(s, b, c)
    ensures OnGrid(s, a, c)
  {
    var j: nat :| b == a + j * IntervalOf(s);
    var k: nat :| c == b + k * IntervalOf(s);
    assert c == a + (j + k) * IntervalOf(s);
  }

  /** A scan moves the planned time exactly when it is due and there is a later date, and then past the scan. */
  lemma ReplanOnGrid(s: Schedule, planned: int, notice: int)
    requires ValidSchedule(s) && Representable(planned) && Representable(notice)
    ensures var next := Replan(s, planned, notice);
      && Representable(next) && OnGrid(s, planned, next)
      && (next == planned <==> notice < planned || NextRunAfter(s, planned, notice) == Err(OutOfRange))
      && (next != planned ==> planned <= notice < next)
  {
    var next := Replan(s, planned, notice);
    if notice < planned || NextRunAfter(s, planned, notice).Err? {
      assert planned == planned + 0 * IntervalOf(s);
    } else {
      NextRunIsLeast(s, planned, notice);
      StepsAreLeast(s, planned, notice);
      var k: nat := Steps(s, planned, notice);
      assert next == planned + k * IntervalOf(s);
    }
    NextRunIsLeast(s, planned, notice);
  }

  /**
   * Scan after scan, early or late, the planned time stays on the first one's grid, never goes back, and
   * moves exactly when the scan finds it due and there is a date left, to after the scan.
   */
  lemma {:induction false} PlansStayOnGrid(s: Schedule, planned: int, notices: seq<int>, i: nat)
    requires ValidSchedule(s) && Representable(planned) && i < |notices|
    requires forall j :: 0 <= j < |notices| ==> Representable(notices[j])
    ensures |Plans(s, planned, notices)| == |notices|
    ensures var plans := Plans(s, planned, notices); var before := PlannedBefore(planned, plans, i);
      && OnGrid(s, planned, plans[i]) && before <= plans[i]
      && (plans[i] == before <==> notices[i] < before || NextRunAfter(s, before, notices[i]) == Err(OutOfRange))
      && (plans[i] != before ==> before <= notices[i] < plans[i])
    decreases |notices|
  {
    var next := Replan(s, planned, notices[0]);
    var plans, rest := Plans(s, planned, notices), Plans(s, next, notices[1..]);
    ReplanOnGrid(s, planned, notices[0]);
    PlansLength(s, next, notices[1..]);
    if i > 0 {
      PlansStayOnGrid(s, next, notices[1..], i - 1);
      assert plans[i] == rest[i - 1] && PlannedBefore(planned, plans, i) == PlannedBefore(next, rest, i - 1);
      GridJoin(s, planned, next, plans[i]);
    }
  }

  lemma {:induction false} PlansLength(s: Schedule, planned: int, notices: seq<int>)
    requires s.intervalMinutes > 0
    ensures |Plans(s, planned, notices)| == |notices|
    decreases |notices|
  {
    if notices != [] {
      PlansLength(s, Replan(s, planned, notices[0]), notices[1..]);
    }
  }
}

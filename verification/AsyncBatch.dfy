/**
 * A batch of asynchronous operations with a bound on how many run at once. Workers take the next
 * index, await its operation and store the outcome; between their awaits they interleave freely.
 */
module AsyncBatch {
  import opened Results

  type WorkerId = nat

  datatype Settled<+T, +E> = Fulfilled(value: T) | Rejected(reason: E)

  datatype BatchError = ConcurrencyNotPositive

  /** A worker looks for an index, awaits the operation of one, or has left its loop. */
  datatype Worker = Looking | Awaiting(index: nat) | Finished

  /** `claims` records every operation started, in order. */
  datatype Batch<+T, +E> = Batch(
    count: nat, nextIndex: nat, workers: seq<Worker>, results: seq<Option<Settled<T, E>>>, claims: seq<nat>)

  function Started<T, E>(count: nat, concurrency: int): Result<Batch<T, E>, BatchError> {
    if concurrency < 1 then Err(ConcurrencyNotPositive)
    else
      var workers := if concurrency < count then concurrency else count;
      Ok(Batch(count, 0, seq(workers, i => Looking), seq(count, i => None), []))
  }

  /** What one worker does up to its next await; `outcome` is how each operation ends. */
  function Step<T, E>(b: Batch<T, E>, w: WorkerId, outcome: nat -> Settled<T, E>): Batch<T, E> {
    if w >= |b.workers| then b
    else
      match b.workers[w]
      case Looking =>
        if b.nextIndex < b.count then
          b.(nextIndex := b.nextIndex + 1, workers := b.workers[w := Awaiting(b.nextIndex)],
             claims := b.claims + [b.nextIndex])
        else b.(workers := b.workers[w := Finished])
      case Awaiting(index) =>
        if index < |b.results|
        then b.(workers := b.workers[w := Looking], results := b.results[index := Some(outcome(index))])
        else b
      case Finished => b
  }

  function Run<T, E>(b: Batch<T, E>, schedule: seq<WorkerId>, outcome: nat -> Settled<T, E>): Batch<T, E>
    decreases |schedule|
  {
    if schedule == [] then b else Run(Step(b, schedule[0], outcome), schedule[1..], outcome)
  }

  ghost predicate Held(workers: seq<Worker>, index: nat) {
    exists w :: 0 <= w < |workers| && workers[w] == Awaiting(index)
  }

  ghost predicate ClaimsSound<T, E>(b: Batch<T, E>) {
    && b.nextIndex <= b.count && |b.claims| == b.nextIndex && |b.results| == b.count
    && (forall i :: 0 <= i < |b.claims| ==> b.claims[i] == i)
    && (forall w :: 0 <= w < |b.workers| && b.workers[w].Awaiting? ==> b.workers[w].index < b.nextIndex)
    && (forall w :: 0 <= w < |b.workers| && b.workers[w].Finished? ==> b.nextIndex == b.count)
  }

  /** No two workers await the same operation. */
  ghost predicate Apart(workers: seq<Worker>) {
    forall v, w :: 0 <= v < w < |workers| && workers[v].Awaiting? ==> workers[v] != workers[w]
  }

  /** A claimed index is awaited or has its outcome; an index not claimed has none. */
  ghost predicate ResultsSound<T, E>(b: Batch<T, E>, outcome: nat -> Settled<T, E>) {
    forall i :: 0 <= i < |b.results| ==>
      && (b.results[i].None? || b.results[i] == Some(outcome(i)))
      && (i < b.nextIndex ==> b.results[i].Some? || Held(b.workers, i))
      && (b.results[i].Some? ==> i < b.nextIndex && !Held(b.workers, i))
  }

  ghost predicate Inv<T, E>(b: Batch<T, E>, outcome: nat -> Settled<T, E>) {
    ClaimsSound(b) && Apart(b.workers) && ResultsSound(b, outcome)
  }

  lemma HeldUpdate(workers: seq<Worker>, w: nat, next: Worker, i: nat)
    requires w < |workers| && Apart(workers)
    ensures Held(workers[w := next], i) <==> next == Awaiting(i) || (Held(workers, i) && workers[w] != Awaiting(i))
  {
    var updated := workers[w := next];
    if Held(workers, i) && workers[w] != Awaiting(i) {
      var v :| 0 <= v < |workers| && workers[v] == Awaiting(i);
      assert updated[v] == Awaiting(i);
    }
    if next == Awaiting(i) {
      assert updated[w] == Awaiting(i);
    }
    if Held(updated, i) && next != Awaiting(i) {
      var v :| 0 <= v < |updated| && updated[v] == Awaiting(i);
      assert v != w && workers[v] == Awaiting(i);
    }
  }

  lemma StepResults<T, E>(b: Batch<T, E>, w: nat, outcome: nat -> Settled<T, E>)
    requires Inv(b, outcome) && w < |b.workers|
    ensures ResultsSound(Step(b, w, outcome), outcome)
  {
    var next := Step(b, w, outcome);
    forall i | 0 <= i < |next.results|
      ensures next.results[i].None? || next.results[i] == Some(outcome(i))
      ensures i < next.nextIndex ==> next.results[i].Some? || Held(next.workers, i)
      ensures next.results[i].Some? ==> i < next.nextIndex && !Held(next.workers, i)
    {
      HeldUpdate(b.workers, w, next.workers[w], i);
      assert b.results[i].None? || b.results[i] == Some(outcome(i));
      if b.workers[w] == Awaiting(i) {
        assert Held(b.workers, i);
      }
      if Held(b.workers, i) {
        var v :| 0 <= v < |b.workers| && b.workers[v] == Awaiting(i);
      }
    }
  }

  lemma StepInv<T, E>(b: Batch<T, E>, w: nat, outcome: nat -> Settled<T, E>)
    requires Inv(b, outcome)
    ensures Inv(Step(b, w, outcome), outcome)
    ensures Step(b, w, outcome).count == b.count && |Step(b, w, outcome).workers| == |b.workers|
  {
    if w < |b.workers| {
      StepResults(b, w, outcome);
    }
  }

  lemma {:induction false} RunInv<T, E>(b: Batch<T, E>, schedule: seq<WorkerId>, outcome: nat -> Settled<T, E>)
    requires Inv(b, outcome)
    ensures Inv(Run(b, schedule, outcome), outcome)
    ensures Run(b, schedule, outcome).count == b.count && |Run(b, schedule, outcome).workers| == |b.workers|
    decreases |schedule|
  {
    if schedule != [] {
      StepInv(b, schedule[0], outcome);
      RunInv(Step(b, schedule[0], outcome), schedule[1..], outcome);
    }
  }

  function InFlight(workers: seq<Worker>): nat
    decreases |workers|
  {
    if workers == [] then 0
    else (if workers[0].Awaiting? then 1 else 0) + InFlight(workers[1..])
  }

  lemma {:induction false} InFlightBound(workers: seq<Worker>)
    ensures InFlight(workers) <= |workers|
    decreases |workers|
  {
    if workers != [] {
      InFlightBound(workers[1..]);
    }
  }

  /**
   * Under every schedule the operations start in the order of the items, each once, and never more
   * than the bound at a time.
   */
  lemma EachStartsOnce<T, E>(count: nat, concurrency: int, schedule: seq<WorkerId>, outcome: nat -> Settled<T, E>)
    requires concurrency >= 1
    ensures var b := Run(Started<T, E>(count, concurrency).value, schedule, outcome);
      && (forall i :: 0 <= i < |b.claims| ==> b.claims[i] == i) && |b.claims| <= count
      && InFlight(b.workers) <= concurrency && InFlight(b.workers) <= count
  {
    var start := Started<T, E>(count, concurrency).value;
    RunInv(start, schedule, outcome);
    InFlightBound(Run(start, schedule, outcome).workers);
  }

  /** When all workers have left their loops, the array holds the outcome of every item, in order. */
  lemma FinishedIsTheMap<T, E>(count: nat, concurrency: int, schedule: seq<WorkerId>, outcome: nat -> Settled<T, E>)
    requires concurrency >= 1
    requires var b := Run(Started<T, E>(count, concurrency).value, schedule, outcome);
      forall w :: 0 <= w < |b.workers| ==> b.workers[w].Finished?
    ensures var b := Run(Started<T, E>(count, concurrency).value, schedule, outcome);
      |b.results| == count && forall i :: 0 <= i < count ==> b.results[i] == Some(outcome(i))
  {
    var start := Started<T, E>(count, concurrency).value;
    RunInv(start, schedule, outcome);
    var b := Run(start, schedule, outcome);
    forall i | 0 <= i < count
      ensures b.results[i] == Some(outcome(i))
    {
      assert b.workers != [] ==> b.workers[0].Finished?;
      assert !Held(b.workers, i);
      assert b.results[i].None? || b.results[i] == Some(outcome(i));
    }
  }

  /** The turns still to be taken. */
  function Turns(workers: seq<Worker>): nat
    decreases |workers|
  {
    if workers == [] then 0
    else (match workers[0] case Looking => 1 case Awaiting(_) => 2 case Finished => 0) + Turns(workers[1..])
  }

  lemma {:induction false} TurnsUpdate(workers: seq<Worker>, w: nat, next: Worker)
    requires w < |workers|
    ensures Turns(workers[w := next]) - Turns([next]) == Turns(workers) - Turns([workers[w]])
    decreases |workers|
  {
    if w == 0 {
      assert workers[0 := next][1..] == workers[1..];
    } else {
      TurnsUpdate(workers[1..], w - 1, next);
      assert workers[w := next][1..] == workers[1..][w - 1 := next];
    }
  }

  /** Every turn of a worker that has not finished brings the whole batch nearer to its end. */
  lemma StepsAreBounded<T, E>(b: Batch<T, E>, w: nat, outcome: nat -> Settled<T, E>)
    requires Inv(b, outcome) && w < |b.workers| && !b.workers[w].Finished?
    ensures var next := Step(b, w, outcome);
      2 * (b.count - next.nextIndex) + Turns(next.workers) < 2 * (b.count - b.nextIndex) + Turns(b.workers)
  {
    TurnsUpdate(b.workers, w, Step(b, w, outcome).workers[w]);
  }

  /** From every state that a batch reaches some schedule brings all its workers to their end. */
  lemma {:induction false} CanBeFinished<T, E>(b: Batch<T, E>, outcome: nat -> Settled<T, E>)
    returns (schedule: seq<WorkerId>)
    requires Inv(b, outcome)
    ensures var end := Run(b, schedule, outcome);
      |end.workers| == |b.workers| && forall w :: 0 <= w < |end.workers| ==> end.workers[w].Finished?
    decreases 2 * (b.count - b.nextIndex) + Turns(b.workers)
  {
    if w :| 0 <= w < |b.workers| && !b.workers[w].Finished? {
      StepsAreBounded(b, w, outcome);
      StepInv(b, w, outcome);
      var rest := CanBeFinished(Step(b, w, outcome), outcome);
      schedule := [w] + rest;
    } else {
      schedule := [];
    }
  }

  /** So every batch can be finished, with an outcome for each of its items. */
  lemma BatchEnds<T, E>(count: nat, concurrency: int, outcome: nat -> Settled<T, E>) returns (schedule: seq<WorkerId>)
    requires concurrency >= 1
    ensures var end := Run(Started<T, E>(count, concurrency).value, schedule, outcome);
      |end.results| == count && forall i :: 0 <= i < count ==> end.results[i] == Some(outcome(i))
  {
    schedule := CanBeFinished(Started<T, E>(count, concurrency).value, outcome);
    FinishedIsTheMap(count, concurrency, schedule, outcome);
  }

  // ----- The batch as the workers share it ---------------------------------------------------

  class SettledBatch<T(0), E(0)> {
    const count: nat
    var nextIndex: nat
    var workers: seq<Worker>
    const results: array<Option<Settled<T, E>>>
    ghost var claims: seq<nat>

    ghost function Snapshot(): Batch<T, E>
      reads this, results
    {
      Batch(count, nextIndex, workers, results[..], claims)
    }

    ghost predicate Valid(outcome: nat -> Settled<T, E>)
      reads this, results
    {
      Inv(Snapshot(), outcome)
    }

    constructor (count: nat, concurrency: nat, ghost outcome: nat -> Settled<T, E>)
      requires concurrency >= 1
      ensures Snapshot() == Started<T, E>(count, concurrency).value && Valid(outcome) && fresh(results)
    {
      this.count, nextIndex, claims := count, 0, [];
      workers := seq(if concurrency < count then concurrency else count, i => Looking);
      results := new Option<Settled<T, E>>[count](i => None);
      new;
      assert results[..] == seq(count, i => None);
    }

    /** A worker's loop head: it takes the next index, or leaves. */
    method TakeNext(w: WorkerId, ghost outcome: nat -> Settled<T, E>) returns (index: Option<nat>)
      requires Valid(outcome) && w < |workers| && workers[w].Looking?
      modifies this
      ensures Valid(outcome) && Snapshot() == Step(old(Snapshot()), w, outcome)
      ensures index == if old(nextIndex) < count then Some(old(nextIndex)) else None
    {
      StepInv(Snapshot(), w, outcome);
      if nextIndex < count {
        index := Some(nextIndex);
        workers := workers[w := Awaiting(nextIndex)];
        claims := claims + [nextIndex];
        nextIndex := nextIndex + 1;
      } else {
        index := None;
        workers := workers[w := Finished];
      }
    }

    /** The end of a worker's await: the outcome goes where its item stood. */
    method Settle(w: WorkerId, settled: Settled<T, E>, ghost outcome: nat -> Settled<T, E>)
      requires Valid(outcome) && w < |workers| && workers[w].Awaiting? && settled == outcome(workers[w].index)
      modifies this, results
      ensures Valid(outcome) && Snapshot() == Step(old(Snapshot()), w, outcome)
    {
      StepInv(Snapshot(), w, outcome);
      var index := workers[w].index;
      results[index] := Some(settled);
      workers := workers[w := Looking];
    }
  }
}

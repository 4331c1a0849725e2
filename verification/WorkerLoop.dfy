/**
 * The worker's main loop: it starts a task at each tick while it accepts work and has room, hands
 * each task its own copy of the quota rotation, and moves its own copy on by one.
 */
module WorkerLoop {
  import opened Scheduling

  /** `firsts` are the priorities that the started tasks try first, in the order of their start. */
  datatype Loop = Loop(accepting: bool, running: bool, active: nat, cursor: nat, firsts: seq<Priority>)

  datatype Event = PollTick | TaskEnds(failed: bool) | StopClaiming | Shutdown

  predicate MayStart(l: Loop, maxConcurrency: nat) {
    l.running && l.accepting && l.active < maxConcurrency
  }

  /** A failed task ends the loop with an error; a shutdown also stops claiming. */
  function Handle(s: seq<Priority>, maxConcurrency: nat, l: Loop, event: Event): Loop
    requires l.cursor < |s|
  {
    match event
    case PollTick =>
      if !MayStart(l, maxConcurrency) then l
      else l.(active := l.active + 1, cursor := Advance(l.cursor, |s|), firsts := l.firsts + [s[l.cursor]])
    case TaskEnds(failed) =>
      if l.active == 0 then l else l.(active := l.active - 1, running := l.running && !failed)
    case StopClaiming => l.(accepting := false)
    case Shutdown => l.(accepting := false, running := false)
  }

  /**
   * A tick starts a task, with the priority at the cursor, exactly when the loop runs, accepts work and has
   * room. The end of a task makes room, and ends the loop when the task failed; the loop stops accepting
   * when it is told to, and ends at a shutdown.
   */
  lemma HandledIs(s: seq<Priority>, maxConcurrency: nat, l: Loop, failed: bool)
    requires l.cursor < |s|
    ensures Handle(s, maxConcurrency, l, PollTick) ==
      if l.running && l.accepting && l.active < maxConcurrency then
        Loop(true, true, l.active + 1, Advance(l.cursor, |s|), l.firsts + [s[l.cursor]])
      else l
    ensures Handle(s, maxConcurrency, l, TaskEnds(failed)) ==
      if l.active > 0 then l.(active := l.active - 1, running := !failed && l.running) else l
    ensures Handle(s, maxConcurrency, l, StopClaiming) == l.(accepting := false)
    ensures Handle(s, maxConcurrency, l, Shutdown) == l.(running := false, accepting := false)
  {
  }

  ghost predicate Valid(s: seq<Priority>, maxConcurrency: nat, l: Loop) {
    && l.cursor < |s| && l.active <= maxConcurrency
    && l.firsts == Primaries(s, 0, |l.firsts|) && l.cursor == CursorAfter(0, |s|, |l.firsts|)
  }

  /** Where the rotation stands after `n` ticks. */
  function CursorAfter(cursor: nat, size: nat, n: nat): (later: nat)
    requires cursor < size
    ensures later < size
    decreases n
  {
    if n == 0 then cursor else Advance(CursorAfter(cursor, size, n - 1), size)
  }

  lemma {:induction false} CursorAfterFirst(cursor: nat, size: nat, n: nat)
    requires cursor < size && n > 0
    ensures CursorAfter(cursor, size, n) == CursorAfter(Advance(cursor, size), size, n - 1)
    decreases n
  {
    if n > 1 {
      CursorAfterFirst(cursor, size, n - 1);
    }
  }

  lemma {:induction false} PrimariesJoin(s: seq<Priority>, cursor: nat, m: nat, n: nat)
    requires cursor < |s|
    ensures Primaries(s, cursor, m + n) == Primaries(s, cursor, m) + Primaries(s, CursorAfter(cursor, |s|, m), n)
    decreases m
  {
    if m > 0 {
      CursorAfterFirst(cursor, |s|, m);
      PrimariesJoin(s, Advance(cursor, |s|), m - 1, n);
    }
  }

  lemma {:induction false} PrimariesLength(s: seq<Priority>, cursor: nat, n: nat)
    requires cursor < |s|
    ensures |Primaries(s, cursor, n)| == n
    decreases n
  {
    if n > 0 {
      PrimariesLength(s, Advance(cursor, |s|), n - 1);
    }
  }

  lemma HandleValid(s: seq<Priority>, maxConcurrency: nat, l: Loop, event: Event)
    requires Valid(s, maxConcurrency, l)
    ensures Valid(s, maxConcurrency, Handle(s, maxConcurrency, l, event))
  {
    if event.PollTick? {
      PrimariesJoin(s, 0, |l.firsts|, 1);
      assert Primaries(s, l.cursor, 1) == [s[l.cursor]] + Primaries(s, Advance(l.cursor, |s|), 0);
    }
  }

  ghost predicate Reaches(s: seq<Priority>, maxConcurrency: nat, l: Loop, events: seq<Event>, later: Loop)
    decreases |events|
  {
    if events == [] then later == l
    else l.cursor < |s| && Reaches(s, maxConcurrency, Handle(s, maxConcurrency, l, events[0]), events[1..], later)
  }

  lemma {:induction false} RunValid(s: seq<Priority>, maxConcurrency: nat, l: Loop, events: seq<Event>, later: Loop)
    requires Valid(s, maxConcurrency, l) && Reaches(s, maxConcurrency, l, events, later)
    ensures Valid(s, maxConcurrency, later)
    decreases |events|
  {
    if events != [] {
      HandleValid(s, maxConcurrency, l, events[0]);
      RunValid(s, maxConcurrency, Handle(s, maxConcurrency, l, events[0]), events[1..], later);
    }
  }

  const Idle: Loop := Loop(true, true, 0, 0, [])

  /** In every run no more tasks are active at once than configured. */
  lemma TasksAreBounded(w: Weights, maxConcurrency: nat, events: seq<Event>, later: Loop)
    requires ValidWeights(w) && Reaches(Sequence(w), maxConcurrency, Idle, events, later)
    ensures later.active <= maxConcurrency
  {
    SequenceCounts(w, Immediate);
    RunValid(Sequence(w), maxConcurrency, Idle, events, later);
  }

  lemma Middle(a: seq<Priority>, b: seq<Priority>, c: seq<Priority>)
    ensures (a + (b + c))[|a|..|a| + |b|] == b
  {
  }

  /**
   * In every run, among any consecutively started tasks as many as the weights add up to, each
   * priority is tried first by as many as its weight, however the tasks end in between.
   */
  lemma TasksShareByWeight(w: Weights, maxConcurrency: nat, events: seq<Event>, later: Loop, from: nat, p: Priority)
    requires ValidWeights(w) && Reaches(Sequence(w), maxConcurrency, Idle, events, later)
    requires from + Total(w) <= |later.firsts|
    ensures Count(later.firsts[from..from + Total(w)], p) == WeightOf(w, p)
  {
    var s, n := Sequence(w), |later.firsts|;
    SequenceCounts(w, p);
    RunValid(s, maxConcurrency, Idle, events, later);
    var cursor := CursorAfter(0, |s|, from);
    PrimariesJoin(s, 0, from, n - from);
    PrimariesJoin(s, cursor, Total(w), n - from - Total(w));
    PrimariesLength(s, 0, from);
    PrimariesLength(s, cursor, Total(w));
    Middle(Primaries(s, 0, from), Primaries(s, cursor, Total(w)),
           Primaries(s, CursorAfter(cursor, |s|, Total(w)), n - from - Total(w)));
    WindowIsFair(w, cursor, p);
  }

  function Ticks(n: nat): seq<Event> {
    seq(n, i => PollTick)
  }

  /** No room is left unused: while the loop runs and accepts work, every tick fills it by one task until it is full. */
  lemma {:induction false} RoomIsFilled(s: seq<Priority>, maxConcurrency: nat, l: Loop, n: nat, later: Loop)
    requires l.cursor < |s| && l.running && l.accepting && l.active <= maxConcurrency
    requires Reaches(s, maxConcurrency, l, Ticks(n), later)
    ensures later.active == if l.active + n < maxConcurrency then l.active + n else maxConcurrency
    decreases n
  {
    if n > 0 {
      HandledIs(s, maxConcurrency, l, false);
      assert Ticks(n)[1..] == Ticks(n - 1);
      RoomIsFilled(s, maxConcurrency, Handle(s, maxConcurrency, l, PollTick), n - 1, later);
    }
  }

  /** Once claiming has stopped no further task starts. */
  lemma {:induction false} StoppedForGood(
    s: seq<Priority>, maxConcurrency: nat, l: Loop, events: seq<Event>, later: Loop)
    requires (!l.accepting || !l.running) && Reaches(s, maxConcurrency, l, events, later)
    ensures later.firsts == l.firsts && later.active <= l.active
    decreases |events|
  {
    if events != [] {
      StoppedForGood(s, maxConcurrency, Handle(s, maxConcurrency, l, events[0]), events[1..], later);
    }
  }
}

/**
 * How far late judgements can push a bucket: for every threshold and every number of late failures there
 * is a run that exceeds the threshold by exactly that number.
 */
module LoginLateness {
  import opened Results
  import opened LoginLimits

  lemma AdmitsOne(s: State, attempt: AttemptId, request: Request, now: int)
    requires attempt !in s.attempts && now <= s.clock && request.id !in s.tables.reservations
    requires !Cooling(s.tables, request.key, now) && !Full(s.tables, request, now)
    ensures Started(s, attempt, [request], now)
      == s.(tables := Reserved(s.tables, request, now), attempts := s.attempts[attempt := Attempt([request], now)])
  {
    assert [request][1..] == [];
    assert ReserveAll(Reserved(s.tables, request, now), [], now) == Ok(Reserved(s.tables, request, now));
  }

  lemma FailsOne(s: State, attempt: AttemptId, kinds: set<Kind>, key: Key)
    requires attempt in s.attempts && |s.attempts[attempt].lease| == 1
    ensures var request := s.attempts[attempt].lease[0];
      && Apply(s, Fail(attempt, kinds)).tables == FailOne(s.tables, request, kinds, s.attempts[attempt].now)
      && LateStep(s, Fail(attempt, kinds), key) == (if Late(s.tables, request, kinds, key, s.clock) then 1 else 0)
  {
    var a := s.attempts[attempt];
    assert a.lease[1..] == [];
    var next := FailOne(s.tables, a.lease[0], kinds, a.now);
    assert FailAll(next, [], kinds, a.now) == next;
    assert LateIn(next, a.lease[1..], kinds, a.now, key, s.clock) == 0;
  }

  /** The requests of the run differ in nothing but their ids. */
  function Ask(r: Request, id: Id): Request {
    r.(id := id)
  }

  /** One attempt begins and its lease runs out, `late` times over. */
  function Waves(r: Request, late: nat): seq<Action>
    requires r.lease > 0
  {
    if late == 0 then []
    else
      var i := late - 1;
      Waves(r, i) + [Begin(i, [Ask(r, i)], i * r.lease), Tick(late * r.lease)]
  }

  /** Then as many attempts begin at once as the bucket admits. */
  function Crowd(r: Request, late: nat, more: nat): seq<Action>
    requires r.lease > 0
  {
    if more == 0 then []
    else
      var i := late + more - 1;
      Crowd(r, late, more - 1) + [Begin(i, [Ask(r, i)], late * r.lease)]
  }

  /** At last the attempts that are late fail, one after another. */
  function Failing(r: Request, late: nat): seq<Action> {
    if late == 0 then [] else Failing(r, late - 1) + [Fail(late - 1, {r.kind})]
  }

  function LateRun(r: Request, cap: nat, late: nat): seq<Action>
    requires r.lease > 0
  {
    Waves(r, late) + Crowd(r, late, cap) + Failing(r, late)
  }

  function BeganAt(r: Request, late: nat, i: nat): int {
    (if i < late then i else late) * r.lease
  }

  /** The attempts `gone .. begun - 1` are under way, and `gone` failures have been counted. */
  ghost predicate Stage(s: State, r: Request, late: nat, gone: nat, begun: nat) {
    && s.clock == BeganAt(r, late, begun)
    && (forall i :: i in s.attempts <==> gone <= i < begun)
    && (forall i :: i in s.attempts ==> s.attempts[i] == Attempt([Ask(r, i)], BeganAt(r, late, i)))
    && (forall i :: i in s.tables.reservations <==> gone <= i < begun)
    && (forall i :: i in s.tables.reservations ==>
          s.tables.reservations[i] == Reservation(r.key, BeganAt(r, late, i) + r.lease))
    && Failures(s.tables, r.key) == gone
    && (gone > 0 || begun > 0 ==> r.key in s.tables.buckets)
    && (gone == 0 && r.key in s.tables.buckets ==> s.tables.buckets[r.key].cooldownUntil.None?)
  }

  lemma Product(n: nat, lease: int)
    requires lease > 0
    ensures 0 <= n * lease
  {
  }

  lemma Sum(a: int, b: int, lease: int)
    ensures (a + b) * lease == a * lease + b * lease
  {
  }

  lemma Later(a: nat, b: nat, lease: int)
    requires lease > 0
    ensures a < b ==> a * lease + lease <= b * lease
    ensures (a + 1) * lease == a * lease + lease
  {
    Sum(a, 1, lease);
    if a < b {
      Sum(a + 1, b - a - 1, lease);
      Product(b - a - 1, lease);
    }
  }

  function Interval(lo: nat, hi: nat): (ids: set<Id>)
    ensures forall i :: i in ids <==> lo <= i < hi
    ensures |ids| == if lo < hi then hi - lo else 0
  {
    if lo >= hi then {} else Interval(lo, hi - 1) + {hi - 1}
  }

  /** The reservations that have not run out are those of the crowd. */
  lemma LiveCrowd(s: State, r: Request, late: nat, gone: nat, begun: nat)
    requires r.lease > 0 && Stage(s, r, late, gone, begun) && gone <= late
    ensures Live(s.tables.reservations, r.key, s.clock) == Interval(late, begun)
  {
    var end := if begun < late then begun else late;
    forall i | i in Live(s.tables.reservations, r.key, s.clock)
      ensures i in Interval(late, begun)
    {
      Later(i, end, r.lease);
    }
    forall i | i in Interval(late, begun)
      ensures i in Live(s.tables.reservations, r.key, s.clock)
    {
      Later(i, end, r.lease);
    }
  }

  lemma BeginStage(s: State, r: Request, late: nat, begun: nat, cap: nat)
    requires r.lease > 0 && r.threshold == cap > 0 && Stage(s, r, late, 0, begun) && begun < late + cap
    ensures var t := Started(s, begun, [Ask(r, begun)], s.clock);
      Stage(t.(clock := BeganAt(r, late, begun + 1)), r, late, 0, begun + 1)
    ensures Started(s, begun, [Ask(r, begun)], s.clock).clock == s.clock
  {
    LiveCrowd(s, r, late, 0, begun);
    AdmitsOne(s, begun, Ask(r, begun), s.clock);
  }

  lemma WaveOn(s: State, r: Request, cap: nat, late: nat, i: nat)
    requires r.lease > 0 && r.threshold == cap > 0 && i < late && Stage(s, r, late, 0, i)
    ensures var t := Apply(s, Begin(i, [Ask(r, i)], i * r.lease));
      Stage(Apply(t, Tick((i + 1) * r.lease)), r, late, 0, i + 1)
  {
    BeginStage(s, r, late, i, cap);
    Later(i, i + 1, r.lease);
  }

  lemma {:induction false} WavesStage(r: Request, cap: nat, late: nat, n: nat)
    requires r.lease > 0 && r.threshold == cap > 0 && n <= late
    ensures Stage(Exec(Fresh(0), Waves(r, n)), r, late, 0, n)
    ensures LateFailures(Fresh(0), Waves(r, n), r.key) == 0
    decreases n
  {
    if n > 0 {
      var i := n - 1;
      var begin, tick := Begin(i, [Ask(r, i)], i * r.lease), Tick(n * r.lease);
      WavesStage(r, cap, late, i);
      WaveOn(Exec(Fresh(0), Waves(r, i)), r, cap, late, i);
      RunOn(Fresh(0), Waves(r, i), begin, r.key);
      RunOn(Fresh(0), Waves(r, i) + [begin], tick, r.key);
      assert Waves(r, i) + [begin] + [tick] == Waves(r, n);
    }
  }

  lemma CrowdOn(s: State, r: Request, cap: nat, late: nat, n: nat)
    requires r.lease > 0 && r.threshold == cap > 0 && n < cap && Stage(s, r, late, 0, late + n)
    ensures Stage(Apply(s, Begin(late + n, [Ask(r, late + n)], late * r.lease)), r, late, 0, late + n + 1)
  {
    BeginStage(s, r, late, late + n, cap);
  }

  lemma {:induction false} CrowdStage(s: State, r: Request, cap: nat, late: nat, n: nat)
    requires r.lease > 0 && r.threshold == cap > 0 && n <= cap && Stage(s, r, late, 0, late)
    ensures Stage(Exec(s, Crowd(r, late, n)), r, late, 0, late + n)
    decreases n
  {
    if n > 0 {
      CrowdStage(s, r, cap, late, n - 1);
      CrowdGrows(s, r, cap, late, n - 1);
    }
  }

  lemma CrowdGrows(s: State, r: Request, cap: nat, late: nat, n: nat)
    requires r.lease > 0 && r.threshold == cap > 0 && n < cap
    requires Stage(Exec(s, Crowd(r, late, n)), r, late, 0, late + n)
    ensures Stage(Exec(s, Crowd(r, late, n + 1)), r, late, 0, late + n + 1)
  {
    CrowdNext(s, r, late, n);
    CrowdOn(Exec(s, Crowd(r, late, n)), r, cap, late, n);
  }

  lemma CrowdNext(s: State, r: Request, late: nat, n: nat)
    requires r.lease > 0
    ensures Exec(s, Crowd(r, late, n + 1))
      == Apply(Exec(s, Crowd(r, late, n)), Begin(late + n, [Ask(r, late + n)], late * r.lease))
  {
    RunOn(s, Crowd(r, late, n), Begin(late + n, [Ask(r, late + n)], late * r.lease), r.key);
  }

  lemma {:induction false} CrowdIsTimely(s: State, r: Request, late: nat, n: nat)
    requires r.lease > 0
    ensures LateFailures(s, Crowd(r, late, n), r.key) == 0
    decreases n
  {
    if n > 0 {
      CrowdIsTimely(s, r, late, n - 1);
      RunOn(s, Crowd(r, late, n - 1), Begin(late + n - 1, [Ask(r, late + n - 1)], late * r.lease), r.key);
    }
  }

  lemma FailTables(s: State, r: Request, gone: nat, now: int)
    requires gone in s.attempts && s.attempts[gone] == Attempt([Ask(r, gone)], now) && r.key in s.tables.buckets
    requires gone !in Live(s.tables.reservations, r.key, s.clock)
    ensures var fail := Fail(gone, {r.kind}); var t := Apply(s, fail);
      && t.clock == s.clock && t.attempts == s.attempts - {gone}
      && t.tables.reservations == s.tables.reservations - {gone}
      && r.key in t.tables.buckets && Failures(t.tables, r.key) == Failures(s.tables, r.key) + 1
      && LateStep(s, fail, r.key) == 1
  {
    FailsOne(s, gone, {r.kind}, r.key);
  }

  lemma FailStage(s: State, r: Request, late: nat, gone: nat, begun: nat)
    requires r.lease > 0 && Stage(s, r, late, gone, begun) && gone < late <= begun
    ensures var fail := Fail(gone, {r.kind});
      Stage(Apply(s, fail), r, late, gone + 1, begun) && LateStep(s, fail, r.key) == 1
  {
    LiveCrowd(s, r, late, gone, begun);
    FailTables(s, r, gone, BeganAt(r, late, gone));
  }

  lemma {:induction false} FailingStage(s: State, r: Request, late: nat, begun: nat, n: nat)
    requires r.lease > 0 && Stage(s, r, late, 0, begun) && n <= late <= begun
    ensures Stage(Exec(s, Failing(r, n)), r, late, n, begun)
    ensures LateFailures(s, Failing(r, n), r.key) == n
    decreases n
  {
    if n > 0 {
      FailingStage(s, r, late, begun, n - 1);
      FailStage(Exec(s, Failing(r, n - 1)), r, late, n - 1, begun);
      RunOn(s, Failing(r, n - 1), Fail(n - 1, {r.kind}), r.key);
    }
  }

  lemma {:induction false} RunJoin(s: State, first: seq<Action>, second: seq<Action>, key: Key)
    ensures Exec(s, first + second) == Exec(Exec(s, first), second)
    ensures LateFailures(s, first + second, key)
      == LateFailures(s, first, key) + LateFailures(Exec(s, first), second, key)
    decreases |first|
  {
    if first == [] {
      assert first + second == second;
    } else {
      assert (first + second)[0] == first[0] && (first + second)[1..] == first[1..] + second;
      RunJoin(Apply(s, first[0]), first[1..], second, key);
    }
  }

  lemma RunOn(s: State, first: seq<Action>, a: Action, key: Key)
    ensures Exec(s, first + [a]) == Apply(Exec(s, first), a)
    ensures LateFailures(s, first + [a], key) == LateFailures(s, first, key) + LateStep(Exec(s, first), a, key)
  {
    RunJoin(s, first, [a], key);
    var t := Exec(s, first);
    assert [a][1..] == [];
    assert Exec(Apply(t, a), []) == Apply(t, a) && LateFailures(Apply(t, a), [], key) == 0;
  }

  lemma {:induction false} RunCapped(r: Request, late: nat, n: nat)
    requires r.lease > 0 && r.threshold >= 0
    ensures Capped(Waves(r, n), r.key, r.threshold)
    ensures Capped(Crowd(r, late, n), r.key, r.threshold)
    ensures Capped(Failing(r, n), r.key, r.threshold)
    decreases n
  {
    if n > 0 {
      RunCapped(r, late, n - 1);
    }
  }

  lemma CappedJoin(first: seq<Action>, second: seq<Action>, key: Key, cap: nat)
    requires Capped(first, key, cap) && Capped(second, key, cap)
    ensures Capped(first + second, key, cap)
  {
  }

  lemma LateRunCapped(r: Request, cap: nat, late: nat)
    requires r.threshold == cap && r.lease > 0
    ensures Capped(LateRun(r, cap, late), r.key, cap)
  {
    RunCapped(r, late, late);
    RunCapped(r, late, cap);
    CappedJoin(Waves(r, late), Crowd(r, late, cap), r.key, cap);
    CappedJoin(Waves(r, late) + Crowd(r, late, cap), Failing(r, late), r.key, cap);
  }

  lemma LateRunStage(r: Request, cap: nat, late: nat)
    requires r.threshold == cap > 0 && r.lease > 0
    ensures Stage(Exec(Fresh(0), LateRun(r, cap, late)), r, late, late, late + cap)
    ensures LateFailures(Fresh(0), LateRun(r, cap, late), r.key) == late
  {
    var waves, crowd := Waves(r, late), Crowd(r, late, cap);
    var a := Exec(Fresh(0), waves);
    WavesStage(r, cap, late, late);
    CrowdStage(a, r, cap, late, cap);
    CrowdIsTimely(a, r, late, cap);
    RunJoin(Fresh(0), waves, crowd, r.key);
    LateRunEnds(r, waves + crowd, late, late + cap);
  }

  lemma LateRunEnds(r: Request, before: seq<Action>, late: nat, begun: nat)
    requires r.lease > 0 && late <= begun && Stage(Exec(Fresh(0), before), r, late, 0, begun)
    requires LateFailures(Fresh(0), before, r.key) == 0
    ensures Stage(Exec(Fresh(0), before + Failing(r, late)), r, late, late, begun)
    ensures LateFailures(Fresh(0), before + Failing(r, late), r.key) == late
  {
    FailingStage(Exec(Fresh(0), before), r, late, begun, late);
    RunJoin(Fresh(0), before, Failing(r, late), r.key);
  }

  /**
   * The bound is tight: for every threshold and every number of late failures some run brings a bucket
   * to the threshold and that number.
   */
  lemma LateFailuresExceed(r: Request, cap: nat, late: nat)
    requires r.threshold == cap > 0 && r.lease > 0
    ensures var run := LateRun(r, cap, late); var s := Exec(Fresh(0), run);
      && Capped(run, r.key, cap)
      && LateFailures(Fresh(0), run, r.key) == late
      && Used(s.tables, r.key, s.clock) == cap + late
  {
    LateRunCapped(r, cap, late);
    LateRunStage(r, cap, late);
    LiveCrowd(Exec(Fresh(0), LateRun(r, cap, late)), r, late, late, late + cap);
  }
}

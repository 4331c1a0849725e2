/**
 * When an attempt is admitted, and what it finds afterwards: the bucket's window and cooldown end, so
 * nobody is locked out for ever.
 */
module LoginWindows {
  import opened Results
  import opened LoginLimits
  import opened LoginTheorems

  /** The bucket's cooldown is not over. */
  predicate Cools(t: Tables, key: Key, now: int) {
    key in t.buckets && t.buckets[key].cooldownUntil.Some? && now < t.buckets[key].cooldownUntil.value
  }

  /** The bucket is new or its window is over, so that earlier failures do not count. */
  predicate StartsOver(t: Tables, request: Request, now: int) {
    request.key !in t.buckets || t.buckets[request.key].windowStart + request.window <= now
  }

  function Counted(t: Tables, request: Request, now: int): nat {
    if StartsOver(t, request, now) then 0 else t.buckets[request.key].failures
  }

  /**
   * A request with a fresh id is admitted exactly when its bucket does not cool down and the failures of
   * its window, together with the live reservations, are below the threshold. A window that is over then
   * starts again, with no failures and no cooldown; otherwise the bucket stays as it was. Nothing else
   * changes but for the reservation.
   */
  lemma AdmissionIs(t: Tables, request: Request, now: int, outcome: Result<Tables, LimitError>)
    requires outcome == ReserveOne(t, request, now)
    ensures outcome.Ok? <==>
      && request.id !in t.reservations && !Cools(t, request.key, now)
      && Counted(t, request, now) + |Live(t.reservations, request.key, now)| < request.threshold
    ensures outcome.Ok? ==>
      && outcome.value.reservations == t.reservations[request.id := Reservation(request.key, now + request.lease)]
      && (StartsOver(t, request, now) ==> outcome.value.buckets == t.buckets[request.key := Bucket(0, now, None)])
      && (!StartsOver(t, request, now) ==> outcome.value.buckets == t.buckets)
  {
  }

  /**
   * A refusal says why, and when to come back: at the end of the cooldown, or when the first live
   * reservation runs out, or a cooldown from now; in whole seconds, and one at least.
   */
  lemma RefusalSaysWhen(t: Tables, request: Request, now: int, outcome: Result<Tables, LimitError>)
    requires outcome == ReserveOne(t, request, now) && outcome.Err?
    ensures outcome.error.DuplicateReservation? ==> request.id in t.reservations && !Cools(t, request.key, now)
    ensures outcome.error.RateLimited? ==>
      var seconds, live := outcome.error.retryAfterSeconds, Live(t.reservations, request.key, now);
      if Cools(t, request.key, now) then IsWait(seconds, t.buckets[request.key].cooldownUntil.value - now)
      else if live == {} then IsWait(seconds, request.cooldown)
      else exists id :: EndsFirst(t.reservations, live, id) && IsWait(seconds, t.reservations[id].until - now)
  {
    var live := Live(t.reservations, request.key, now);
    if !Cools(t, request.key, now) && live != {} {
      OneEndsFirst(t.reservations, live);
    }
  }

  /** So many whole seconds, and one at least. */
  predicate IsWait(seconds: int, span: int) {
    seconds >= 1 && (seconds == 1 || seconds * Second <= span) && span < (seconds + 1) * Second
  }

  // ----- Failures and successes --------------------------------------------------------------

  /** Only one bucket and one reservation differ. */
  ghost predicate OnlyBucket(t: Tables, later: Tables, request: Request) {
    && later.reservations == t.reservations - {request.id} && later.buckets.Keys == t.buckets.Keys
    && forall key :: key in t.buckets && key != request.key ==> later.buckets[key] == t.buckets[key]
  }

  /**
   * A failure of a counted kind is one more in its bucket, and sets the cooldown exactly when it brings
   * the bucket to the threshold; any other only gives the reservation back.
   */
  lemma FailureCounts(t: Tables, request: Request, kinds: set<Kind>, now: int)
    ensures var later := FailOne(t, request, kinds, now);
      && OnlyBucket(t, later, request)
      && (request.key in t.buckets ==>
            var before, after := t.buckets[request.key], later.buckets[request.key];
            && after.windowStart == before.windowStart
            && after.failures == before.failures + (if request.kind in kinds then 1 else 0)
            && after.cooldownUntil == if request.kind in kinds && after.failures >= request.threshold
                                      then Some(now + request.cooldown) else before.cooldownUntil)
  {
  }

  /** A success forgets the failures of its bucket and its cooldown, and keeps its window. */
  lemma SuccessForgets(t: Tables, request: Request)
    ensures var later := SucceedOne(t, request);
      && OnlyBucket(t, later, request)
      && (request.key in t.buckets ==>
            later.buckets[request.key] == Bucket(0, t.buckets[request.key].windowStart, None))
  {
  }

  /** Every batch of the run asks for at least `cap` failures in bucket `key`. */
  ghost predicate Lenient(actions: seq<Action>, key: Key, cap: nat) {
    forall i :: 0 <= i < |actions| && actions[i].Begin? ==> LenientRequests(actions[i].requests, key, cap)
  }

  ghost predicate LenientRequests(requests: seq<Request>, key: Key, cap: nat) {
    forall r :: r in requests && r.key == key ==> r.threshold >= cap
  }

  /** A cooldown was earned. */
  ghost predicate Earned(t: Tables, key: Key, cap: nat) {
    key in t.buckets && t.buckets[key].cooldownUntil.Some? ==> t.buckets[key].failures >= cap
  }

  lemma {:induction false} FailAllEarned(
    t: Tables, requests: seq<Request>, kinds: set<Kind>, now: int, key: Key, cap: nat)
    requires Earned(t, key, cap) && LenientRequests(requests, key, cap)
    ensures Earned(FailAll(t, requests, kinds, now), key, cap)
    decreases |requests|
  {
    if requests != [] {
      FailureCounts(t, requests[0], kinds, now);
      FailAllEarned(FailOne(t, requests[0], kinds, now), requests[1..], kinds, now, key, cap);
    }
  }

  lemma {:induction false} SucceedAllEarned(t: Tables, requests: seq<Request>, key: Key, cap: nat)
    requires Earned(t, key, cap)
    ensures Earned(SucceedAll(t, requests), key, cap)
    decreases |requests|
  {
    if requests != [] {
      SuccessForgets(t, requests[0]);
      SucceedAllEarned(SucceedOne(t, requests[0]), requests[1..], key, cap);
    }
  }

  lemma {:induction false} ReserveAllEarned(t: Tables, requests: seq<Request>, now: int, key: Key, cap: nat)
    requires Earned(t, key, cap) && ReserveAll(t, requests, now).Ok?
    ensures Earned(ReserveAll(t, requests, now).value, key, cap)
    decreases |requests|
  {
    if requests != [] {
      AdmissionIs(t, requests[0], now, ReserveOne(t, requests[0], now));
      ReserveAllEarned(ReserveOne(t, requests[0], now).value, requests[1..], now, key, cap);
    }
  }

  ghost predicate EarnedInv(s: State, key: Key, cap: nat) {
    Earned(s.tables, key, cap) && forall a :: a in s.attempts ==> LenientRequests(s.attempts[a].lease, key, cap)
  }

  lemma StepEarned(s: State, action: Action, key: Key, cap: nat)
    requires EarnedInv(s, key, cap) && (action.Begin? ==> LenientRequests(action.requests, key, cap))
    ensures EarnedInv(Apply(s, action), key, cap)
  {
    match action
    case Tick(_) =>
    case Crash(_) =>
    case Begin(attempt, requests, now) =>
      if ReserveAll(s.tables, requests, now).Ok? {
        ReserveAllEarned(s.tables, requests, now, key, cap);
      }
    case Fail(attempt, kinds) =>
      if attempt in s.attempts {
        FailAllEarned(s.tables, s.attempts[attempt].lease, kinds, s.attempts[attempt].now, key, cap);
      }
    case Succeed(attempt) =>
      if attempt in s.attempts {
        SucceedAllEarned(s.tables, s.attempts[attempt].lease, key, cap);
      }
    case Release(attempt) =>
      if attempt in s.attempts {
        ReleaseKeepsBuckets(s.tables, s.attempts[attempt].lease);
      }
  }

  lemma {:induction false} ExecEarned(s: State, actions: seq<Action>, key: Key, cap: nat)
    requires EarnedInv(s, key, cap) && Lenient(actions, key, cap)
    ensures EarnedInv(Exec(s, actions), key, cap)
    decreases |actions|
  {
    if actions != [] {
      StepEarned(s, actions[0], key, cap);
      ExecEarned(Apply(s, actions[0]), actions[1..], key, cap);
    }
  }

  /** In every run nobody waits out a cooldown that was not earned by as many failures as the threshold. */
  lemma CooldownIsEarned(clock: int, actions: seq<Action>, key: Key, cap: nat)
    requires Lenient(actions, key, cap)
    ensures var t := Exec(Fresh(clock), actions).tables;
      key in t.buckets && t.buckets[key].cooldownUntil.Some? ==> t.buckets[key].failures >= cap
  {
    ExecEarned(Fresh(clock), actions, key, cap);
  }

  // ----- Nobody is locked out for ever -------------------------------------------------------

  lemma BeginsAlone(s: State, attempt: AttemptId, request: Request, now: int)
    requires attempt !in s.attempts && now <= s.clock && ReserveOne(s.tables, request, now).Ok?
    ensures var later := Apply(s, Begin(attempt, [request], now));
      attempt in later.attempts && later.attempts[attempt] == Attempt([request], now)
      && later.tables == ReserveOne(s.tables, request, now).value
  {
    var next := ReserveOne(s.tables, request, now).value;
    assert [request][1..] == [];
    assert ReserveAll(next, [], now) == Ok(next);
    assert ReserveAll(s.tables, [request], now) == Ok(next);
  }

  /**
   * In every state a later attempt is admitted as soon as the cooldown and the window are over and fewer
   * than threshold reservations are live; and its bucket then starts from nothing.
   */
  lemma AdmittedAfterwards(s: State, attempt: AttemptId, request: Request, to: int)
    requires attempt !in s.attempts && request.id !in s.tables.reservations && s.clock <= to
    requires !Cools(s.tables, request.key, to) && StartsOver(s.tables, request, to)
    requires |Live(s.tables.reservations, request.key, to)| < request.threshold
    ensures var later := Exec(s, [Tick(to), Begin(attempt, [request], to)]);
      && attempt in later.attempts
      && request.key in later.tables.buckets && later.tables.buckets[request.key] == Bucket(0, to, None)
  {
    var ticked := Apply(s, Tick(to));
    var begin := Begin(attempt, [request], to);
    AdmissionIs(s.tables, request, to, ReserveOne(s.tables, request, to));
    BeginsAlone(ticked, attempt, request, to);
    assert [Tick(to), begin][1..] == [begin] && [begin][1..] == [];
    assert Exec(Apply(ticked, begin), []) == Apply(ticked, begin);
  }

  lemma {:induction false} LastEnd(reservations: map<Id, Reservation>, ids: set<Id>) returns (end: int)
    requires ids <= reservations.Keys
    ensures forall id :: id in ids ==> reservations[id].until <= end
    decreases |ids|
  {
    if ids == {} {
      end := 0;
    } else {
      var id :| id in ids;
      var rest := LastEnd(reservations, ids - {id});
      end := if rest < reservations[id].until then reservations[id].until else rest;
      forall other | other in ids
        ensures reservations[other].until <= end
      {
        assert other == id || other in ids - {id};
      }
    }
  }

  function Greatest(a: int, b: int): int {
    if a < b then b else a
  }

  /**
   * Nobody is locked out for ever: from every state there is a time from which on, if nothing else
   * happens, an attempt is admitted whenever it comes.
   */
  lemma LockoutEnds(s: State, attempt: AttemptId, request: Request) returns (from: int)
    requires attempt !in s.attempts && request.id !in s.tables.reservations && request.threshold > 0
    ensures forall to :: from <= to && s.clock <= to ==>
      attempt in Exec(s, [Tick(to), Begin(attempt, [request], to)]).attempts
  {
    var reservations, buckets := s.tables.reservations, s.tables.buckets;
    from := LastEnd(reservations, reservations.Keys);
    if request.key in buckets {
      var bucket := buckets[request.key];
      from := Greatest(from, bucket.windowStart + request.window);
      from := if bucket.cooldownUntil.Some? then Greatest(from, bucket.cooldownUntil.value) else from;
    }
    forall to | from <= to && s.clock <= to
      ensures attempt in Exec(s, [Tick(to), Begin(attempt, [request], to)]).attempts
    {
      assert Live(reservations, request.key, to) == {};
      AdmittedAfterwards(s, attempt, request, to);
    }
  }
}

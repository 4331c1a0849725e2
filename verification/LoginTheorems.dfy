/**
 * What the login limiter guarantees when every attempt that is judged is judged within its lease,
 * and what a late judgement can do.
 */
module LoginTheorems {
  import opened Results
  import opened LoginLimits

  function Ids(requests: seq<Request>): set<Id> {
    set i | 0 <= i < |requests| :: requests[i].id
  }

  /** The batch has a row for each of its requests, with one id each. */
  ghost predicate Held(reservations: map<Id, Reservation>, requests: seq<Request>, now: int) {
    && (forall i :: 0 <= i < |requests| ==>
          requests[i].id in reservations &&
          reservations[requests[i].id] == Reservation(requests[i].key, now + requests[i].lease))
    && (forall i, j :: 0 <= i < j < |requests| ==> requests[i].id != requests[j].id)
  }

  ghost predicate AttemptsHold(s: State) {
    && (forall a :: a in s.attempts ==> Held(s.tables.reservations, s.attempts[a].lease, s.attempts[a].now))
    && (forall a, b :: a in s.attempts && b in s.attempts && a != b ==>
          Ids(s.attempts[a].lease) !! Ids(s.attempts[b].lease))
  }

  lemma IdsSplit(requests: seq<Request>)
    requires requests != []
    ensures Ids(requests) == {requests[0].id} + Ids(requests[1..])
  {
  }

  /** Ending an attempt removes its rows and no other, whichever way it ends. */
  lemma {:induction false} EndingRemoves(t: Tables, requests: seq<Request>, kinds: set<Kind>, now: int)
    ensures FailAll(t, requests, kinds, now).reservations == t.reservations - Ids(requests)
    ensures SucceedAll(t, requests).reservations == t.reservations - Ids(requests)
    ensures ReleaseAll(t, requests).reservations == t.reservations - Ids(requests)
    decreases |requests|
  {
    if requests != [] {
      var rest := requests[1..];
      IdsSplit(requests);
      assert t.reservations - Ids(requests) == (t.reservations - {requests[0].id}) - Ids(rest);
      FailAllRemoves(t, requests, kinds, now);
      EndingRemoves(SucceedOne(t, requests[0]), rest, kinds, now);
      EndingRemoves(t.(reservations := t.reservations - {requests[0].id}), rest, kinds, now);
    }
  }

  lemma {:induction false} FailAllRemoves(t: Tables, requests: seq<Request>, kinds: set<Kind>, now: int)
    ensures FailAll(t, requests, kinds, now).reservations == t.reservations - Ids(requests)
    decreases |requests|
  {
    if requests != [] {
      IdsSplit(requests);
      assert t.reservations - Ids(requests) == (t.reservations - {requests[0].id}) - Ids(requests[1..]);
      FailAllRemoves(FailOne(t, requests[0], kinds, now), requests[1..], kinds, now);
    }
  }

  /** A granted batch adds its own rows, with ids not used before, and touches no other row. */
  ghost predicate Granted(before: map<Id, Reservation>, later: map<Id, Reservation>, requests: seq<Request>, now: int) {
    && Held(later, requests, now)
    && Ids(requests) !! before.Keys
    && later.Keys == before.Keys + Ids(requests)
    && (forall id :: id in before ==> later[id] == before[id])
  }

  lemma {:induction false} GrantHolds(t: Tables, requests: seq<Request>, now: int)
    requires ReserveAll(t, requests, now).Ok?
    ensures Granted(t.reservations, ReserveAll(t, requests, now).value.reservations, requests, now)
    decreases |requests|
  {
    if requests != [] {
      var next := ReserveOne(t, requests[0], now).value;
      GrantHolds(next, requests[1..], now);
      GrantFirst(t.reservations, ReserveAll(t, requests, now).value.reservations, requests, now);
    }
  }

  lemma GrantFirst(before: map<Id, Reservation>, later: map<Id, Reservation>, requests: seq<Request>, now: int)
    requires requests != [] && requests[0].id !in before
    requires var first := Reservation(requests[0].key, now + requests[0].lease);
      Granted(before[requests[0].id := first], later, requests[1..], now)
    ensures Granted(before, later, requests, now)
  {
  }

  lemma HeldElsewhere(before: map<Id, Reservation>, later: map<Id, Reservation>, requests: seq<Request>, now: int)
    requires Held(before, requests, now)
    requires forall id :: id in Ids(requests) ==> id in later && (id in before ==> later[id] == before[id])
    ensures Held(later, requests, now)
  {
  }

  lemma HeldIds(reservations: map<Id, Reservation>, requests: seq<Request>, now: int)
    requires Held(reservations, requests, now)
    ensures Ids(requests) <= reservations.Keys
  {
  }

  lemma BeginHolds(s: State, attempt: AttemptId, requests: seq<Request>, now: int)
    requires AttemptsHold(s)
    ensures AttemptsHold(Started(s, attempt, requests, now))
  {
    var next := Started(s, attempt, requests, now);
    if next != s {
      GrantHolds(s.tables, requests, now);
      forall a | a in s.attempts
        ensures a in next.attempts && next.attempts[a] == s.attempts[a]
        ensures Held(next.tables.reservations, s.attempts[a].lease, s.attempts[a].now)
        ensures Ids(s.attempts[a].lease) !! Ids(requests)
      {
        HeldIds(s.tables.reservations, s.attempts[a].lease, s.attempts[a].now);
        HeldElsewhere(s.tables.reservations, next.tables.reservations, s.attempts[a].lease, s.attempts[a].now);
      }
    }
  }

  lemma EndHolds(s: State, attempt: AttemptId, tables: Tables)
    requires AttemptsHold(s) && attempt in s.attempts
    requires tables.reservations == s.tables.reservations - Ids(s.attempts[attempt].lease)
    ensures AttemptsHold(State(s.clock, tables, s.attempts - {attempt}))
  {
  }

  lemma StepHolds(s: State, action: Action)
    requires AttemptsHold(s)
    ensures AttemptsHold(Apply(s, action))
  {
    match action
    case Tick(_) =>
    case Begin(attempt, requests, now) => BeginHolds(s, attempt, requests, now);
    case Crash(_) =>
    case Fail(attempt, kinds) =>
      if attempt in s.attempts {
        EndingRemoves(s.tables, s.attempts[attempt].lease, kinds, s.attempts[attempt].now);
        EndHolds(s, attempt, Apply(s, action).tables);
      }
    case Succeed(attempt) =>
      if attempt in s.attempts {
        EndingRemoves(s.tables, s.attempts[attempt].lease, {}, 0);
        EndHolds(s, attempt, Apply(s, action).tables);
      }
    case Release(attempt) =>
      if attempt in s.attempts {
        EndingRemoves(s.tables, s.attempts[attempt].lease, {}, 0);
        EndHolds(s, attempt, Apply(s, action).tables);
      }
  }

  // ----- Timely runs -------------------------------------------------------------------------

  predicate InLease(requests: seq<Request>, now: int, clock: int) {
    forall i :: 0 <= i < |requests| ==> clock < now + requests[i].lease
  }

  /** An attempt is judged, for good or ill, only while all it reserved is still its own. */
  predicate TimelyAction(s: State, action: Action) {
    (action.Fail? || action.Succeed?) && action.attempt in s.attempts ==>
      InLease(s.attempts[action.attempt].lease, s.attempts[action.attempt].now, s.clock)
  }

  ghost predicate Timely(s: State, actions: seq<Action>)
    decreases |actions|
  {
    actions == [] || (TimelyAction(s, actions[0]) && Timely(Apply(s, actions[0]), actions[1..]))
  }

  lemma {:induction false} InLeaseNotLate(
    t: Tables, requests: seq<Request>, kinds: set<Kind>, now: int, key: Key, clock: int)
    requires Held(t.reservations, requests, now) && InLease(requests, now, clock)
    ensures LateIn(t, requests, kinds, now, key, clock) == 0
    decreases |requests|
  {
    if requests != [] {
      var request, rest := requests[0], requests[1..];
      var next := FailOne(t, request, kinds, now);
      assert request.id in t.reservations;
      assert forall i :: 0 <= i < |rest| ==> rest[i] == requests[i + 1];
      assert next.reservations == t.reservations - {request.id};
      InLeaseNotLate(next, rest, kinds, now, key, clock);
    }
  }

  lemma {:induction false} TimelyNotLate(s: State, actions: seq<Action>, key: Key)
    requires AttemptsHold(s) && Timely(s, actions)
    ensures LateFailures(s, actions, key) == 0
    decreases |actions|
  {
    if actions != [] {
      var action := actions[0];
      if action.Fail? && action.attempt in s.attempts {
        var a := s.attempts[action.attempt];
        InLeaseNotLate(s.tables, a.lease, action.kinds, a.now, key, s.clock);
      }
      StepHolds(s, action);
      TimelyNotLate(Apply(s, action), actions[1..], key);
    }
  }

  /**
   * Any run, any number of attempts at once: in every bucket the failures counted and the attempts
   * still holding a reservation never exceed the threshold, if no attempt is judged after its lease.
   */
  lemma ThresholdHolds(clock: int, actions: seq<Action>, key: Key, cap: nat)
    requires Timely(Fresh(clock), actions) && Capped(actions, key, cap)
    ensures var s := Exec(Fresh(clock), actions);
      Failures(s.tables, key) + |Live(s.tables.reservations, key, s.clock)| <= cap
  {
    var fresh0 := Fresh(clock);
    assert Live(fresh0.tables.reservations, key, clock) == {};
    TimelyNotLate(fresh0, actions, key);
    UsedWithinCap(fresh0, actions, key, cap, 0);
  }

  /** Without that condition, the excess is at most the number of failures recorded too late. */
  lemma ExcessIsLate(clock: int, actions: seq<Action>, key: Key, cap: nat)
    requires Capped(actions, key, cap)
    ensures var s := Exec(Fresh(clock), actions);
      Failures(s.tables, key) + |Live(s.tables.reservations, key, s.clock)|
        <= cap + LateFailures(Fresh(clock), actions, key)
  {
    assert Live(Fresh(clock).tables.reservations, key, clock) == {};
    UsedWithinCap(Fresh(clock), actions, key, cap, 0);
  }

  // ----- The cooldown ------------------------------------------------------------------------

  ghost predicate Cooled(t: Tables, key: Key, cap: nat) {
    key in t.buckets && t.buckets[key].failures >= cap ==> t.buckets[key].cooldownUntil.Some?
  }

  ghost predicate AttemptsCapped(s: State, key: Key, cap: nat) {
    forall a :: a in s.attempts ==> CappedRequests(s.attempts[a].lease, key, cap)
  }

  lemma {:induction false} FailAllCooled(
    t: Tables, requests: seq<Request>, kinds: set<Kind>, now: int, key: Key, cap: nat)
    requires cap > 0 && Cooled(t, key, cap) && CappedRequests(requests, key, cap)
    ensures Cooled(FailAll(t, requests, kinds, now), key, cap)
    decreases |requests|
  {
    if requests != [] {
      FailAllCooled(FailOne(t, requests[0], kinds, now), requests[1..], kinds, now, key, cap);
    }
  }

  lemma {:induction false} SucceedAllCooled(t: Tables, requests: seq<Request>, key: Key, cap: nat)
    requires cap > 0 && Cooled(t, key, cap)
    ensures Cooled(SucceedAll(t, requests), key, cap)
    decreases |requests|
  {
    if requests != [] {
      SucceedAllCooled(SucceedOne(t, requests[0]), requests[1..], key, cap);
    }
  }

  lemma {:induction false} ReserveAllCooled(t: Tables, requests: seq<Request>, now: int, key: Key, cap: nat)
    requires cap > 0 && Cooled(t, key, cap) && ReserveAll(t, requests, now).Ok?
    ensures Cooled(ReserveAll(t, requests, now).value, key, cap)
    decreases |requests|
  {
    if requests != [] {
      ReserveAllCooled(ReserveOne(t, requests[0], now).value, requests[1..], now, key, cap);
    }
  }

  lemma {:induction false} ReleaseKeepsBuckets(t: Tables, requests: seq<Request>)
    ensures ReleaseAll(t, requests).buckets == t.buckets
    decreases |requests|
  {
    if requests != [] {
      ReleaseKeepsBuckets(t.(reservations := t.reservations - {requests[0].id}), requests[1..]);
    }
  }

  lemma StepCooled(s: State, action: Action, key: Key, cap: nat)
    requires cap > 0 && Cooled(s.tables, key, cap) && AttemptsCapped(s, key, cap) && CappedAction(action, key, cap)
    ensures Cooled(Apply(s, action).tables, key, cap) && AttemptsCapped(Apply(s, action), key, cap)
  {
    match action
    case Tick(_) =>
    case Crash(_) =>
    case Begin(attempt, requests, now) =>
      if ReserveAll(s.tables, requests, now).Ok? {
        ReserveAllCooled(s.tables, requests, now, key, cap);
      }
    case Fail(attempt, kinds) =>
      if attempt in s.attempts {
        FailAllCooled(s.tables, s.attempts[attempt].lease, kinds, s.attempts[attempt].now, key, cap);
      }
    case Succeed(attempt) =>
      if attempt in s.attempts {
        SucceedAllCooled(s.tables, s.attempts[attempt].lease, key, cap);
      }
    case Release(attempt) =>
      if attempt in s.attempts {
        ReleaseKeepsBuckets(s.tables, s.attempts[attempt].lease);
      }
  }

  lemma {:induction false} ExecCooled(s: State, actions: seq<Action>, key: Key, cap: nat)
    requires cap > 0 && Cooled(s.tables, key, cap) && AttemptsCapped(s, key, cap) && Capped(actions, key, cap)
    ensures Cooled(Exec(s, actions).tables, key, cap)
    decreases |actions|
  {
    if actions != [] {
      assert CappedAction(actions[0], key, cap);
      StepCooled(s, actions[0], key, cap);
      ExecCooled(Apply(s, actions[0]), actions[1..], key, cap);
    }
  }

  /** In every run a bucket whose failures have reached the threshold has a cooldown. */
  lemma ThresholdSetsCooldown(clock: int, actions: seq<Action>, key: Key, cap: nat)
    requires cap > 0 && Capped(actions, key, cap)
    ensures var t := Exec(Fresh(clock), actions).tables;
      key in t.buckets && t.buckets[key].failures >= cap ==> t.buckets[key].cooldownUntil.Some?
  {
    ExecCooled(Fresh(clock), actions, key, cap);
  }

  // ----- Locked out --------------------------------------------------------------------------

  ghost predicate Asks(requests: seq<Request>, key: Key) {
    exists i :: 0 <= i < |requests| && requests[i].key == key
  }

  /** The bucket is as given, cooling down, and nobody holds a place in it. */
  ghost predicate Locked(s: State, key: Key, bucket: Bucket) {
    && key in s.tables.buckets && s.tables.buckets[key] == bucket && bucket.cooldownUntil.Some?
    && Live(s.tables.reservations, key, s.clock) == {}
  }

  lemma {:induction false} CoolingRefuses(t: Tables, requests: seq<Request>, now: int, key: Key)
    requires Cooling(t, key, now) && Asks(requests, key)
    ensures ReserveAll(t, requests, now).Err?
    decreases |requests|
  {
    if requests[0].key != key && ReserveOne(t, requests[0], now).Ok? {
      var i :| 0 <= i < |requests| && requests[i].key == key;
      assert requests[1..][i - 1].key == key;
      CoolingRefuses(ReserveOne(t, requests[0], now).value, requests[1..], now, key);
    }
  }

  lemma AskRest(requests: seq<Request>, key: Key)
    requires requests != [] && !Asks(requests, key)
    ensures requests[0].key != key && !Asks(requests[1..], key)
  {
  }

  /** What a batch that does not ask for a bucket leaves of it. */
  ghost predicate Untouched(t: Tables, later: Tables, key: Key, clock: int) {
    && key in t.buckets && key in later.buckets && later.buckets[key] == t.buckets[key]
    && Live(later.reservations, key, clock) <= Live(t.reservations, key, clock)
  }

  lemma {:induction false} ReserveElsewhere(t: Tables, requests: seq<Request>, now: int, key: Key, clock: int)
    requires !Asks(requests, key) && key in t.buckets && ReserveAll(t, requests, now).Ok?
    ensures Untouched(t, ReserveAll(t, requests, now).value, key, clock)
    decreases |requests|
  {
    if requests != [] {
      var next := ReserveOne(t, requests[0], now).value;
      AskRest(requests, key);
      assert Untouched(t, next, key, clock);
      ReserveElsewhere(next, requests[1..], now, key, clock);
    }
  }

  lemma {:induction false} FailElsewhere(
    t: Tables, requests: seq<Request>, kinds: set<Kind>, now: int, key: Key, clock: int)
    requires !Asks(requests, key) && key in t.buckets
    ensures Untouched(t, FailAll(t, requests, kinds, now), key, clock)
    decreases |requests|
  {
    if requests != [] {
      var next := FailOne(t, requests[0], kinds, now);
      AskRest(requests, key);
      LiveRemoved(t.reservations, requests[0].id, key, clock);
      FailElsewhere(next, requests[1..], kinds, now, key, clock);
    }
  }

  lemma {:induction false} SucceedElsewhere(t: Tables, requests: seq<Request>, key: Key, clock: int)
    requires !Asks(requests, key) && key in t.buckets
    ensures Untouched(t, SucceedAll(t, requests), key, clock)
    decreases |requests|
  {
    if requests != [] {
      var next := SucceedOne(t, requests[0]);
      AskRest(requests, key);
      LiveRemoved(t.reservations, requests[0].id, key, clock);
      SucceedElsewhere(next, requests[1..], key, clock);
    }
  }

  lemma HeldIsLive(reservations: map<Id, Reservation>, requests: seq<Request>, now: int, key: Key, clock: int)
    requires Held(reservations, requests, now) && InLease(requests, now, clock)
    requires Live(reservations, key, clock) == {}
    ensures !Asks(requests, key)
  {
    assert forall i :: 0 <= i < |requests| && requests[i].key == key ==>
      requests[i].id in Live(reservations, key, clock);
  }

  lemma StepLocked(s: State, action: Action, key: Key, bucket: Bucket)
    requires AttemptsHold(s) && TimelyAction(s, action) && Locked(s, key, bucket)
    requires action.Begin? ==> action.now < bucket.cooldownUntil.value
    ensures Locked(Apply(s, action), key, bucket)
    ensures action.Begin? && Asks(action.requests, key) ==> Apply(s, action) == s
  {
    match action
    case Tick(_) =>
    case Crash(_) =>
    case Begin(attempt, requests, now) =>
      if Asks(requests, key) {
        CoolingRefuses(s.tables, requests, now, key);
      } else if ReserveAll(s.tables, requests, now).Ok? {
        ReserveElsewhere(s.tables, requests, now, key, s.clock);
      }
    case Fail(attempt, kinds) =>
      if attempt in s.attempts {
        var a := s.attempts[attempt];
        HeldIsLive(s.tables.reservations, a.lease, a.now, key, s.clock);
        FailElsewhere(s.tables, a.lease, kinds, a.now, key, s.clock);
      }
    case Succeed(attempt) =>
      if attempt in s.attempts {
        var a := s.attempts[attempt];
        HeldIsLive(s.tables.reservations, a.lease, a.now, key, s.clock);
        SucceedElsewhere(s.tables, a.lease, key, s.clock);
      }
    case Release(attempt) =>
      if attempt in s.attempts {
        ReleaseKeepsBuckets(s.tables, s.attempts[attempt].lease);
        EndingRemoves(s.tables, s.attempts[attempt].lease, {}, 0);
      }
  }

  ghost predicate BeginsBefore(actions: seq<Action>, end: int) {
    forall i :: 0 <= i < |actions| ==> actions[i].Begin? ==> actions[i].now < end
  }

  lemma {:induction false} ExecLocked(s: State, actions: seq<Action>, key: Key, bucket: Bucket)
    requires AttemptsHold(s) && Timely(s, actions) && Locked(s, key, bucket)
    requires BeginsBefore(actions, bucket.cooldownUntil.value)
    ensures Locked(Exec(s, actions), key, bucket)
    decreases |actions|
  {
    if actions != [] {
      StepLocked(s, actions[0], key, bucket);
      StepHolds(s, actions[0]);
      ExecLocked(Apply(s, actions[0]), actions[1..], key, bucket);
    }
  }

  lemma {:induction false} ExecHolds(s: State, actions: seq<Action>)
    requires AttemptsHold(s)
    ensures AttemptsHold(Exec(s, actions))
    decreases |actions|
  {
    if actions != [] {
      StepHolds(s, actions[0]);
      ExecHolds(Apply(s, actions[0]), actions[1..]);
    }
  }

  /**
   * Once the failures of a bucket have reached its threshold, nobody is admitted to it, and nothing
   * about it changes, neither its count nor its cooldown, until an attempt begins after the cooldown.
   */
  lemma LockedOut(clock: int, before: seq<Action>, actions: seq<Action>, key: Key, cap: nat)
    requires cap > 0 && Capped(before, key, cap) && Timely(Fresh(clock), before)
    requires var s := Exec(Fresh(clock), before);
      && Timely(s, actions) && key in s.tables.buckets && s.tables.buckets[key].failures >= cap
      && (s.tables.buckets[key].cooldownUntil.Some? ==>
            BeginsBefore(actions, s.tables.buckets[key].cooldownUntil.value))
    ensures var s := Exec(Fresh(clock), before); var later := Exec(s, actions);
      && key in later.tables.buckets && later.tables.buckets[key] == s.tables.buckets[key]
      && Live(later.tables.reservations, key, later.clock) == {}
  {
    var s := Exec(Fresh(clock), before);
    ThresholdHolds(clock, before, key, cap);
    ThresholdSetsCooldown(clock, before, key, cap);
    ExecHolds(Fresh(clock), before);
    ExecLocked(s, actions, key, s.tables.buckets[key]);
  }
}

/**
 * The login rate limiter. A login attempt first reserves a place in each of its buckets, for a
 * limited time, then verifies the password, and at last records a failure, a success or neither.
 * Every call works with the time its attempt began, which the clock has left behind.
 */
module LoginLimits {
  import opened Results

  type Key = nat
  type Id = nat
  type AttemptId = nat

  /** Nanoseconds in a second. */
  const Second: int := 1_000_000_000

  datatype Kind = Password | Shared | Entry

  datatype Request = Request(id: Id, kind: Kind, key: Key, threshold: int, window: int, cooldown: int, lease: int)

  datatype Bucket = Bucket(failures: nat, windowStart: int, cooldownUntil: Option<int>)

  datatype Reservation = Reservation(key: Key, until: int)

  datatype Tables = Tables(buckets: map<Key, Bucket>, reservations: map<Id, Reservation>)

  datatype LimitError = RateLimited(retryAfterSeconds: int) | DuplicateReservation

  // ----- Reserving ---------------------------------------------------------------------------

  /** The reservations of a bucket that have not run out. */
  function Live(reservations: map<Id, Reservation>, key: Key, now: int): set<Id> {
    set id | id in reservations && reservations[id].key == key && reservations[id].until > now
  }

  function Failures(t: Tables, key: Key): nat {
    if key in t.buckets then t.buckets[key].failures else 0
  }

  function RetryAfter(at: int, now: int): int {
    if (at - now) / Second < 1 then 1 else (at - now) / Second
  }

  predicate EndsFirst(reservations: map<Id, Reservation>, ids: set<Id>, id: Id)
    requires ids <= reservations.Keys
  {
    id in ids && forall other :: other in ids ==> reservations[id].until <= reservations[other].until
  }

  lemma {:induction false} OneEndsFirst(reservations: map<Id, Reservation>, ids: set<Id>)
    requires ids <= reservations.Keys && ids != {}
    ensures exists id :: EndsFirst(reservations, ids, id)
    decreases |ids|
  {
    var a :| a in ids;
    var rest := ids - {a};
    assert ids == rest + {a};
    if rest == {} {
      assert EndsFirst(reservations, ids, a);
    } else {
      OneEndsFirst(reservations, rest);
      var m :| EndsFirst(reservations, rest, m);
      assert EndsFirst(reservations, ids, if reservations[a].until <= reservations[m].until then a else m);
    }
  }

  /** When the first of some reservations runs out. */
  ghost function FirstEnd(reservations: map<Id, Reservation>, ids: set<Id>): int
    requires ids <= reservations.Keys && ids != {}
  {
    OneEndsFirst(reservations, ids);
    var id :| EndsFirst(reservations, ids, id);
    reservations[id].until
  }

  /** The bucket as a reservation at `now` finds it, its window restarted when it is over. */
  function Opened(t: Tables, request: Request, now: int): Bucket {
    var bucket := if request.key in t.buckets then t.buckets[request.key] else Bucket(0, now, None);
    if now - bucket.windowStart >= request.window then Bucket(0, now, None) else bucket
  }

  predicate Cooling(t: Tables, key: Key, now: int) {
    key in t.buckets && t.buckets[key].cooldownUntil.Some? && t.buckets[key].cooldownUntil.value > now
  }

  predicate Full(t: Tables, request: Request, now: int) {
    Opened(t, request, now).failures + |Live(t.reservations, request.key, now)| >= request.threshold
  }

  ghost function RetryAt(t: Tables, request: Request, now: int): int {
    if Cooling(t, request.key, now) then t.buckets[request.key].cooldownUntil.value
    else
      var live := Live(t.reservations, request.key, now);
      if live == {} then now + request.cooldown else FirstEnd(t.reservations, live)
  }

  function Reserved(t: Tables, request: Request, now: int): Tables {
    Tables(t.buckets[request.key := Opened(t, request, now)],
           t.reservations[request.id := Reservation(request.key, now + request.lease)])
  }

  ghost function ReserveOne(t: Tables, request: Request, now: int): Result<Tables, LimitError> {
    if Cooling(t, request.key, now) || Full(t, request, now) then
      Err(RateLimited(RetryAfter(RetryAt(t, request, now), now)))
    else if request.id in t.reservations then Err(DuplicateReservation)
    else Ok(Reserved(t, request, now))
  }

  /** All the reservations of a batch, or none and the first refusal. */
  ghost function ReserveAll(t: Tables, requests: seq<Request>, now: int): Result<Tables, LimitError>
    decreases |requests|
  {
    if requests == [] then Ok(t)
    else
      match ReserveOne(t, requests[0], now)
      case Err(error) => Err(error)
      case Ok(next) => ReserveAll(next, requests[1..], now)
  }

  // ----- Finishing ---------------------------------------------------------------------------

  function FailOne(t: Tables, request: Request, kinds: set<Kind>, now: int): Tables {
    var reservations := t.reservations - {request.id};
    if request.kind !in kinds || request.key !in t.buckets then Tables(t.buckets, reservations)
    else
      var bucket := t.buckets[request.key];
      var cooldown :=
        if bucket.failures + 1 >= request.threshold then Some(now + request.cooldown) else bucket.cooldownUntil;
      Tables(t.buckets[request.key := bucket.(failures := bucket.failures + 1, cooldownUntil := cooldown)],
        reservations)
  }

  function FailAll(t: Tables, requests: seq<Request>, kinds: set<Kind>, now: int): Tables
    decreases |requests|
  {
    if requests == [] then t else FailAll(FailOne(t, requests[0], kinds, now), requests[1..], kinds, now)
  }

  function SucceedOne(t: Tables, request: Request): Tables {
    Tables(if request.key in t.buckets
           then t.buckets[request.key := t.buckets[request.key].(failures := 0, cooldownUntil := None)] else t.buckets,
           t.reservations - {request.id})
  }

  function SucceedAll(t: Tables, requests: seq<Request>): Tables
    decreases |requests|
  {
    if requests == [] then t else SucceedAll(SucceedOne(t, requests[0]), requests[1..])
  }

  function ReleaseAll(t: Tables, requests: seq<Request>): Tables
    decreases |requests|
  {
    if requests == [] then t
    else ReleaseAll(t.(reservations := t.reservations - {requests[0].id}), requests[1..])
  }

  // ----- Runs --------------------------------------------------------------------------------

  /** An admitted attempt: what it reserved, and when it took its time. */
  datatype Attempt = Attempt(lease: seq<Request>, now: int)

  datatype State = State(clock: int, tables: Tables, attempts: map<AttemptId, Attempt>)

  datatype Action =
    | Tick(to: int)
    | Begin(attempt: AttemptId, requests: seq<Request>, now: int)
    | Fail(attempt: AttemptId, kinds: set<Kind>)
    | Succeed(attempt: AttemptId)
    | Release(attempt: AttemptId)
    | Crash(attempt: AttemptId)

  ghost function Started(s: State, attempt: AttemptId, requests: seq<Request>, now: int): State {
    if attempt in s.attempts || now > s.clock then s
    else
      match ReserveAll(s.tables, requests, now)
      case Err(_) => s
      case Ok(tables) => s.(tables := tables, attempts := s.attempts[attempt := Attempt(requests, now)])
  }

  ghost function Apply(s: State, action: Action): State {
    match action
    case Tick(to) => if to < s.clock then s else s.(clock := to)
    case Begin(attempt, requests, now) => Started(s, attempt, requests, now)
    case Fail(attempt, kinds) =>
      if attempt !in s.attempts then s
      else
        var a := s.attempts[attempt];
        State(s.clock, FailAll(s.tables, a.lease, kinds, a.now), s.attempts - {attempt})
    case Succeed(attempt) =>
      if attempt !in s.attempts then s
      else State(s.clock, SucceedAll(s.tables, s.attempts[attempt].lease), s.attempts - {attempt})
    case Release(attempt) =>
      if attempt !in s.attempts then s
      else State(s.clock, ReleaseAll(s.tables, s.attempts[attempt].lease), s.attempts - {attempt})
    case Crash(attempt) => s.(attempts := s.attempts - {attempt})
  }

  ghost function Exec(s: State, actions: seq<Action>): State
    decreases |actions|
  {
    if actions == [] then s else Exec(Apply(s, actions[0]), actions[1..])
  }

  function Fresh(clock: int): State {
    State(clock, Tables(map[], map[]), map[])
  }

  // ----- The bound on one bucket -------------------------------------------------------------

  /** A failure recorded for `key` although its reservation is not live at the clock. */
  predicate Late(t: Tables, request: Request, kinds: set<Kind>, key: Key, clock: int) {
    request.kind in kinds && request.key == key && request.id !in Live(t.reservations, key, clock)
  }

  function LateIn(t: Tables, requests: seq<Request>, kinds: set<Kind>, now: int, key: Key, clock: int): nat
    decreases |requests|
  {
    if requests == [] then 0
    else (if Late(t, requests[0], kinds, key, clock) then 1 else 0)
         + LateIn(FailOne(t, requests[0], kinds, now), requests[1..], kinds, now, key, clock)
  }

  function LateStep(s: State, action: Action, key: Key): nat {
    if action.Fail? && action.attempt in s.attempts then
      var a := s.attempts[action.attempt];
      LateIn(s.tables, a.lease, action.kinds, a.now, key, s.clock)
    else 0
  }

  /** How many failures of `key` a run records after their reservations ran out. */
  ghost function LateFailures(s: State, actions: seq<Action>, key: Key): nat
    decreases |actions|
  {
    if actions == [] then 0
    else LateStep(s, actions[0], key) + LateFailures(Apply(s, actions[0]), actions[1..], key)
  }

  /** Failures already counted and attempts that may still fail. */
  function Used(t: Tables, key: Key, clock: int): nat {
    Failures(t, key) + |Live(t.reservations, key, clock)|
  }

  /** Every batch of the run asks for at most `cap` failures in bucket `key`. */
  ghost predicate Capped(actions: seq<Action>, key: Key, cap: nat) {
    forall i :: 0 <= i < |actions| ==> CappedAction(actions[i], key, cap)
  }

  ghost predicate CappedAction(action: Action, key: Key, cap: nat) {
    action.Begin? ==> CappedRequests(action.requests, key, cap)
  }

  ghost predicate CappedRequests(requests: seq<Request>, key: Key, cap: nat) {
    forall r :: r in requests && r.key == key ==> r.threshold <= cap
  }

  lemma LiveShrinks(reservations: map<Id, Reservation>, key: Key, now: int, clock: int)
    requires now <= clock
    ensures |Live(reservations, key, clock)| <= |Live(reservations, key, now)|
  {
    Subset(Live(reservations, key, clock), Live(reservations, key, now));
  }

  lemma {:induction false} Subset(a: set<Id>, b: set<Id>)
    requires a <= b
    ensures |a| <= |b|
    decreases |a|
  {
    if a != {} {
      var x :| x in a;
      Subset(a - {x}, b - {x});
    }
  }

  lemma LiveRemoved(reservations: map<Id, Reservation>, id: Id, key: Key, clock: int)
    ensures Live(reservations - {id}, key, clock) == Live(reservations, key, clock) - {id}
  {
  }

  lemma ReserveOneUsed(t: Tables, request: Request, now: int, key: Key, clock: int, limit: nat)
    requires now <= clock && Used(t, key, clock) <= limit
    requires request.key == key ==> request.threshold <= limit
    requires ReserveOne(t, request, now).Ok?
    ensures Used(ReserveOne(t, request, now).value, key, clock) <= limit
  {
    var next := Reserved(t, request, now);
    var before := Live(t.reservations, key, clock);
    var live := Live(next.reservations, key, clock);
    if request.key == key {
      LiveShrinks(t.reservations, key, now, clock);
      assert live <= before + {request.id};
      Subset(live, before + {request.id});
    } else {
      assert live == before;
    }
  }

  lemma {:induction false} ReserveAllUsed(t: Tables, requests: seq<Request>, now: int, key: Key, clock: int, limit: nat)
    requires now <= clock && Used(t, key, clock) <= limit
    requires CappedRequests(requests, key, limit)
    requires ReserveAll(t, requests, now).Ok?
    ensures Used(ReserveAll(t, requests, now).value, key, clock) <= limit
    decreases |requests|
  {
    if requests != [] {
      ReserveOneUsed(t, requests[0], now, key, clock, limit);
      ReserveAllUsed(ReserveOne(t, requests[0], now).value, requests[1..], now, key, clock, limit);
    }
  }

  lemma FailOneUsed(t: Tables, request: Request, kinds: set<Kind>, now: int, key: Key, clock: int)
    ensures Used(FailOne(t, request, kinds, now), key, clock)
      <= Used(t, key, clock) + (if Late(t, request, kinds, key, clock) then 1 else 0)
  {
    LiveRemoved(t.reservations, request.id, key, clock);
  }

  lemma {:induction false} FailAllUsed(
    t: Tables, requests: seq<Request>, kinds: set<Kind>, now: int, key: Key, clock: int)
    ensures Used(FailAll(t, requests, kinds, now), key, clock)
      <= Used(t, key, clock) + LateIn(t, requests, kinds, now, key, clock)
    decreases |requests|
  {
    if requests != [] {
      FailOneUsed(t, requests[0], kinds, now, key, clock);
      FailAllUsed(FailOne(t, requests[0], kinds, now), requests[1..], kinds, now, key, clock);
    }
  }

  lemma {:induction false} SucceedAllUsed(t: Tables, requests: seq<Request>, key: Key, clock: int)
    ensures Used(SucceedAll(t, requests), key, clock) <= Used(t, key, clock)
    decreases |requests|
  {
    if requests != [] {
      LiveRemoved(t.reservations, requests[0].id, key, clock);
      SucceedAllUsed(SucceedOne(t, requests[0]), requests[1..], key, clock);
    }
  }

  lemma {:induction false} ReleaseAllUsed(t: Tables, requests: seq<Request>, key: Key, clock: int)
    ensures Used(ReleaseAll(t, requests), key, clock) <= Used(t, key, clock)
    decreases |requests|
  {
    if requests != [] {
      LiveRemoved(t.reservations, requests[0].id, key, clock);
      ReleaseAllUsed(t.(reservations := t.reservations - {requests[0].id}), requests[1..], key, clock);
    }
  }

  lemma StepUsed(s: State, action: Action, key: Key, cap: nat, late: nat)
    requires Used(s.tables, key, s.clock) <= cap + late && CappedAction(action, key, cap)
    ensures var next := Apply(s, action); Used(next.tables, key, next.clock) <= cap + late + LateStep(s, action, key)
  {
    match action
    case Tick(to) =>
      if to >= s.clock { LiveShrinks(s.tables.reservations, key, s.clock, to); }
    case Begin(attempt, requests, now) =>
      if attempt !in s.attempts && now <= s.clock && ReserveAll(s.tables, requests, now).Ok? {
        ReserveAllUsed(s.tables, requests, now, key, s.clock, cap + late);
      }
    case Fail(attempt, kinds) =>
      if attempt in s.attempts {
        FailAllUsed(s.tables, s.attempts[attempt].lease, kinds, s.attempts[attempt].now, key, s.clock);
      }
    case Succeed(attempt) =>
      if attempt in s.attempts { SucceedAllUsed(s.tables, s.attempts[attempt].lease, key, s.clock); }
    case Release(attempt) =>
      if attempt in s.attempts { ReleaseAllUsed(s.tables, s.attempts[attempt].lease, key, s.clock); }
    case Crash(_) =>
  }

  /**
   * In every run, of any number of concurrent attempts, a bucket's failures and live reservations
   * together exceed its threshold by no more than the failures recorded after their lease.
   */
  lemma {:induction false} UsedWithinCap(s: State, actions: seq<Action>, key: Key, cap: nat, late: nat)
    requires Used(s.tables, key, s.clock) <= cap + late && Capped(actions, key, cap)
    ensures var later := Exec(s, actions);
      Used(later.tables, key, later.clock) <= cap + late + LateFailures(s, actions, key)
    decreases |actions|
  {
    if actions != [] {
      assert CappedAction(actions[0], key, cap);
      StepUsed(s, actions[0], key, cap, late);
      UsedWithinCap(Apply(s, actions[0]), actions[1..], key, cap, late + LateStep(s, actions[0], key));
    }
  }
}

/** The login limiter's tables and the transactions that update them, bucket by bucket. */
module LoginTables {
  import opened Results
  import opened Sorting
  import opened LoginLimits

  function BucketOf(request: Request): int {
    request.key
  }

  /** The order in which a batch takes its buckets. */
  function ByKey(requests: seq<Request>): seq<Request> {
    SortBy(BucketOf, requests)
  }

  // ----- Folds taken from the left -----------------------------------------------------------

  lemma {:induction false} FailAllNext(t: Tables, requests: seq<Request>, kinds: set<Kind>, now: int, i: nat)
    requires i < |requests|
    ensures FailAll(t, requests[..i + 1], kinds, now)
      == FailOne(FailAll(t, requests[..i], kinds, now), requests[i], kinds, now)
    decreases i
  {
    if i == 0 {
      assert requests[..1][1..] == [] && requests[..1][0] == requests[0];
    } else {
      var rest := requests[1..];
      FailAllNext(FailOne(t, requests[0], kinds, now), rest, kinds, now, i - 1);
      assert requests[..i + 1][1..] == rest[..i] && requests[..i][1..] == rest[..i - 1];
    }
  }

  lemma {:induction false} SucceedAllNext(t: Tables, requests: seq<Request>, i: nat)
    requires i < |requests|
    ensures SucceedAll(t, requests[..i + 1]) == SucceedOne(SucceedAll(t, requests[..i]), requests[i])
    decreases i
  {
    if i == 0 {
      assert requests[..1][1..] == [] && requests[..1][0] == requests[0];
    } else {
      var rest := requests[1..];
      SucceedAllNext(SucceedOne(t, requests[0]), rest, i - 1);
      assert requests[..i + 1][1..] == rest[..i] && requests[..i][1..] == rest[..i - 1];
    }
  }

  lemma {:induction false} ReleaseAllNext(t: Tables, requests: seq<Request>, i: nat)
    requires i < |requests|
    ensures var before := ReleaseAll(t, requests[..i]);
      ReleaseAll(t, requests[..i + 1]) == before.(reservations := before.reservations - {requests[i].id})
    decreases i
  {
    if i == 0 {
      assert requests[..1][1..] == [] && requests[..1][0] == requests[0];
    } else {
      var rest := requests[1..];
      ReleaseAllNext(t.(reservations := t.reservations - {requests[0].id}), rest, i - 1);
      assert requests[..i + 1][1..] == rest[..i] && requests[..i][1..] == rest[..i - 1];
    }
  }

  // ----- One reservation ---------------------------------------------------------------------

  /** When the first of some reservations runs out. */
  method FirstToEnd(reservations: map<Id, Reservation>, ids: set<Id>) returns (until: int)
    requires ids <= reservations.Keys && ids != {}
    ensures until == FirstEnd(reservations, ids)
  {
    var id :| id in ids;
    var rest := ids - {id};
    while rest != {}
      invariant rest <= ids && id in ids - rest
      invariant forall other :: other in ids - rest ==> reservations[id].until <= reservations[other].until
      decreases |rest|
    {
      var next :| next in rest;
      if reservations[next].until < reservations[id].until {
        id := next;
      }
      rest := rest - {next};
    }
    assert EndsFirst(reservations, ids, id);
    until := reservations[id].until;
  }

  method Reserve(t: Tables, request: Request, now: int) returns (result: Result<Tables, LimitError>)
    ensures result == ReserveOne(t, request, now)
  {
    var bucket := if request.key in t.buckets then t.buckets[request.key] else Bucket(0, now, None);
    if bucket.cooldownUntil.Some? && bucket.cooldownUntil.value > now {
      return Err(RateLimited(RetryAfter(bucket.cooldownUntil.value, now)));
    }
    if now - bucket.windowStart >= request.window {
      bucket := Bucket(0, now, None);
    }
    var live := Live(t.reservations, request.key, now);
    if bucket.failures + |live| >= request.threshold {
      if live == {} {
        return Err(RateLimited(RetryAfter(now + request.cooldown, now)));
      }
      var until := FirstToEnd(t.reservations, live);
      return Err(RateLimited(RetryAfter(until, now)));
    }
    if request.id in t.reservations {
      return Err(DuplicateReservation);
    }
    return Ok(Tables(t.buckets[request.key := bucket],
                     t.reservations[request.id := Reservation(request.key, now + request.lease)]));
  }

  class LoginRateLimiter {
    var buckets: map<Key, Bucket>
    var reservations: map<Id, Reservation>

    function Contents(): Tables
      reads this
    {
      Tables(buckets, reservations)
    }

    constructor ()
      ensures Contents() == Tables(map[], map[])
    {
      buckets, reservations := map[], map[];
    }

    /** Takes a place in every bucket of the batch; a refusal by any of them leaves all as they were. */
    method ReserveRateLimit(requests: seq<Request>, now: int) returns (result: Result<seq<Request>, LimitError>)
      modifies this
      ensures match ReserveAll(old(Contents()), ByKey(requests), now)
        case Ok(tables) => result == Ok(ByKey(requests)) && Contents() == tables
        case Err(error) => result == Err(error) && Contents() == old(Contents())
    {
      var ordered := ByKey(requests);
      var tables := Contents();
      var i := 0;
      assert ordered[0..] == ordered;
      while i < |ordered|
        invariant 0 <= i <= |ordered|
        invariant ReserveAll(Contents(), ordered, now) == ReserveAll(tables, ordered[i..], now)
        invariant Contents() == old(Contents())
      {
        var reserved := Reserve(tables, ordered[i], now);
        assert ordered[i..][1..] == ordered[i + 1..];
        match reserved {
          case Err(error) =>
            return Err(error);
          case Ok(next) =>
            tables := next;
        }
        i := i + 1;
      }
      buckets, reservations := tables.buckets, tables.reservations;
      return Ok(ordered);
    }

    method ReleaseRateLimit(lease: seq<Request>)
      modifies this`reservations
      ensures Contents() == ReleaseAll(old(Contents()), lease)
    {
      var i := 0;
      while i < |lease|
        invariant 0 <= i <= |lease|
        invariant Contents() == ReleaseAll(old(Contents()), lease[..i])
      {
        ReleaseAllNext(old(Contents()), lease, i);
        reservations := reservations - {lease[i].id};
        i := i + 1;
      }
      assert lease[..i] == lease;
    }

    /** Counts a failure in the buckets of the failed kinds and gives the places back. */
    method RecordRateLimitFailure(lease: seq<Request>, failedKinds: set<Kind>, now: int)
      modifies this
      ensures Contents() == FailAll(old(Contents()), lease, failedKinds, now)
    {
      var i := 0;
      while i < |lease|
        invariant 0 <= i <= |lease|
        invariant Contents() == FailAll(old(Contents()), lease[..i], failedKinds, now)
      {
        FailAllNext(old(Contents()), lease, failedKinds, now, i);
        var request := lease[i];
        if request.kind in failedKinds && request.key in buckets {
          var bucket := buckets[request.key];
          var failures := bucket.failures + 1;
          var cooldown := if failures >= request.threshold then Some(now + request.cooldown) else bucket.cooldownUntil;
          buckets := buckets[request.key := Bucket(failures, bucket.windowStart, cooldown)];
        }
        reservations := reservations - {request.id};
        i := i + 1;
      }
      assert lease[..i] == lease;
    }

    /** The rate limiting part of a successful login: its buckets start over. */
    method ClearAfterSuccess(lease: seq<Request>)
      modifies this
      ensures Contents() == SucceedAll(old(Contents()), lease)
    {
      var i := 0;
      while i < |lease|
        invariant 0 <= i <= |lease|
        invariant Contents() == SucceedAll(old(Contents()), lease[..i])
      {
        SucceedAllNext(old(Contents()), lease, i);
        var key := lease[i].key;
        if key in buckets {
          buckets := buckets[key := Bucket(0, buckets[key].windowStart, None)];
        }
        reservations := reservations - {lease[i].id};
        i := i + 1;
      }
      assert lease[..i] == lease;
    }
  }
}

/**
 * Administrator sessions. A session ends after too long without activity and, whatever happens,
 * after its absolute lifetime; activity is written down only once in a while.
 */
module Sessions {
  import opened Results

  datatype Settings = Settings(idle: int, absolute: int, persistInterval: int)

  /** Positive durations, the idle one between the other two. */
  predicate Valid(c: Settings) {
    c.idle > 0 && c.absolute > 0 && c.persistInterval > 0 && c.absolute >= c.idle && c.persistInterval <= c.idle
  }

  datatype Session = Session(createdAt: int, lastActivity: int, idleExpires: int, absoluteExpires: int, revoked: bool)

  datatype SessionError = NotFound

  function Earlier(a: int, b: int): int {
    if a < b then a else b
  }

  function Issued(c: Settings, now: int): Session {
    Session(now, now, now + c.idle, now + c.absolute, false)
  }

  predicate Live(s: Session, now: int) {
    !s.revoked && s.idleExpires > now && s.absoluteExpires > now
  }

  /** A use of the session: refused, or accepted with its next expiry and possibly written down. */
  function Used(c: Settings, s: Session, now: int): Result<Session, SessionError> {
    if !Live(s, now) then Err(NotFound)
    else if now - s.lastActivity >= c.persistInterval then
      Ok(s.(lastActivity := now, idleExpires := Earlier(now + c.idle, s.absoluteExpires)))
    else Ok(s)
  }

  /** Whether every use of a run is accepted. */
  predicate AllAccepted(c: Settings, s: Session, uses: seq<int>)
    decreases |uses|
  {
    uses == [] || (Used(c, s, uses[0]).Ok? && AllAccepted(c, Used(c, s, uses[0]).value, uses[1..]))
  }

  /** The session after the accepted uses of a run. */
  function After(c: Settings, s: Session, uses: seq<int>): Session
    decreases |uses|
  {
    if uses == [] then s
    else After(c, if Used(c, s, uses[0]).Ok? then Used(c, s, uses[0]).value else s, uses[1..])
  }

  function LastUse(issued: int, uses: seq<int>): int {
    if uses == [] then issued else uses[|uses| - 1]
  }

  /** No use comes before the one before it, and none later than `gap` after it. */
  predicate Regular(last: int, uses: seq<int>, gap: int)
    decreases |uses|
  {
    uses == [] || (last <= uses[0] <= last + gap && Regular(uses[0], uses[1..], gap))
  }

  predicate Ordered(last: int, uses: seq<int>)
    decreases |uses|
  {
    uses == [] || (last <= uses[0] && Ordered(uses[0], uses[1..]))
  }

  /** Activity is at most one persist interval behind the last use, and the idle expiry follows it. */
  ghost predicate Tracks(c: Settings, s: Session, issued: int, lastUse: int) {
    && !s.revoked
    && s.absoluteExpires == issued + c.absolute
    && s.lastActivity <= lastUse < s.lastActivity + c.persistInterval
    && s.idleExpires == Earlier(s.lastActivity + c.idle, s.absoluteExpires)
  }

  lemma UseTracks(c: Settings, s: Session, issued: int, lastUse: int, now: int)
    requires Valid(c) && Tracks(c, s, issued, lastUse) && lastUse <= now && Used(c, s, now).Ok?
    ensures Tracks(c, Used(c, s, now).value, issued, now)
  {
  }

  /**
   * A session used again and again, each time within the idle timeout less the persist interval, is
   * accepted every time until its absolute lifetime ends.
   */
  lemma {:induction false} RegularUseIsAccepted(c: Settings, s: Session, issued: int, lastUse: int, uses: seq<int>)
    requires Valid(c) && Tracks(c, s, issued, lastUse)
    requires Regular(lastUse, uses, c.idle - c.persistInterval)
    requires forall i :: 0 <= i < |uses| ==> uses[i] < issued + c.absolute
    ensures AllAccepted(c, s, uses)
    decreases |uses|
  {
    if uses != [] {
      var now, rest := uses[0], uses[1..];
      UseTracks(c, s, issued, lastUse, now);
      assert forall i :: 0 <= i < |rest| ==> rest[i] == uses[i + 1];
      RegularUseIsAccepted(c, Used(c, s, now).value, issued, now, rest);
    }
  }

  lemma KeptAlive(c: Settings, issued: int, uses: seq<int>)
    requires Valid(c) && Regular(issued, uses, c.idle - c.persistInterval)
    requires forall i :: 0 <= i < |uses| ==> uses[i] < issued + c.absolute
    ensures AllAccepted(c, Issued(c, issued), uses)
  {
    RegularUseIsAccepted(c, Issued(c, issued), issued, issued, uses);
  }

  lemma {:induction false} AcceptedTracks(c: Settings, s: Session, issued: int, lastUse: int, uses: seq<int>)
    requires Valid(c) && Tracks(c, s, issued, lastUse) && Ordered(lastUse, uses) && AllAccepted(c, s, uses)
    ensures Tracks(c, After(c, s, uses), issued, LastUse(lastUse, uses))
    decreases |uses|
  {
    if uses != [] {
      var now, rest := uses[0], uses[1..];
      UseTracks(c, s, issued, lastUse, now);
      AcceptedTracks(c, Used(c, s, now).value, issued, now, rest);
    }
  }

  /**
   * After any run of accepted uses, the next one is surely accepted within the idle timeout less the
   * persist interval, surely refused after the whole idle timeout, and always refused once the
   * absolute lifetime is over.
   */
  lemma NextUse(c: Settings, issued: int, uses: seq<int>, now: int)
    requires Valid(c) && Ordered(issued, uses) && AllAccepted(c, Issued(c, issued), uses)
    requires LastUse(issued, uses) <= now
    ensures var s := After(c, Issued(c, issued), uses); var gap := now - LastUse(issued, uses);
      && (Used(c, s, now).Ok? ==> gap < c.idle && now < issued + c.absolute)
      && (gap <= c.idle - c.persistInterval && now < issued + c.absolute ==> Used(c, s, now).Ok?)
      && (Used(c, s, now).Ok? <==> now < Earlier(s.lastActivity + c.idle, issued + c.absolute))
  {
    AcceptedTracks(c, Issued(c, issued), issued, issued, uses);
  }

  /** A refused session stays refused: no later use brings it back. */
  lemma {:induction false} RefusedForGood(c: Settings, s: Session, now: int, uses: seq<int>)
    requires !Live(s, now) && Ordered(now, uses)
    ensures After(c, s, uses) == s
    ensures forall i :: 0 <= i < |uses| ==> Used(c, s, uses[i]).Err?
    decreases |uses|
  {
    if uses != [] {
      RefusedForGood(c, s, uses[0], uses[1..]);
      forall i | 0 <= i < |uses|
        ensures Used(c, s, uses[i]).Err?
      {
        if i > 0 {
          assert uses[i] == uses[1..][i - 1];
        }
      }
    }
  }

  /**
   * A use is accepted exactly when the session is not revoked and neither of its expiries has come. It is
   * written down only when the last activity written is a persist interval old: then as that activity,
   * with the idle expiry that follows from it and never after the absolute one.
   */
  lemma UseIs(c: Settings, s: Session, now: int, outcome: Result<Session, SessionError>)
    requires outcome == Used(c, s, now)
    ensures outcome.Ok? <==> !s.revoked && now < s.idleExpires && now < s.absoluteExpires
    ensures outcome.Ok? && now < s.lastActivity + c.persistInterval ==> outcome.value == s
    ensures outcome.Ok? && s.lastActivity + c.persistInterval <= now ==>
      && outcome.value == s.(lastActivity := now, idleExpires := outcome.value.idleExpires)
      && outcome.value.idleExpires <= now + c.idle && outcome.value.idleExpires <= s.absoluteExpires
      && (outcome.value.idleExpires == now + c.idle || outcome.value.idleExpires == s.absoluteExpires)
  {
  }

  /** A new session ends after the idle timeout or the absolute lifetime. */
  lemma IssuedIs(c: Settings, now: int)
    ensures var s := Issued(c, now);
      && s.createdAt == now && s.lastActivity == now && !s.revoked
      && s.idleExpires == now + c.idle && s.absoluteExpires == now + c.absolute
  {
  }

  /** How many uses of a run are written down. */
  function Writes(c: Settings, s: Session, uses: seq<int>): nat
    decreases |uses|
  {
    if uses == [] then 0
    else
      var next := After(c, s, uses[..1]);
      (if next == s then 0 else 1) + Writes(c, next, uses[1..])
  }

  lemma OneUse(c: Settings, s: Session, uses: seq<int>)
    requires uses != []
    ensures var next := After(c, s, uses[..1]);
      && next == (if Used(c, s, uses[0]).Ok? then Used(c, s, uses[0]).value else s)
      && After(c, s, uses) == After(c, next, uses[1..])
  {
    assert uses[..1][1..] == [];
  }

  /** Writing is rare: in every run each write comes at least a persist interval after the one before it. */
  lemma {:induction false} WritesAreRare(c: Settings, s: Session, uses: seq<int>)
    requires c.persistInterval > 0
    ensures Writes(c, s, uses) * c.persistInterval <= After(c, s, uses).lastActivity - s.lastActivity
    decreases |uses|
  {
    if uses != [] {
      var next := After(c, s, uses[..1]);
      OneUse(c, s, uses);
      UseIs(c, s, uses[0], Used(c, s, uses[0]));
      WritesAreRare(c, next, uses[1..]);
    }
  }

  class SessionRepository {
    var sessions: map<nat, Session>

    /** Accepts a session by its token and keeps its activity up to date. */
    method AuthenticateSession(token: nat, now: int, c: Settings) returns (result: Result<int, SessionError>)
      modifies this
      ensures result.Ok? <==> token in old(sessions) && Live(old(sessions)[token], now)
      ensures result.Err? ==> sessions == old(sessions)
      ensures result.Ok? ==>
        && Used(c, old(sessions)[token], now).Ok?
        && sessions == old(sessions)[token := Used(c, old(sessions)[token], now).value]
        && result.value == Earlier(sessions[token].idleExpires, sessions[token].absoluteExpires)
    {
      if token !in sessions || !Live(sessions[token], now) {
        return Err(NotFound);
      }
      var session := sessions[token];
      var expires := Earlier(session.idleExpires, session.absoluteExpires);
      if now - session.lastActivity >= c.persistInterval {
        var idle := Earlier(now + c.idle, session.absoluteExpires);
        sessions := sessions[token := session.(lastActivity := now, idleExpires := idle)];
        expires := idle;
      } else {
        assert sessions == sessions[token := session];
      }
      return Ok(expires);
    }

    method RevokeSession(token: nat)
      modifies this
      ensures sessions == if token !in old(sessions) then old(sessions)
                          else old(sessions)[token := old(sessions)[token].(revoked := true)]
    {
      if token in sessions {
        sessions := sessions[token := sessions[token].(revoked := true)];
      }
    }
  }
}

/**
 * The login throttle (control/services/auth_security.py, lines 51-76): failures are counted in a
 * window, and reaching the maximum locks the subject out for a cooldown.
 *
 * One row, one policy. Times and durations are in microseconds; the policy comes from the
 * environment and is any three integers.
 */
module AuthThrottle {
  import opened Prelude

  datatype Policy = Policy(maximum: int, window: int, cooldown: int)

  datatype Row = Row(failures: int, windowStart: int, lastFailure: int, lockedUntil: Option<int>)

  predicate Throttled(row: Option<Row>, now: int) {
    row.Some? && row.value.lockedUntil.Some? && row.value.lockedUntil.value > now
  }

  /** The row after a failure at `now`. */
  function Recorded(row: Option<Row>, now: int, p: Policy): Row {
    var r := if row.Some? then row.value else Row(0, now, now, None);
    var current := if r.windowStart <= now - p.window then Row(0, now, now, None) else r;
    var failures := current.failures + 1;
    Row(failures, current.windowStart, now,
        if failures >= p.maximum then Some(now + p.cooldown) else current.lockedUntil)
  }

  const SECOND := 1000000

  datatype Scope = PasswordIp | PasswordUser | TotpIp | RecoveryUser | ReauthUser

  function DefaultPolicy(scope: Scope): Policy {
    match scope
    case PasswordIp => Policy(5, 300 * SECOND, 900 * SECOND)
    case PasswordUser => Policy(8, 900 * SECOND, 1800 * SECOND)
    case TotpIp => Policy(5, 300 * SECOND, 900 * SECOND)
    case RecoveryUser => Policy(3, 1800 * SECOND, 3600 * SECOND)
    case ReauthUser => Policy(5, 900 * SECOND, 1800 * SECOND)
  }

  class Throttle {
    var row: Option<Row>

    constructor ()
      ensures row == None
    {
      row := None;
    }

    method EnsureNotThrottled(now: int) returns (throttled: bool)
      ensures throttled <==> Throttled(row, now)
    {
      throttled := row.Some? && row.value.lockedUntil.Some? && row.value.lockedUntil.value > now;
    }

    method RecordFailure(now: int, p: Policy)
      modifies this
      ensures row == Some(Recorded(old(row), now, p))
    {
      var r := if row.Some? then row.value else Row(0, now, now, None);
      if r.windowStart <= now - p.window {
        r := r.(failures := 0, windowStart := now, lockedUntil := None);
      }
      r := r.(failures := r.failures + 1, lastFailure := now);
      if r.failures >= p.maximum {
        r := r.(lockedUntil := Some(now + p.cooldown));
      }
      row := Some(r);
    }

    method Reset()
      modifies this
      ensures row == None
    {
      row := None;
    }
  }

  // ---------------------------------------------------------------- one request at a time

  /** A failing request is checked after `elapsed` and, if let through, recorded `delay` later. */
  datatype Event = FailingRequest(elapsed: nat, delay: nat) | Reset(elapsed: nat)

  /** `total` failures and `windows` windows since the row was created at `created`. */
  datatype State = State(row: Option<Row>, now: int, total: int, windows: int, created: int)

  function Start(now: int): State {
    State(None, now, 0, 0, now)
  }

  function Next(s: State, e: Event, p: Policy): State {
    match e
    case Reset(elapsed) => Start(s.now + elapsed)
    case FailingRequest(elapsed, delay) =>
      if Throttled(s.row, s.now + elapsed) then s.(now := s.now + elapsed)
      else
        var now := s.now + elapsed + delay;
        var row := Recorded(s.row, now, p);
        State(Some(row), now, s.total + 1,
              if s.row.None? || s.row.value.windowStart <= now - p.window then s.windows + 1 else s.windows,
              if s.row.None? then now else s.created)
  }

  function Play(s: State, events: seq<Event>, p: Policy): State {
    if events == [] then s else Next(Play(s, events[..|events| - 1], p), events[|events| - 1], p)
  }

  function Failures(s: State): int {
    if s.row.Some? then s.row.value.failures else 0
  }

  function Cap(p: Policy): int {
    if p.maximum > 1 then p.maximum else 1
  }

  /** The lock outlives the window, or there is no window to speak of. */
  predicate LockOutlivesWindow(p: Policy) {
    p.cooldown >= p.window || p.window <= 0
  }

  ghost predicate Bounded(s: State, p: Policy) {
    s.row.Some? ==>
      var r := s.row.value;
      && 1 <= r.failures <= Cap(p) && r.windowStart <= r.lastFailure <= s.now
      && r.lockedUntil == (if r.failures >= p.maximum then Some(r.lastFailure + p.cooldown) else None)
      && (p.window <= 0 ==> r.failures == 1)
  }

  lemma NextKeepsBounded(s: State, e: Event, p: Policy)
    requires Bounded(s, p) && LockOutlivesWindow(p)
    ensures Bounded(Next(s, e, p), p)
  {
  }

  lemma {:induction false} RunsAreBounded(now: int, events: seq<Event>, p: Policy)
    requires LockOutlivesWindow(p)
    ensures Bounded(Play(Start(now), events, p), p)
  {
    if events != [] {
      RunsAreBounded(now, events[..|events| - 1], p);
      NextKeepsBounded(Play(Start(now), events[..|events| - 1], p), events[|events| - 1], p);
    }
  }

  // The bound fails for every other policy: fill the window, wait for the lock to end, fail again.

  function Fill(n: nat): (events: seq<Event>)
    ensures |events| == n
  {
    if n == 0 then [] else Fill(n - 1) + [FailingRequest(0, 0)]
  }

  lemma {:induction false} FillFills(n: nat, p: Policy)
    requires 0 < n <= Cap(p) && p.window > 0
    ensures Play(Start(0), Fill(n), p).row == Some(Row(n, 0, 0, if n >= p.maximum then Some(p.cooldown) else None))
    ensures Play(Start(0), Fill(n), p).now == 0
  {
    assert Fill(n)[..n - 1] == Fill(n - 1);
    if n > 1 {
      FillFills(n - 1, p);
    } else {
      assert Play(Start(0), [], p) == Start(0);
    }
  }

  function Overrun(p: Policy): seq<Event> {
    Fill(Cap(p)) + [FailingRequest(if p.cooldown > 0 then p.cooldown else 0, 0)]
  }

  lemma OverrunExceeds(p: Policy)
    requires !LockOutlivesWindow(p)
    ensures Failures(Play(Start(0), Overrun(p), p)) == Cap(p) + 1
  {
    FillFills(Cap(p), p);
    assert Overrun(p)[..|Overrun(p)| - 1] == Fill(Cap(p));
  }

  /** The counter never passes the maximum, over any run, exactly when the cooldown covers the window. */
  lemma CounterBoundedIff(p: Policy)
    ensures LockOutlivesWindow(p) <==>
              forall now: int, events: seq<Event> :: Failures(Play(Start(now), events, p)) <= Cap(p)
  {
    if LockOutlivesWindow(p) {
      forall now: int, events: seq<Event> ensures Failures(Play(Start(now), events, p)) <= Cap(p) {
        RunsAreBounded(now, events, p);
      }
    } else {
      OverrunExceeds(p);
    }
  }

  /** Every built-in policy keeps its counter within its maximum. */
  lemma DefaultsAreBounded(scope: Scope, now: int, events: seq<Event>)
    ensures Failures(Play(Start(now), events, DefaultPolicy(scope))) <= DefaultPolicy(scope).maximum
  {
    RunsAreBounded(now, events, DefaultPolicy(scope));
  }

  /** The built-in policies: failures tolerated, minutes of the window, minutes of the cooldown. */
  lemma DefaultsAre(scope: Scope)
    ensures var p := DefaultPolicy(scope);
            && (scope in {PasswordIp, TotpIp} ==>
                  p.maximum == 5 && p.window == 5 * 60 * 1000000 && p.cooldown == 15 * 60 * 1000000)
            && (scope == PasswordUser ==>
                  p.maximum == 8 && p.window == 15 * 60 * 1000000 && p.cooldown == 30 * 60 * 1000000)
            && (scope == RecoveryUser ==>
                  p.maximum == 3 && p.window == 30 * 60 * 1000000 && p.cooldown == 60 * 60 * 1000000)
            && (scope == ReauthUser ==>
                  p.maximum == 5 && p.window == 15 * 60 * 1000000 && p.cooldown == 30 * 60 * 1000000)
  {
  }

  /** A request that is let through and fails is recorded when it fails; a refused one leaves the row alone. */
  lemma RequestsAreRecorded(s: State, elapsed: nat, delay: nat, p: Policy)
    ensures var t := Next(s, FailingRequest(elapsed, delay), p);
            if Throttled(s.row, s.now + elapsed)
            then t.row == s.row && t.now == s.now + elapsed && t.total == s.total
            else
              && t.now == s.now + elapsed + delay && t.total == s.total + 1
              && t.row.Some? && t.row.value.lastFailure == t.now
              && t.created == (if s.row == None then t.now else s.created)
              && (t.windows > s.windows <==> s.row == None || s.row.value.windowStart + p.window <= t.now)
              && (s.windows <= t.windows <= s.windows + 1)
    ensures Next(s, Reset(elapsed), p) == Start(s.now + elapsed)
  {
  }

  /** What a failure leaves: in the window one more, after it the first; and a lock exactly from the maximum on. */
  lemma RecordedSays(row: Option<Row>, now: int, p: Policy)
    ensures var r := Recorded(row, now, p);
            var anew := row == None || row.value.windowStart + p.window <= now;
            && r.failures == (if anew then 1 else row.value.failures + 1)
            && r.windowStart == (if anew then now else row.value.windowStart)
            && r.lastFailure == now
            && (r.failures >= p.maximum ==> r.lockedUntil == Some(now + p.cooldown))
            && (r.failures < p.maximum ==> r.lockedUntil == if anew then None else row.value.lockedUntil)
  {
  }

  /** Requests are refused exactly while the maximum is reached and the cooldown after the last failure runs. */
  lemma RefusedIff(now: int, events: seq<Event>, p: Policy, elapsed: nat)
    requires LockOutlivesWindow(p)
    ensures var s := Play(Start(now), events, p);
            Throttled(s.row, s.now + elapsed) <==>
              s.row.Some? && Failures(s) == Cap(p) && s.now + elapsed < s.row.value.lastFailure + p.cooldown
  {
    RunsAreBounded(now, events, p);
  }

  // ---------------------------------------------------------------- the rate

  /** Windows start at least one window length apart and each holds at most the cap. */
  ghost predicate Rated(s: State, p: Policy) {
    && (s.row.None? ==> s.total == 0 && s.windows == 0)
    && (s.row.Some? ==>
         && 1 <= s.windows && s.total <= Cap(p) * (s.windows - 1) + s.row.value.failures
         && s.created + p.window * (s.windows - 1) <= s.row.value.windowStart)
  }

  lemma NextKeepsRated(s: State, e: Event, p: Policy)
    requires Rated(s, p) && Bounded(s, p) && p.cooldown >= p.window > 0
    ensures Rated(Next(s, e, p), p)
  {
  }

  lemma {:induction false} RunsAreRated(now: int, events: seq<Event>, p: Policy)
    requires p.cooldown >= p.window > 0
    ensures Rated(Play(Start(now), events, p), p)
  {
    if events != [] {
      hide Rated, Bounded, Next;
      RunsAreRated(now, events[..|events| - 1], p);
      RunsAreBounded(now, events[..|events| - 1], p);
      NextKeepsRated(Play(Start(now), events[..|events| - 1], p), events[|events| - 1], p);
    } else {
      assert Rated(Start(now), p);
    }
  }

  lemma Quotient(windows: int, window: int, t: int)
    requires window > 0 && window * (windows - 1) <= t
    ensures windows - 1 <= t / window
  {
    var q := t / window;
    assert windows - 1 <= q || window * (windows - 1) >= window * (q + 1);
  }

  lemma Monotone(cap: int, a: int, b: int)
    requires cap >= 0 && a <= b
    ensures cap * a <= cap * b
  {
  }

  /** In the first `t` after the row was created at most maximum * (t / window + 1) failures get through. */
  lemma FailureRateIsBounded(now: int, events: seq<Event>, p: Policy, t: nat)
    requires p.cooldown >= p.window > 0
    requires var s := Play(Start(now), events, p); s.row.Some? && s.row.value.lastFailure <= s.created + t
    ensures Play(Start(now), events, p).total <= Cap(p) * (t / p.window + 1)
  {
    RunsAreRated(now, events, p);
    RunsAreBounded(now, events, p);
    var s := Play(Start(now), events, p);
    Quotient(s.windows, p.window, t);
    Monotone(Cap(p), s.windows, t / p.window + 1);
    assert Cap(p) * s.windows == Cap(p) * (s.windows - 1) + Cap(p);
  }

  // ---------------------------------------------------------------- requests at once

  /** `n` requests that were all checked before any of them was recorded, recorded at `now`. */
  function RecordedTogether(row: Option<Row>, now: int, p: Policy, n: nat): Option<Row> {
    if n == 0 then row else Some(Recorded(RecordedTogether(row, now, p, n - 1), now, p))
  }

  /** Check and record are separate: for every policy with a window, enough simultaneous requests pass any bound. */
  lemma {:induction false} SimultaneousRequestsOvershoot(now: int, p: Policy, n: nat)
    requires p.window > 0 && n > 0
    ensures !Throttled(None, now)
    ensures RecordedTogether(None, now, p, n).Some? && RecordedTogether(None, now, p, n).value.failures == n
    ensures RecordedTogether(None, now, p, n).value.windowStart == now
  {
    if n > 1 {
      SimultaneousRequestsOvershoot(now, p, n - 1);
    } else {
      assert RecordedTogether(None, now, p, 0) == None;
    }
  }
}

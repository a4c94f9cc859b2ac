/**
 * Webhook events (control/services/agentgigs.py, lines 451-480 and 503-607): workers claim an
 * event, handle it outside any transaction and write the outcome back without checking that the
 * claim is still theirs. A watchdog (control/services/recovery.py, lines 172-176) first selects the
 * events whose claims look stale and then fails them one by one, by key.
 *
 * Events are numbered in creation order; time is in microseconds. What the handler does with the
 * event is an oracle.
 */
module WebhookEvents {
  import opened Prelude

  const MAX_ATTEMPTS := 5
  const STALE := 300000000
  const MIN_WINDOW := 60000000

  datatype Status = Received | Processing | Processed | Failed

  datatype Event = Event(status: Status, attempts: nat, lastAttempt: Option<int>)

  const NEW := Event(Received, 0, None)

  /** Neither processed nor under a claim of the last 300 seconds. */
  predicate Unprotected(e: Event, now: int) {
    && !e.status.Processed?
    && !(e.status.Processing? && e.lastAttempt.Some? && e.lastAttempt.value > now - STALE)
  }

  /** The claim transaction refuses processed, freshly claimed and exhausted events. */
  predicate Claimable(e: Event, now: int) {
    Unprotected(e, now) && e.attempts < MAX_ATTEMPTS
  }

  /** Exactly which events a worker may claim, and what the row is then. */
  lemma ClaimSays(e: Event, now: int)
    ensures Claimable(e, now) <==>
              && e.attempts < 5 && e.status != Processed
              && (e.status == Processing && e.lastAttempt.Some? ==> now - e.lastAttempt.value >= 300000000)
    ensures Claimable(e, now) ==>
              Claimed(e, now).status == Processing && Claimed(e, now).attempts == 1 + e.attempts
              && Claimed(e, now).lastAttempt == Some(now)
    ensures !Claimable(e, now) ==> Claimed(e, now) == e
  {
  }

  function Claimed(e: Event, now: int): Event {
    if Claimable(e, now) then Event(Processing, e.attempts + 1, Some(now)) else e
  }

  function Finished(e: Event, success: bool): Event {
    e.(status := if success then Processed else Failed)
  }

  // ---------------------------------------------------------------- interleaved workers

  /** One claim: handling, handled with the audit record still to write, complete, or failed. */
  datatype Phase = Handling | Auditing | Complete | GaveUp

  datatype Claim = Claim(event: nat, at: int, phase: Phase)

  /** `marked` holds the events that a watchdog has selected and not written yet. */
  datatype State = State(events: seq<Event>, claims: seq<Claim>, now: int, marked: set<nat>)

  /** Every action happens `elapsed` after the previous one; a crashed worker just stops acting. */
  datatype Action =
    | TryClaim(event: nat, elapsed: nat)
    | Succeed(claim: nat, elapsed: nat)
    | WriteAudit(claim: nat, elapsed: nat)
    | Fail(claim: nat, elapsed: nat)   // the handler raised, or the audit record could not be written
    | MarkStale(event: nat, window: nat, elapsed: nat)
    | FailMarked(event: nat, elapsed: nat)

  function Start(n: nat, now: int): State {
    State(seq(n, _ => NEW), [], now, {})
  }

  /** The watchdog's query: `window` reaches from its cutoff to the query, and is at least a minute. */
  predicate LooksStale(e: Event, now: int, window: nat) {
    && e.status.Processing? && e.lastAttempt.Some?
    && e.lastAttempt.value < now - (if window < MIN_WINDOW then MIN_WINDOW else window)
  }

  predicate Enabled(s: State, a: Action) {
    match a
    case TryClaim(e, _) => e < |s.events|
    case Succeed(c, _) => c < |s.claims| && s.claims[c].phase.Handling? && s.claims[c].event < |s.events|
    case WriteAudit(c, _) => c < |s.claims| && s.claims[c].phase.Auditing? && s.claims[c].event < |s.events|
    case Fail(c, _) =>
      c < |s.claims| && !(s.claims[c].phase.Complete? || s.claims[c].phase.GaveUp?) && s.claims[c].event < |s.events|
    case MarkStale(e, window, elapsed) => e < |s.events| && LooksStale(s.events[e], s.now + elapsed, window)
    case FailMarked(e, _) => e < |s.events| && e in s.marked
  }

  function WithClaim(s: State, c: nat, phase: Phase, now: int): State
    requires c < |s.claims|
  {
    s.(claims := s.claims[c := s.claims[c].(phase := phase)], now := now)
  }

  function Finish(s: State, c: nat, success: bool, now: int): State
    requires c < |s.claims| && s.claims[c].event < |s.events|
  {
    var e := s.claims[c].event;
    WithClaim(s, c, if success then Auditing else GaveUp, now).(events := s.events[e := Finished(s.events[e], success)])
  }

  function Next(s: State, a: Action): State {
    if !Enabled(s, a) then s
    else
      var now := s.now + a.elapsed;
      match a
      case TryClaim(e, _) =>
        if Claimable(s.events[e], now)
        then s.(events := s.events[e := Claimed(s.events[e], now)],
                claims := s.claims + [Claim(e, now, Handling)], now := now)
        else s.(now := now)
      case Succeed(c, _) => Finish(s, c, true, now)
      case WriteAudit(c, _) => WithClaim(s, c, Complete, now)
      case Fail(c, _) => Finish(s, c, false, now)
      case MarkStale(e, _, _) => s.(marked := s.marked + {e}, now := now)
      case FailMarked(e, _) =>
        s.(events := s.events[e := Finished(s.events[e], false)], marked := s.marked - {e}, now := now)
  }

  function Play(s: State, actions: seq<Action>): State {
    if actions == [] then s else Next(Play(s, actions[..|actions| - 1]), actions[|actions| - 1])
  }

  /**
   * What the watchdog does: it selects exactly the claims past its window of at least a minute, and fails
   * what it selected.
   */
  lemma WatchdogActs(s: State, e: nat, window: nat, elapsed: nat)
    requires e < |s.events|
    ensures var now, t := s.now + elapsed, Next(s, MarkStale(e, window, elapsed));
            var last := s.events[e].lastAttempt;
            var stale := s.events[e].status == Processing && last.Some?
                         && now - last.value > 60000000 && now - last.value > window;
            t.marked == (if stale then s.marked + {e} else s.marked) && t.events == s.events && t.claims == s.claims
    ensures var t := Next(s, FailMarked(e, elapsed));
            if e in s.marked
            then
              && t.marked == s.marked - {e} && t.claims == s.claims
              && t.events == s.events[e := s.events[e].(status := Failed)]
            else t == s
  {
  }

  function ClaimsOf(claims: seq<Claim>, e: nat): (n: nat)
    ensures n <= |claims|
  {
    if claims == [] then 0
    else ClaimsOf(claims[..|claims| - 1], e) + if claims[|claims| - 1].event == e then 1 else 0
  }

  /** Attempt counters count claims, and claims are for existing events. */
  ghost predicate Counted(s: State) {
    && (forall c :: 0 <= c < |s.claims| ==> s.claims[c].event < |s.events|)
    && forall e: nat :: e < |s.events| ==> s.events[e].attempts == ClaimsOf(s.claims, e) <= MAX_ATTEMPTS
  }

  lemma {:induction false} PhasesDoNotCount(a: seq<Claim>, b: seq<Claim>, e: nat)
    requires |a| == |b| && forall i :: 0 <= i < |a| ==> a[i].event == b[i].event
    ensures ClaimsOf(a, e) == ClaimsOf(b, e)
  {
    if a != [] {
      PhasesDoNotCount(a[..|a| - 1], b[..|b| - 1], e);
    }
  }

  lemma NextKeepsCounted(s: State, a: Action)
    requires Counted(s)
    ensures Counted(Next(s, a)) && |Next(s, a).events| == |s.events|
  {
    var t := Next(s, a);
    if Enabled(s, a) {
      forall e: nat | e < |t.events| ensures t.events[e].attempts == ClaimsOf(t.claims, e) <= MAX_ATTEMPTS {
        if |t.claims| == |s.claims| {
          PhasesDoNotCount(s.claims, t.claims, e);
        } else {
          assert t.claims[..|t.claims| - 1] == s.claims;
        }
      }
    }
  }

  lemma {:induction false} PlayKeepsCounted(n: nat, now: int, actions: seq<Action>)
    ensures Counted(Play(Start(n, now), actions)) && |Play(Start(n, now), actions).events| == n
  {
    if actions != [] {
      PlayKeepsCounted(n, now, actions[..|actions| - 1]);
      NextKeepsCounted(Play(Start(n, now), actions[..|actions| - 1]), actions[|actions| - 1]);
    }
  }

  /** Claims for the first `n` events only, summed event by event. */
  function TotalOf(claims: seq<Claim>, n: nat): nat {
    if n == 0 then 0 else TotalOf(claims, n - 1) + ClaimsOf(claims, n - 1)
  }

  lemma {:induction false} TotalOfExtended(claims: seq<Claim>, c: Claim, n: nat)
    ensures TotalOf(claims + [c], n) == TotalOf(claims, n) + if c.event < n then 1 else 0
  {
    if n > 0 {
      TotalOfExtended(claims, c, n - 1);
      assert (claims + [c])[..|claims|] == claims;
    }
  }

  lemma {:induction false} TotalOfNone(n: nat)
    ensures TotalOf([], n) == 0
  {
    if n > 0 { TotalOfNone(n - 1); }
  }

  lemma {:induction false} TotalIsLength(claims: seq<Claim>, n: nat)
    requires forall c :: 0 <= c < |claims| ==> claims[c].event < n
    ensures TotalOf(claims, n) == |claims|
  {
    if claims == [] {
      TotalOfNone(n);
    } else {
      var front, last := claims[..|claims| - 1], claims[|claims| - 1];
      assert claims == front + [last];
      TotalIsLength(front, n);
      TotalOfExtended(front, last, n);
    }
  }

  lemma {:induction false} TotalIsBounded(claims: seq<Claim>, n: nat)
    requires forall e: nat :: e < n ==> ClaimsOf(claims, e) <= MAX_ATTEMPTS
    ensures TotalOf(claims, n) <= MAX_ATTEMPTS * n
  {
    if n > 0 { TotalIsBounded(claims, n - 1); }
  }

  /** Whatever the workers do and whenever they do it: five attempts an event, 5n claims for n events. */
  lemma AttemptsAreBounded(n: nat, now: int, actions: seq<Action>)
    ensures var s := Play(Start(n, now), actions);
            && (forall e: nat :: e < |s.events| ==> s.events[e].attempts <= MAX_ATTEMPTS)
            && |s.claims| <= MAX_ATTEMPTS * n
  {
    PlayKeepsCounted(n, now, actions);
    var s := Play(Start(n, now), actions);
    TotalIsLength(s.claims, n);
    TotalIsBounded(s.claims, n);
  }

  // ---------------------------------------------------------------- writes that disturb nobody

  /** A claim whose worker may still write to the event. */
  predicate Active(s: State, c: nat) {
    c < |s.claims| && (s.claims[c].phase.Handling? || s.claims[c].phase.Auditing?) && s.now < s.claims[c].at + STALE
  }

  /**
   * A worker writes its outcome less than 300 seconds after its claim; a later write, and every
   * write of the watchdog, finds the event neither processed nor under a recent claim.
   */
  predicate Permitted(s: State, a: Action) {
    match a
    case TryClaim(_, _) => true
    case WriteAudit(_, _) => true
    case MarkStale(_, _, _) => true
    case FailMarked(e, elapsed) => Enabled(s, a) ==> Unprotected(s.events[e], s.now + elapsed)
    case Succeed(c, elapsed) => Enabled(s, a) ==> MayWrite(s, c, s.now + elapsed)
    case Fail(c, elapsed) => Enabled(s, a) ==> MayWrite(s, c, s.now + elapsed)
  }

  predicate MayWrite(s: State, c: nat, now: int)
    requires c < |s.claims| && s.claims[c].event < |s.events|
  {
    now < s.claims[c].at + STALE || Unprotected(s.events[s.claims[c].event], now)
  }

  predicate LosesAudit(s: State, a: Action) {
    a.Fail? && Enabled(s, a) && s.claims[a.claim].phase.Auditing?
  }

  ghost predicate PermittedRun(s: State, actions: seq<Action>) {
    actions == [] ||
    (PermittedRun(s, actions[..|actions| - 1]) && Permitted(Play(s, actions[..|actions| - 1]), actions[|actions| - 1]))
  }

  ghost predicate AuditedRun(s: State, actions: seq<Action>) {
    actions == [] ||
    (AuditedRun(s, actions[..|actions| - 1]) && !LosesAudit(Play(s, actions[..|actions| - 1]), actions[|actions| - 1]))
  }

  /** The event row is in the state the active claim left it in. */
  predicate Holds(s: State, c: nat)
    requires c < |s.claims| && s.claims[c].event < |s.events|
  {
    var e := s.events[s.claims[c].event];
    e.lastAttempt == Some(s.claims[c].at) && e.status == if s.claims[c].phase.Handling? then Processing else Processed
  }

  ghost predicate Exclusive(s: State) {
    && (forall c :: 0 <= c < |s.claims| ==> s.claims[c].event < |s.events| && s.claims[c].at <= s.now)
    && (forall c: nat :: Active(s, c) ==> Holds(s, c))
    && (forall c: nat, d: nat :: Active(s, c) && Active(s, d) && s.claims[c].event == s.claims[d].event ==> c == d)
  }

  lemma ClaimKeepsExclusive(s: State, e: nat, elapsed: nat)
    requires Exclusive(s)
    ensures Exclusive(Next(s, TryClaim(e, elapsed)))
  {
    var t := Next(s, TryClaim(e, elapsed));
    forall c: nat | Active(t, c) ensures Holds(t, c) && (c < |s.claims| ==> Active(s, c)) {
      if c < |s.claims| {
        assert t.claims[c] == s.claims[c];
        assert Active(s, c) && Holds(s, c);
      }
    }
    forall c: nat, d: nat | Active(t, c) && Active(t, d) && t.claims[c].event == t.claims[d].event ensures c == d {
      if c < |s.claims| && d < |s.claims| {
        assert Active(s, c) && Active(s, d);
      }
    }
  }

  lemma WriteKeepsExclusive(s: State, a: Action)
    requires Exclusive(s) && !a.TryClaim? && Permitted(s, a)
    ensures Exclusive(Next(s, a))
  {
    var t := Next(s, a);
    forall c: nat | Active(t, c) ensures Active(s, c) && Holds(t, c) {
      assert Active(s, c) && Holds(s, c);
      if Enabled(s, a) && (a.Succeed? || a.Fail?) && c != a.claim && t.claims[c].event == s.claims[a.claim].event {
        assert Active(s, a.claim);
      }
    }
  }

  lemma {:induction false} PermittedRunsAreExclusive(n: nat, now: int, actions: seq<Action>)
    requires PermittedRun(Start(n, now), actions)
    ensures Exclusive(Play(Start(n, now), actions))
  {
    if actions != [] {
      hide Exclusive, Next, Permitted;
      var front, last := actions[..|actions| - 1], actions[|actions| - 1];
      PermittedRunsAreExclusive(n, now, front);
      if last.TryClaim? {
        ClaimKeepsExclusive(Play(Start(n, now), front), last.event, last.elapsed);
      } else {
        WriteKeepsExclusive(Play(Start(n, now), front), last);
      }
    } else {
      assert Exclusive(Start(n, now));
    }
  }

  /**
   * If every outcome is written within 300 seconds or to an unprotected event, and the watchdog
   * writes to unprotected events only, one worker at a time handles an event.
   */
  lemma AtMostOneWorkerPerEvent(n: nat, now: int, actions: seq<Action>, c: nat, d: nat)
    requires PermittedRun(Start(n, now), actions)
    ensures var s := Play(Start(n, now), actions);
            Active(s, c) && Active(s, d) && s.claims[c].event == s.claims[d].event ==> c == d
  {
    PermittedRunsAreExclusive(n, now, actions);
  }

  /** The claim protects its event for 300 seconds and not a microsecond longer. */
  lemma ProtectionLasts300Seconds(n: nat, now: int, actions: seq<Action>, c: nat, elapsed: nat)
    requires PermittedRun(Start(n, now), actions)
    requires Active(Play(Start(n, now), actions), c) && Play(Start(n, now), actions).claims[c].phase.Handling?
    ensures var s := Play(Start(n, now), actions);
            var e := s.claims[c].event;
            e < |s.events|
            && (Claimable(s.events[e], s.now + elapsed) <==>
                s.now + elapsed >= s.claims[c].at + STALE && s.events[e].attempts < MAX_ATTEMPTS)
  {
    PermittedRunsAreExclusive(n, now, actions);
    var s := Play(Start(n, now), actions);
    assert Holds(s, c);
  }

  /** Completed claims of an event whose outcome was never taken back. */
  predicate Done(s: State, c: nat) {
    c < |s.claims| && (s.claims[c].phase.Auditing? || s.claims[c].phase.Complete?)
  }

  ghost predicate ProcessedStays(s: State, t: State) {
    && |t.events| == |s.events|
    && forall e: nat :: e < |s.events| && s.events[e].status.Processed? ==> t.events[e].status.Processed?
  }

  ghost predicate DoneOnce(s: State) {
    && Exclusive(s)
    && (forall c: nat :: Done(s, c) ==> s.events[s.claims[c].event].status.Processed?)
    && (forall c: nat, d: nat :: Done(s, c) && Done(s, d) && s.claims[c].event == s.claims[d].event ==> c == d)
  }

  lemma NextKeepsDoneOnce(s: State, a: Action)
    requires DoneOnce(s) && Permitted(s, a) && !LosesAudit(s, a) && Exclusive(Next(s, a))
    ensures DoneOnce(Next(s, a)) && ProcessedStays(s, Next(s, a))
  {
    hide Exclusive;
    var t := Next(s, a);
    EventsInRange(s);
    if Enabled(s, a) && (a.Succeed? || a.Fail?) {
      WriterFindsItUnprocessed(s, a);
      assert forall c: nat :: Done(t, c) && c != a.claim ==> Done(s, c) && s.claims[c].event != s.claims[a.claim].event;
      assert forall c: nat :: Done(t, c) ==> c < |s.claims| && t.claims[c].event == s.claims[c].event;
    } else if Enabled(s, a) {
      assert forall c: nat :: Done(t, c) ==> c < |s.claims| && Done(s, c) && t.claims[c].event == s.claims[c].event;
    }
  }

  lemma EventsInRange(s: State)
    requires Exclusive(s)
    ensures forall c :: 0 <= c < |s.claims| ==> s.claims[c].event < |s.events|
  {
  }

  lemma WriterFindsItUnprocessed(s: State, a: Action)
    requires Exclusive(s) && Enabled(s, a) && Permitted(s, a) && !LosesAudit(s, a) && (a.Succeed? || a.Fail?)
    ensures !s.events[s.claims[a.claim].event].status.Processed?
  {
    if s.now + a.elapsed < s.claims[a.claim].at + STALE {
      assert Active(s, a.claim) && Holds(s, a.claim);
    }
  }

  lemma {:induction false} PermittedRunsDoOnce(n: nat, now: int, actions: seq<Action>)
    requires PermittedRun(Start(n, now), actions) && AuditedRun(Start(n, now), actions)
    ensures DoneOnce(Play(Start(n, now), actions))
  {
    PermittedRunsAreExclusive(n, now, actions);
    if actions != [] {
      hide Exclusive, Next, Permitted, LosesAudit, DoneOnce;
      PermittedRunsDoOnce(n, now, actions[..|actions| - 1]);
      NextKeepsDoneOnce(Play(Start(n, now), actions[..|actions| - 1]), actions[|actions| - 1]);
    }
  }

  /**
   * If moreover no audit record of a success fails, an event is handled to the end at most once and
   * PROCESSED is final.
   */
  lemma ProcessedIsFinal(n: nat, now: int, actions: seq<Action>, a: Action, c: nat, d: nat)
    requires var s := Play(Start(n, now), actions);
             && PermittedRun(Start(n, now), actions) && AuditedRun(Start(n, now), actions)
             && Permitted(s, a) && !LosesAudit(s, a)
    ensures var s := Play(Start(n, now), actions);
            && (Done(s, c) && Done(s, d) && s.claims[c].event == s.claims[d].event ==> c == d)
            && ProcessedStays(s, Next(s, a))
  {
    hide Exclusive, Next, Permitted, LosesAudit, Play, PermittedRun, AuditedRun;
    PermittedRunsDoOnce(n, now, actions);
    var s := Play(Start(n, now), actions);
    PermittedRunsAreExclusive(n, now, actions);
    if a.TryClaim? { ClaimKeepsExclusive(s, a.event, a.elapsed); } else { WriteKeepsExclusive(s, a); }
    NextKeepsDoneOnce(s, a);
  }

  /** A row in PROCESSING or PROCESSED is so by a claim, whatever happened before. */
  ghost predicate Backed(s: State) {
    forall e: nat :: e < |s.events| ==>
      && (s.events[e].status.Processing? ==> exists c: nat :: HandledBy(s, e, c))
      && (s.events[e].status.Processed? ==> exists c: nat :: Done(s, c) && s.claims[c].event == e)
  }

  predicate HandledBy(s: State, e: nat, c: nat)
    requires e < |s.events|
  {
    && c < |s.claims| && s.claims[c].event == e && s.claims[c].phase.Handling?
    && s.events[e].lastAttempt == Some(s.claims[c].at)
  }

  lemma NextKeepsBacked(s: State, a: Action)
    requires Backed(s)
    ensures Backed(Next(s, a))
  {
    var t := Next(s, a);
    if Enabled(s, a) {
      forall e: nat | e < |t.events| && t.events[e].status.Processing? ensures exists c: nat :: HandledBy(t, e, c) {
        if a.TryClaim? && a.event == e && Claimable(s.events[e], s.now + a.elapsed) {
          assert HandledBy(t, e, |s.claims|);
        } else {
          var c: nat :| HandledBy(s, e, c);
          assert HandledBy(t, e, c);
        }
      }
      forall e: nat | e < |t.events| && t.events[e].status.Processed?
        ensures exists c: nat :: Done(t, c) && t.claims[c].event == e
      {
        if a.Succeed? && s.claims[a.claim].event == e {
          assert Done(t, a.claim) && t.claims[a.claim].event == e;
        } else {
          var c: nat :| Done(s, c) && s.claims[c].event == e;
          assert Done(t, c) && t.claims[c].event == e;
        }
      }
    }
  }

  lemma {:induction false} PlayKeepsBacked(n: nat, now: int, actions: seq<Action>)
    ensures Backed(Play(Start(n, now), actions))
  {
    if actions != [] {
      hide Backed, Next;
      PlayKeepsBacked(n, now, actions[..|actions| - 1]);
      NextKeepsBacked(Play(Start(n, now), actions[..|actions| - 1]), actions[|actions| - 1]);
    } else {
      assert Backed(Start(n, now));
    }
  }

  /**
   * Both conditions are exact. After a run that kept them, an action leaves one worker an event,
   * one completed handling an event and every PROCESSED in place exactly when it keeps them too.
   */
  lemma ActionIsHarmlessIff(n: nat, now: int, actions: seq<Action>, a: Action)
    requires PermittedRun(Start(n, now), actions) && AuditedRun(Start(n, now), actions)
    ensures var s := Play(Start(n, now), actions);
            DoneOnce(Next(s, a)) && ProcessedStays(s, Next(s, a)) <==> Permitted(s, a) && !LosesAudit(s, a)
  {
    hide PermittedRun, AuditedRun, Play, DoneOnce, Exclusive, ProcessedStays, Backed, Next, Permitted, LosesAudit;
    var s := Play(Start(n, now), actions);
    PermittedRunsDoOnce(n, now, actions);
    PlayKeepsBacked(n, now, actions);
    if Permitted(s, a) && !LosesAudit(s, a) {
      PermittedRunsAreExclusive(n, now, actions);
      if a.TryClaim? { ClaimKeepsExclusive(s, a.event, a.elapsed); } else { WriteKeepsExclusive(s, a); }
      NextKeepsDoneOnce(s, a);
    } else {
      BadWriteDoesHarm(s, a);
    }
  }

  lemma BadWriteDoesHarm(s: State, a: Action)
    requires DoneOnce(s) && Backed(s) && (!Permitted(s, a) || LosesAudit(s, a))
    ensures !DoneOnce(Next(s, a)) || !ProcessedStays(s, Next(s, a))
  {
    var e := if a.FailMarked? then a.event else s.claims[a.claim].event;
    if s.events[e].status.Processed? {
      ProcessedIsOverwritten(s, a, e);
    } else {
      assert !LosesAudit(s, a) by { assert a.Fail? ==> Done(s, a.claim) || !s.claims[a.claim].phase.Auditing?; }
      ClaimIsOverwritten(s, a, e);
    }
  }

  lemma ProcessedIsOverwritten(s: State, a: Action, e: nat)
    requires Backed(s) && Enabled(s, a) && (a.FailMarked? || a.Succeed? || a.Fail?) && e < |s.events|
    requires e == (if a.FailMarked? then a.event else s.claims[a.claim].event) && s.events[e].status.Processed?
    ensures !DoneOnce(Next(s, a)) || !ProcessedStays(s, Next(s, a))
  {
    if a.Succeed? {
      var d: nat :| Done(s, d) && s.claims[d].event == e;
      assert Done(Next(s, a), d) && Done(Next(s, a), a.claim);
    }
  }

  lemma ClaimIsOverwritten(s: State, a: Action, e: nat)
    requires Backed(s) && Enabled(s, a) && !Permitted(s, a) && (a.FailMarked? || a.Succeed? || a.Fail?)
               && e < |s.events|
    requires e == (if a.FailMarked? then a.event else s.claims[a.claim].event) && !s.events[e].status.Processed?
    ensures !Exclusive(Next(s, a))
  {
    var c: nat :| HandledBy(s, e, c);
    var t := Next(s, a);
    assert Active(t, c) && !Holds(t, c);
  }

  // Without these conditions a processed event is processed again.

  lemma PlayThree(s: State, a: Action, b: Action, c: Action)
    ensures Play(s, [a, b, c]) == Next(Next(Next(s, a), b), c)
  {
    hide Next;
    assert [a, b, c][..2] == [a, b] && [a, b][..1] == [a] && [a][..0] == [];
    assert Play(s, [a]) == Next(s, a);
    assert Play(s, [a, b]) == Next(Play(s, [a]), b);
  }

  /** A worker slower than 300 seconds turns the success of the worker that replaced it into a failure. */
  lemma LateFailureUndoesSuccess()
    ensures var s := Play(Play(Start(1, 0), [TryClaim(0, 0), TryClaim(0, STALE), Succeed(1, 1)]),
                          [WriteAudit(1, 0), Fail(0, 1), TryClaim(0, 0)]);
            && |s.claims| == 3 && s.claims[1].phase == Complete && s.claims[2].phase == Handling
            && s.events == [Event(Processing, 3, Some(STALE + 2))]
  {
    hide Next, Play;
    var s := Start(1, 0);
    PlayThree(s, TryClaim(0, 0), TryClaim(0, STALE), Succeed(1, 1));
    var m := Next(Next(Next(s, TryClaim(0, 0)), TryClaim(0, STALE)), Succeed(1, 1));
    PlayThree(m, WriteAudit(1, 0), Fail(0, 1), TryClaim(0, 0));
    LateFailureSteps();
  }

  lemma LateFailureSteps()
    ensures var s := Next(Next(Next(Start(1, 0), TryClaim(0, 0)), TryClaim(0, STALE)), Succeed(1, 1));
            var t := Next(Next(Next(s, WriteAudit(1, 0)), Fail(0, 1)), TryClaim(0, 0));
            && t.claims == [Claim(0, 0, GaveUp), Claim(0, STALE, Complete), Claim(0, STALE + 2, Handling)]
            && t.events == [Event(Processing, 3, Some(STALE + 2))]
  {
  }

  /** A success whose audit record cannot be written is taken back by the same worker. */
  lemma LostAuditUndoesSuccess()
    ensures var s := Play(Start(1, 0), [TryClaim(0, 0), Succeed(0, 1), Fail(0, 1)]);
            s.events == [Event(Failed, 1, Some(0))] && Claimable(s.events[0], s.now)
  {
    hide Play, Next;
    PlayThree(Start(1, 0), TryClaim(0, 0), Succeed(0, 1), Fail(0, 1));
    LostAuditSteps();
  }

  lemma LostAuditSteps()
    ensures var s := Next(Next(Next(Start(1, 0), TryClaim(0, 0)), Succeed(0, 1)), Fail(0, 1));
            s.events == [Event(Failed, 1, Some(0))] && s.now == 2
  {
  }

  lemma StartOfOne()
    ensures Start(1, 0) == State([NEW], [], 0, {})
  {
  }

  /**
   * The watchdog selects an abandoned event, a worker claims it again and processes it, and then
   * the watchdog writes: the success is undone, and the event can be claimed a third time.
   */
  lemma LateWatchdogUndoesSuccess()
    ensures var s := Play(Play(Start(1, 0), [TryClaim(0, 0), MarkStale(0, 2 * STALE, 2 * STALE + 1), TryClaim(0, 0)]),
                          [Succeed(1, 1), WriteAudit(1, 0), FailMarked(0, 0)]);
            && s.claims == [Claim(0, 0, Handling), Claim(0, 2 * STALE + 1, Complete)]
            && s.events == [Event(Failed, 2, Some(2 * STALE + 1))] && Claimable(s.events[0], s.now)
  {
    var a, b, c := TryClaim(0, 0), MarkStale(0, 2 * STALE, 2 * STALE + 1), Succeed(1, 1);
    var d, f := WriteAudit(1, 0), FailMarked(0, 0);
    StartOfOne();
    hide Next, Play, Start;
    PlayThree(Start(1, 0), a, b, a);
    var m := Next(Next(Next(Start(1, 0), a), b), a);
    PlayThree(m, c, d, f);
    LateWatchdogSteps();
  }

  lemma LateWatchdogSteps()
    ensures var m := Next(Next(Next(State([NEW], [], 0, {}), TryClaim(0, 0)), MarkStale(0, 2 * STALE, 2 * STALE + 1)),
                          TryClaim(0, 0));
            Next(Next(Next(m, Succeed(1, 1)), WriteAudit(1, 0)), FailMarked(0, 0))
            == State([Event(Failed, 2, Some(2 * STALE + 1))],
                     [Claim(0, 0, Handling), Claim(0, 2 * STALE + 1, Complete)], 2 * STALE + 2, {})
  {
  }

  /** With a window shorter than 300 seconds the watchdog lets a second worker in beside the first. */
  lemma ImpatientWatchdogSharesEvent()
    ensures var s := Play(Play(Start(1, 0), [TryClaim(0, 0), MarkStale(0, 0, MIN_WINDOW + 1), FailMarked(0, 0)]),
                          [TryClaim(0, 0)]);
            Active(s, 0) && Active(s, 1) && s.claims[0].event == s.claims[1].event
  {
    var a, b, c := TryClaim(0, 0), MarkStale(0, 0, MIN_WINDOW + 1), FailMarked(0, 0);
    StartOfOne();
    hide Next, Play, Start;
    PlayThree(Start(1, 0), a, b, c);
    PlayOne(Next(Next(Next(Start(1, 0), a), b), c), a);
    ImpatientWatchdogSteps();
  }

  lemma PlayOne(s: State, a: Action)
    ensures Play(s, [a]) == Next(s, a)
  {
    assert [a][..0] == [];
  }

  lemma ImpatientWatchdogSteps()
    ensures var m := Next(Next(Next(State([NEW], [], 0, {}), TryClaim(0, 0)), MarkStale(0, 0, MIN_WINDOW + 1)),
                          FailMarked(0, 0));
            Next(m, TryClaim(0, 0))
            == State([Event(Processing, 2, Some(MIN_WINDOW + 1))],
                     [Claim(0, 0, Handling), Claim(0, MIN_WINDOW + 1, Handling)], MIN_WINDOW + 1, {})
  {
  }

  // ---------------------------------------------------------------- one batch

  /** How the handling of a claimed event ends. */
  datatype Outcome =
    | HandledFully        // handler and audit record
    | HandlerRaised
    | AuditRaised         // after the success was written
    | RaisedBeforeHandler // nothing is written back

  predicate Eligible(e: Event, now: int) {
    && e.attempts < MAX_ATTEMPTS
    && (e.status.Received? || e.status.Failed? ||
        (e.status.Processing? && e.lastAttempt.Some? && e.lastAttempt.value < now - STALE))
  }

  function Clamp(limit: int): nat {
    var capped := if limit < 500 then limit else 500;
    if capped > 1 then capped else 1
  }

  function EligibleFrom(events: seq<Event>, now: int, i: nat): (ids: seq<nat>)
    requires i <= |events|
    ensures NoDuplicates(ids)
    ensures forall k: nat :: k in ids <==> i <= k < |events| && Eligible(events[k], now)
    decreases |events| - i
  {
    if i == |events| then []
    else (if Eligible(events[i], now) then [i] else []) + EligibleFrom(events, now, i + 1)
  }

  /** The oldest eligible events, at most `limit` of them. */
  function Selected(events: seq<Event>, now: int, limit: int): (ids: seq<nat>)
    ensures NoDuplicates(ids) && |ids| <= Clamp(limit)
    ensures forall k :: k in ids ==> k < |events| && Eligible(events[k], now)
  {
    var all := EligibleFrom(events, now, 0);
    var n := if |all| < Clamp(limit) then |all| else Clamp(limit);
    assert forall k :: k in all[..n] ==> k in all;
    all[..n]
  }

  /** An event that a batch takes up: not exhausted, and new, failed, or under a claim older than 300 seconds. */
  ghost predicate Waiting(e: Event, now: int) {
    && e.attempts < 5
    && (e.status == Received || e.status == Failed
        || (e.status == Processing && e.lastAttempt.Some? && now - e.lastAttempt.value > 300000000))
  }

  lemma {:induction false} EligibleAscend(events: seq<Event>, now: int, i: nat)
    requires i <= |events|
    ensures forall a, b :: 0 <= a < b < |EligibleFrom(events, now, i)| ==>
              EligibleFrom(events, now, i)[a] < EligibleFrom(events, now, i)[b]
    decreases |events| - i
  {
    if i < |events| {
      EligibleAscend(events, now, i + 1);
      var rest := EligibleFrom(events, now, i + 1);
      assert forall a :: 0 <= a < |rest| ==> rest[a] in rest;
    }
  }

  /**
   * A batch takes the oldest waiting events, in order of creation, and all of them up to the limit,
   * which is at least one and at most 500.
   */
  lemma SelectedAreOldest(events: seq<Event>, now: int, limit: int)
    ensures var ids := Selected(events, now, limit);
            && (forall a, b :: 0 <= a < b < |ids| ==> ids[a] < ids[b])
            && (forall k :: k in ids ==> k < |events| && Waiting(events[k], now))
            && (forall k: nat :: k < |events| && Waiting(events[k], now) && k !in ids ==>
                  |ids| == (if limit <= 1 then 1 else if limit >= 500 then 500 else limit)
                  && forall j :: j in ids ==> j < k)
            && |ids| <= 500 && (|ids| > 1 ==> |ids| <= limit)
  {
    var all, ids := EligibleFrom(events, now, 0), Selected(events, now, limit);
    EligibleAscend(events, now, 0);
    forall k: nat | k < |events| && Waiting(events[k], now) && k !in ids
      ensures |ids| == Clamp(limit) && forall j :: j in ids ==> j < k
    {
      assert k in all;
      var m :| 0 <= m < |all| && all[m] == k;
      assert ids == all[..|ids|] && m >= |ids|;
    }
  }

  function AfterHandling(e: Event, outcome: Outcome): Event {
    match outcome
    case HandledFully => Finished(e, true)
    case HandlerRaised => Finished(e, false)
    case AuditRaised => Finished(Finished(e, true), false)
    case RaisedBeforeHandler => e
  }

  /** The row after processing, and what the call returns: a row, or an exception. */
  function ProcessedRow(e: Event, now: int, outcome: Outcome): Event {
    if Claimable(e, now) then AfterHandling(Claimed(e, now), outcome) else e
  }

  /** What one call leaves in the row, for each way the handling ends. */
  lemma ProcessSays(e: Event, now: int, outcome: Outcome)
    ensures var r := ProcessedRow(e, now, outcome);
            if !Claimable(e, now) then r == e
            else
              && r.attempts == e.attempts + 1 && r.lastAttempt == Some(now)
              && (r.status == Processed <==> outcome == HandledFully)
              && (r.status == Failed <==> outcome == HandlerRaised || outcome == AuditRaised)
              && (r.status == Processing <==> outcome == RaisedBeforeHandler)
  {
  }

  datatype Tally = Tally(processed: int, failed: int, skipped: int)

  class Inbox {
    var events: seq<Event>

    constructor (n: nat)
      ensures events == seq(n, _ => NEW)
    {
      events := seq(n, _ => NEW);
    }

    method ClaimEvent(id: nat, now: int) returns (claimed: bool)
      requires id < |events|
      modifies this
      ensures claimed == Claimable(old(events)[id], now)
      ensures events == old(events)[id := Claimed(old(events)[id], now)]
    {
      var event := events[id];
      if event.status == Processed {
        return false;
      }
      if event.status == Processing && event.lastAttempt.Some? && event.lastAttempt.value > now - STALE {
        return false;
      }
      if event.attempts >= MAX_ATTEMPTS {
        return false;
      }
      events := events[id := Event(Processing, event.attempts + 1, Some(now))];
      claimed := true;
    }

    method FinishEvent(id: nat, success: bool)
      requires id < |events|
      modifies this
      ensures events == old(events)[id := Finished(old(events)[id], success)]
    {
      events := events[id := events[id].(status := if success then Processed else Failed)];
    }

    /** Returns None when the call raises. */
    method ProcessEvent(id: nat, now: int, outcome: Outcome) returns (r: Option<Event>)
      requires id < |events|
      modifies this
      ensures events == old(events)[id := ProcessedRow(old(events)[id], now, outcome)]
      ensures r == if Claimable(old(events)[id], now) && !outcome.HandledFully? then None else Some(events[id])
    {
      var claimed := ClaimEvent(id, now);
      if !claimed {
        return Some(events[id]);
      }
      match outcome
      case RaisedBeforeHandler =>
        return None;
      case HandledFully =>
        FinishEvent(id, true);
        return Some(events[id]);
      case AuditRaised =>
        FinishEvent(id, true);
        FinishEvent(id, false);
        return None;
      case HandlerRaised =>
        FinishEvent(id, false);
        return None;
    }

    /**
     * One batch with no other worker around: every selected event is claimed exactly once, none
     * is skipped, and the tally adds up. `times` says when each event's turn comes, `outcomes`
     * how its handling ends.
     */
    method ProcessPending(limit: int, now: int, times: nat -> int, outcomes: nat -> Outcome)
      returns (tally: Tally, ghost ids: seq<nat>)
      requires forall id: nat :: now <= times(id)
      modifies this
      ensures ids == Selected(old(events), now, limit)
      ensures Handled(old(events), events, ids, times, outcomes)
      ensures tally == Tally(CountFull(ids, outcomes), |ids| - CountFull(ids, outcomes), 0)
    {
      hide *;
      var selected := Selected(events, now, limit);
      ids := selected;
      ghost var before := events;
      tally := Tally(0, 0, 0);
      NothingHandled(before, times, outcomes);
      assert selected[..0] == [];
      for i := 0 to |selected|
        invariant Handled(before, events, selected[..i], times, outcomes)
        invariant tally == Tally(CountFull(selected[..i], outcomes), i - CountFull(selected[..i], outcomes), 0)
      {
        var id := selected[i];
        ghost var current := events;
        TurnIsReady(before, current, now, limit, i, times, outcomes);
        var r := ProcessEvent(id, times(id), outcomes(id));
        TakeOneMore([], selected, i);
        HandledOneMore(before, current, events, selected[..i], id, times, outcomes);
        match r {
          case None => tally := tally.(failed := tally.failed + 1);
          case Some(event) =>
            tally := if event.status.Processed? then tally.(processed := tally.processed + 1)
                     else tally.(skipped := tally.skipped + 1);
        }
      }
      assert selected[..|selected|] == selected;
    }
  }

  function CountFull(ids: seq<nat>, outcomes: nat -> Outcome): (n: nat)
    ensures n <= |ids|
  {
    if ids == [] then 0
    else CountFull(ids[..|ids| - 1], outcomes) + if outcomes(ids[|ids| - 1]).HandledFully? then 1 else 0
  }

  /** What the query selects, the claim transaction accepts at any later time. */
  lemma EligibleIsClaimable(e: Event, now: int, later: int)
    requires Eligible(e, now) && now <= later
    ensures Claimable(e, later) && Claimed(e, later) == Event(Processing, e.attempts + 1, Some(later))
  {
  }

  function TakenOnce(e: Event, now: int, outcome: Outcome): Event {
    AfterHandling(Event(Processing, e.attempts + 1, Some(now)), outcome)
  }

  /** The events of `ids` went through one claim and their outcome; the others are untouched. */
  ghost predicate Handled(before: seq<Event>, after: seq<Event>, ids: seq<nat>, times: nat -> int,
                          outcomes: nat -> Outcome) {
    && |after| == |before|
    && forall id: nat :: id < |after| ==>
         after[id] == if id in ids then TakenOnce(before[id], times(id), outcomes(id))
                      else before[id]
  }

  lemma NothingHandled(events: seq<Event>, times: nat -> int, outcomes: nat -> Outcome)
    ensures Handled(events, events, [], times, outcomes) && CountFull([], outcomes) == 0
  {
  }

  lemma TurnIsReady(before: seq<Event>, current: seq<Event>, now: int, limit: int, i: nat, times: nat -> int,
                    outcomes: nat -> Outcome)
    requires var ids := Selected(before, now, limit);
             i < |ids| && Handled(before, current, ids[..i], times, outcomes) && now <= times(ids[i])
    ensures var id := Selected(before, now, limit)[i];
            && id < |current| && id < |before| && id !in Selected(before, now, limit)[..i]
            && Claimable(current[id], times(id))
            && ProcessedRow(current[id], times(id), outcomes(id))
               == TakenOnce(before[id], times(id), outcomes(id))
            && (TakenOnce(before[id], times(id), outcomes(id)).status.Processed?
                <==> outcomes(id).HandledFully?)
  {
    hide EligibleFrom, Selected;
    var ids := Selected(before, now, limit);
    var id := ids[i];
    assert id in ids;
    EligibleIsClaimable(before[id], now, times(id));
  }

  lemma HandledOneMore(before: seq<Event>, current: seq<Event>, after: seq<Event>, ids: seq<nat>, id: nat,
                       times: nat -> int, outcomes: nat -> Outcome)
    requires Handled(before, current, ids, times, outcomes) && id < |before| && id !in ids
    requires after == current[id := TakenOnce(before[id], times(id), outcomes(id))]
    ensures Handled(before, after, ids + [id], times, outcomes)
    ensures CountFull(ids + [id], outcomes) == CountFull(ids, outcomes) + if outcomes(id).HandledFully? then 1 else 0
  {
  }
}

/**
 * Remote acquisition of a job under the lease (control/services/acquisition_runtime.py,
 * lines 21-131): any number of processes run the critical section interleaved with each other,
 * with crashes, with other users of the lock, with the watchdog and with the passage of time.
 * Several processes may run under one node identifier.
 */
module Acquisition {
  import opened Prelude
  import opened JobLocks

  datatype ActionKind = ClaimJob | BidJob | ApplyJob

  datatype AttemptStatus = Submitting | Claimed | SubmittedRemotely | AcceptedRemotely | UnknownRemoteState

  datatype Attempt = Attempt(action: ActionKind, status: AttemptStatus)

  /** `_ensure_no_active_attempt`: an earlier attempt that rules out a new one of the same kind. */
  predicate Blocks(attempt: Attempt, action: ActionKind) {
    attempt.action == action
    && match action
       case ClaimJob => attempt.status in {Submitting, Claimed}
       case BidJob => attempt.status in {Submitting, SubmittedRemotely, AcceptedRemotely}
       case ApplyJob => true
  }

  predicate Blocked(attempts: seq<Attempt>, action: ActionKind) {
    exists i | 0 <= i < |attempts| :: Blocks(attempts[i], action)
  }

  function StatusAfter(action: ActionKind, ok: bool): AttemptStatus {
    if !ok then UnknownRemoteState else if action == ClaimJob then Claimed else SubmittedRemotely
  }

  /** Where a process is in the critical section; `handle` is its acquisition in the lock's history. */
  datatype Phase = Locked | Checked | Recorded(attempt: nat) | Calling(attempt: nat) | Finishing

  datatype Flow = Flow(node: Node, action: ActionKind, handle: nat, phase: Phase)

  /** `calls` lists, by attempt, every remote request ever issued; flows are keyed by process. */
  datatype Site = Site(lock: History, attempts: seq<Attempt>, calls: seq<nat>, flows: map<nat, Flow>)

  datatype SiteAction =
    | OnLock(a: LockAction)
    | BeginFlow(p: nat, node: Node, action: ActionKind)
    | Check(p: nat)
    | GiveUp(p: nat)
    | Record(p: nat)
    | CallRemote(p: nat)
    | ReturnRemote(p: nat, ok: bool)
    | EndFlow(p: nat)
    | CrashFlow(p: nat)

  const ACQUISITION_LEASE := 180

  function Empty(now: int): Site {
    Site(Start(now), [], [], map[])
  }

  function WithPhase(s: Site, p: nat, phase: Phase): Site
    requires p in s.flows
  {
    s.(flows := s.flows[p := s.flows[p].(phase := phase)])
  }

  predicate InPhase(s: Site, p: nat, phase: Phase) {
    p in s.flows && s.flows[p].phase == phase
  }

  /** One step of the code as it is; an action that is not enabled changes nothing. */
  function Move(s: Site, a: SiteAction): Site {
    match a
    case OnLock(b) => s.(lock := Next(s.lock, b))
    case BeginFlow(p, node, action) =>
      if p !in s.flows && AcquiredRow(s.lock.row, s.lock.now, node, ACQUISITION_LEASE).Ok? then
        s.(lock := Next(s.lock, Acquire(node, ACQUISITION_LEASE)),
           flows := s.flows[p := Flow(node, action, |s.lock.handles|, Locked)])
      else s
    case Check(p) =>
      if InPhase(s, p, Locked) then
        WithPhase(s, p, if Blocked(s.attempts, s.flows[p].action) then Finishing else Checked)
      else s
    case GiveUp(p) => if InPhase(s, p, Checked) then WithPhase(s, p, Finishing) else s
    case Record(p) =>
      if InPhase(s, p, Checked) then
        WithPhase(s, p, Recorded(|s.attempts|)).(attempts := s.attempts + [Attempt(s.flows[p].action, Submitting)])
      else s
    case CallRemote(p) =>
      if p in s.flows && s.flows[p].phase.Recorded? then
        WithPhase(s, p, Calling(s.flows[p].phase.attempt)).(calls := s.calls + [s.flows[p].phase.attempt])
      else s
    case ReturnRemote(p, ok) =>
      if p in s.flows && s.flows[p].phase.Calling? && s.flows[p].phase.attempt < |s.attempts| then
        var i := s.flows[p].phase.attempt;
        WithPhase(s, p, Finishing)
        .(attempts := s.attempts[i := s.attempts[i].(status := StatusAfter(s.flows[p].action, ok))])
      else s
    case EndFlow(p) =>
      if InPhase(s, p, Finishing) && s.flows[p].handle < |s.lock.handles| then
        s.(lock := Next(s.lock, Release(s.flows[p].node, s.lock.handles[s.flows[p].handle].token)),
           flows := s.flows - {p})
      else s
    case CrashFlow(p) => s.(flows := s.flows - {p})
  }

  function Moves(s: Site, actions: seq<SiteAction>): Site {
    if actions == [] then s else Move(Moves(s, actions[..|actions| - 1]), actions[|actions| - 1])
  }

  // ---------------------------------------------------------------- the conditions

  /** What a run may be asked to respect, action by action. */
  datatype Rule =
    | LiveRows    // an attempt row is created under a handle that is still live
    | InTime      // an attempt row is created before the handle's lease ends
    | TakesTurns  // no one uses the lock under the node of a process that is in the section
    | OnSchedule  // the watchdog deletes the lock row only while it is expired

  /** No process in the section runs under this node. */
  predicate Absent(s: Site, node: Node) {
    forall p | p in s.flows :: s.flows[p].node != node
  }

  ghost predicate Obeys(s: Site, a: SiteAction, rule: Rule) {
    match rule
    case LiveRows => a.Record? && InPhase(s, a.p, Checked) ==> Live(s.lock, s.flows[a.p].handle)
    case InTime =>
      a.Record? && InPhase(s, a.p, Checked) ==>
        s.flows[a.p].handle < |s.lock.handles| && !Expired(s.lock, s.flows[a.p].handle)
    case TakesTurns =>
      && (a.BeginFlow? && a.p !in s.flows ==> Absent(s, a.node))
      && (a.OnLock? && (a.a.Acquire? || a.a.Renew? || a.a.Release?) ==> Absent(s, a.a.node))
    case OnSchedule => a.OnLock? ==> Punctual(s.lock, a.a)
  }

  ghost predicate AllObey(s: Site, actions: seq<SiteAction>, rule: Rule) {
    actions == []
    || (AllObey(s, actions[..|actions| - 1], rule)
        && Obeys(Moves(s, actions[..|actions| - 1]), actions[|actions| - 1], rule))
  }

  // ---------------------------------------------------------------- what an answer means

  /** Which rows rule out another attempt, by kind: an application always, the others unless it failed. */
  lemma BlocksByKind(status: AttemptStatus, action: ActionKind)
    ensures Blocks(Attempt(ApplyJob, status), action) <==> action == ApplyJob
    ensures Blocks(Attempt(ClaimJob, status), action) <==>
              action == ClaimJob && (status == Submitting || status == Claimed)
    ensures Blocks(Attempt(BidJob, status), action) <==>
              && action == BidJob
              && (status == Submitting || status == SubmittedRemotely || status == AcceptedRemotely)
  {
  }

  /** A request that was answered rules out another of its kind; one without an answer only an application. */
  lemma AnswerBlocks(attempts: seq<Attempt>, action: ActionKind, ok: bool)
    requires !Blocked(attempts, action)
    ensures var after := attempts + [Attempt(action, StatusAfter(action, ok))];
            Blocked(after, action) <==> ok || action == ApplyJob
    ensures !ok ==> StatusAfter(action, ok) == UnknownRemoteState
    ensures ok && action == ClaimJob ==> StatusAfter(action, ok) == Claimed
    ensures ok && action != ClaimJob ==> StatusAfter(action, ok) == SubmittedRemotely
  {
    var after := attempts + [Attempt(action, StatusAfter(action, ok))];
    assert forall i :: 0 <= i < |attempts| ==> after[i] == attempts[i];
    assert after[|attempts|].action == action;
    if ok || action == ApplyJob { assert Blocks(after[|attempts|], action); }
  }

  // ---------------------------------------------------------------- one undisturbed call

  datatype Reply = LeaseHeld | AlreadyAttempted | NotPermitted | Sent | Unknown

  /** The rows and the request log of one job, with its lock row. */
  class Desk {
    var attempts: seq<Attempt>
    var calls: seq<nat>
    const lock: JobLock

    constructor (lock: JobLock)
      ensures this.lock == lock && attempts == [] && calls == []
    {
      this.lock := lock;
      attempts, calls := [], [];
    }

    /** `permitted`: the adapter offers the action and the price is valid; `answered`: the call returned. */
    method AcquireProfitableJob(now: int, node: Node, action: ActionKind, permitted: bool, answered: bool)
      returns (r: Reply)
      modifies this, lock
      ensures AcquiredRow(old(lock.row), now, node, ACQUISITION_LEASE).Err? ==>
                r == LeaseHeld && lock.row == old(lock.row)
      ensures r != LeaseHeld ==> lock.row == None && AcquiredRow(old(lock.row), now, node, ACQUISITION_LEASE).Ok?
      ensures r == AlreadyAttempted ==> Blocked(old(attempts), action)
      ensures r == NotPermitted ==> !Blocked(old(attempts), action) && !permitted
      ensures r == Sent || r == Unknown <==>
              && AcquiredRow(old(lock.row), now, node, ACQUISITION_LEASE).Ok?
              && !Blocked(old(attempts), action) && permitted
      ensures if r == Sent || r == Unknown
              then r == (if answered then Sent else Unknown)
                   && attempts == old(attempts) + [Attempt(action, StatusAfter(action, answered))]
                   && calls == old(calls) + [|old(attempts)|]
              else attempts == old(attempts) && calls == old(calls)
      ensures r == Sent ==> Blocked(attempts, action)
      ensures r == Unknown ==> (Blocked(attempts, action) <==> action == ApplyJob)
    {
      if !Blocked(attempts, action) { AnswerBlocks(attempts, action, answered); }
      var lease := lock.Acquire(now, node, ACQUISITION_LEASE);
      if lease.Err? {
        return LeaseHeld;
      }
      if Blocked(attempts, action) {
        r := AlreadyAttempted;
      } else if !permitted {
        r := NotPermitted;
      } else {
        var i := |attempts|;
        attempts := attempts + [Attempt(action, Submitting)];
        calls := calls + [i];
        attempts := attempts[i := attempts[i].(status := StatusAfter(action, answered))];
        r := if answered then Sent else Unknown;
      }
      var _ := lock.Release(node, lease.value.token);
    }
  }

  // ---------------------------------------------------------------- the invariant

  predicate AttemptOf(s: Site, p: nat, i: nat) {
    p in s.flows && (s.flows[p].phase == Recorded(i) || s.flows[p].phase == Calling(i))
  }

  ghost predicate LiveFlow(s: Site, p: nat) {
    p in s.flows && Live(s.lock, s.flows[p].handle)
  }

  /** Every process in the section has an acquisition of its own. */
  ghost predicate OwnHandles(s: Site) {
    && Consistent(s.lock)
    && (forall p :: p in s.flows ==> s.flows[p].handle < |s.lock.handles|)
    && (forall p, q :: p in s.flows && q in s.flows && s.flows[p].handle == s.flows[q].handle ==> p == q)
  }

  /** A passed check stays true while the handle is live. */
  ghost predicate ChecksHold(s: Site) {
    forall p :: InPhase(s, p, Checked) && LiveFlow(s, p) ==> !Blocked(s.attempts, s.flows[p].action)
  }

  ghost predicate AttemptsOwned(s: Site) {
    && (forall p: nat, i: nat :: AttemptOf(s, p, i) ==>
          i < |s.attempts| && s.attempts[i] == Attempt(s.flows[p].action, Submitting))
    && (forall p: nat, q: nat, i: nat :: AttemptOf(s, p, i) && AttemptOf(s, q, i) ==> p == q)
  }

  ghost predicate CallsDistinct(s: Site) {
    && NoDuplicates(s.calls)
    && (forall i :: i in s.calls ==> i < |s.attempts|)
    && (forall p: nat, i: nat :: p in s.flows && s.flows[p].phase == Recorded(i) ==> i !in s.calls)
  }

  /** At most one attempt of each kind is pending or succeeded; of applications, at most one at all. */
  ghost predicate OneBlockingAttempt(attempts: seq<Attempt>) {
    forall i, j, action :: 0 <= i < j < |attempts| ==> !(Blocks(attempts[i], action) && Blocks(attempts[j], action))
  }

  ghost predicate Sound(s: Site) {
    OwnHandles(s) && ChecksHold(s) && AttemptsOwned(s) && CallsDistinct(s) && OneBlockingAttempt(s.attempts)
  }

  /** Handles never come back to life. */
  lemma LiveWasLive(h: History, a: LockAction, i: nat)
    requires Consistent(h) && i < |h.handles|
    ensures i < |Next(h, a).handles| && Next(h, a).handles[i].node == h.handles[i].node
    ensures Live(Next(h, a), i) ==> Live(h, i)
  {
  }

  lemma LockTrafficKeepsHandles(s: Site, a: LockAction)
    requires OwnHandles(s) && Punctual(s.lock, a)
    ensures OwnHandles(s.(lock := Next(s.lock, a)))
    ensures forall p :: LiveFlow(s.(lock := Next(s.lock, a)), p) ==> LiveFlow(s, p)
  {
    var t := s.(lock := Next(s.lock, a));
    NextKeepsConsistent(s.lock, a);
    hide Consistent, Next, Live, Punctual;
    forall p | p in s.flows ensures s.flows[p].handle < |t.lock.handles| && (LiveFlow(t, p) ==> LiveFlow(s, p)) {
      LiveWasLive(s.lock, a, s.flows[p].handle);
    }
  }

  lemma AcquireAppends(h: History, node: Node, lease: int)
    requires AcquiredRow(h.row, h.now, node, lease).Ok?
    ensures var t := Next(h, Acquire(node, lease));
            |t.handles| == |h.handles| + 1 && t.handles[|h.handles|].node == node && t.now == h.now
  {
  }

  lemma BeginKeepsHandles(s: Site, p: nat, node: Node, action: ActionKind)
    requires OwnHandles(s)
    ensures OwnHandles(Move(s, BeginFlow(p, node, action)))
    ensures forall q :: q in s.flows && LiveFlow(Move(s, BeginFlow(p, node, action)), q) ==> LiveFlow(s, q)
  {
    if p !in s.flows && AcquiredRow(s.lock.row, s.lock.now, node, ACQUISITION_LEASE).Ok? {
      LockTrafficKeepsHandles(s, Acquire(node, ACQUISITION_LEASE));
      AcquireAppends(s.lock, node, ACQUISITION_LEASE);
      hide Consistent, Next, Live;
      assert forall q :: LiveFlow(Move(s, BeginFlow(p, node, action)), q) && q != p ==>
                           LiveFlow(s.(lock := Next(s.lock, Acquire(node, ACQUISITION_LEASE))), q);
    }
  }

  lemma EndKeepsHandles(s: Site, p: nat)
    requires OwnHandles(s)
    ensures OwnHandles(Move(s, EndFlow(p)))
    ensures forall q :: LiveFlow(Move(s, EndFlow(p)), q) ==> LiveFlow(s, q)
  {
    if InPhase(s, p, Finishing) && s.flows[p].handle < |s.lock.handles| {
      var a := Release(s.flows[p].node, s.lock.handles[s.flows[p].handle].token);
      LockTrafficKeepsHandles(s, a);
      hide Consistent, Next, Live;
      assert forall q :: LiveFlow(Move(s, EndFlow(p)), q) ==> LiveFlow(s.(lock := Next(s.lock, a)), q);
    }
  }

  /** Two processes cannot both have a live handle. */
  lemma LiveFlowIsUnique(s: Site, p: nat, q: nat)
    requires OwnHandles(s) && LiveFlow(s, p) && LiveFlow(s, q)
    ensures p == q
  {
    ConsistentIsExclusive(s.lock);
    hide Consistent, Live;
  }

  /** Phases do not matter to the handles. */
  lemma SameHandles(s: Site, t: Site)
    requires OwnHandles(s) && t.lock == s.lock
    requires forall p :: p in t.flows ==> p in s.flows && t.flows[p].handle == s.flows[p].handle
    ensures OwnHandles(t)
    ensures forall p :: LiveFlow(t, p) ==> LiveFlow(s, p)
  {
    hide Consistent, Live;
  }

  lemma CheckKeepsSound(s: Site, p: nat)
    requires Sound(s)
    ensures Sound(Move(s, Check(p))) && Sound(Move(s, GiveUp(p)))
  {
    var free := InPhase(s, p, Locked) && !Blocked(s.attempts, s.flows[p].action);
    PhaseKeepsSound(s, p, if free then Checked else Finishing);
    PhaseKeepsSound(s, p, Finishing);
    hide Sound, Blocked;
  }

  /** Moving a process that owns no attempt to a phase without one, a check only if nothing blocks. */
  lemma PhaseKeepsSound(s: Site, p: nat, phase: Phase)
    requires Sound(s) && (phase == Checked || phase == Finishing)
    requires p in s.flows && phase == Checked ==> !Blocked(s.attempts, s.flows[p].action)
    ensures p in s.flows ==> Sound(WithPhase(s, p, phase))
  {
    if p in s.flows {
      hide OwnHandles, Blocked, OneBlockingAttempt, LiveFlow, AttemptsOwned, CallsDistinct;
      SameHandles(s, WithPhase(s, p, phase));
      PhaseKeepsAttempts(s, p, phase);
    }
  }

  lemma PhaseKeepsAttempts(s: Site, p: nat, phase: Phase)
    requires AttemptsOwned(s) && CallsDistinct(s) && p in s.flows && (phase == Checked || phase == Finishing)
    ensures AttemptsOwned(WithPhase(s, p, phase)) && CallsDistinct(WithPhase(s, p, phase))
  {
    var t := WithPhase(s, p, phase);
    assert forall q: nat, i: nat :: AttemptOf(t, q, i) ==> AttemptOf(s, q, i);
  }

  /** Nothing rules the attempt out by now, and no one else with a live lease is about to record the same. */
  ghost predicate Unopposed(s: Site, p: nat)
    requires p in s.flows
  {
    && !Blocked(s.attempts, s.flows[p].action)
    && forall q :: q != p && InPhase(s, q, Checked) && LiveFlow(s, q) ==> s.flows[q].action != s.flows[p].action
  }

  /** Recording an attempt keeps the invariant exactly if it is unopposed, with a live handle or not. */
  lemma RecordKeepsSoundIff(s: Site, p: nat)
    requires Sound(s) && InPhase(s, p, Checked)
    ensures Sound(Move(s, Record(p))) <==> Unopposed(s, p)
  {
    var t, action := Move(s, Record(p)), s.flows[p].action;
    hide OwnHandles, LiveFlow, Blocked, OneBlockingAttempt, AttemptsOwned, CallsDistinct;
    SameHandles(s, t);
    RecordKeepsAttempts(s, p);
    RecordKeepsOneBlockingIff(s.attempts, action);
    assert forall q :: q != p && q in s.flows ==> t.flows[q] == s.flows[q];
    assert forall q :: LiveFlow(s, q) <==> LiveFlow(t, q) by { RecordKeepsLive(s, p); }
    BlockedByNew(s.attempts, action);
  }

  lemma RecordKeepsLive(s: Site, p: nat)
    requires InPhase(s, p, Checked)
    ensures forall q :: LiveFlow(s, q) <==> LiveFlow(Move(s, Record(p)), q)
  {
    hide Live;
  }

  lemma BlockedByNew(attempts: seq<Attempt>, action: ActionKind)
    ensures forall a :: Blocked(attempts + [Attempt(action, Submitting)], a) <==> a == action || Blocked(attempts, a)
  {
    var after := attempts + [Attempt(action, Submitting)];
    assert Blocks(after[|attempts|], action);
    forall a | Blocked(attempts, a) ensures Blocked(after, a) {
      var i :| 0 <= i < |attempts| && Blocks(attempts[i], a);
      assert after[i] == attempts[i];
    }
  }

  /** A live handle is enough: the check still holds and no one else has a live one. */
  lemma LiveIsUnopposed(s: Site, p: nat)
    requires Sound(s) && InPhase(s, p, Checked) && LiveFlow(s, p)
    ensures Unopposed(s, p)
  {
    forall q | LiveFlow(s, q) ensures q == p { LiveFlowIsUnique(s, p, q); }
    hide OwnHandles, LiveFlow, Blocked, OneBlockingAttempt, AttemptsOwned, CallsDistinct;
  }

  lemma RecordKeepsAttempts(s: Site, p: nat)
    requires AttemptsOwned(s) && CallsDistinct(s) && InPhase(s, p, Checked)
    ensures AttemptsOwned(Move(s, Record(p))) && CallsDistinct(Move(s, Record(p)))
  {
    var t := Move(s, Record(p));
    forall q: nat, i: nat | AttemptOf(t, q, i)
      ensures if q == p then i == |s.attempts| else AttemptOf(s, q, i)
    {
    }
  }

  lemma RecordKeepsOneBlockingIff(attempts: seq<Attempt>, action: ActionKind)
    requires OneBlockingAttempt(attempts)
    ensures OneBlockingAttempt(attempts + [Attempt(action, Submitting)]) <==> !Blocked(attempts, action)
  {
    var after := attempts + [Attempt(action, Submitting)];
    if i :| 0 <= i < |attempts| && Blocks(attempts[i], action) {
      assert Blocks(after[i], action) && Blocks(after[|attempts|], action);
    }
  }

  lemma CallKeepsSound(s: Site, p: nat)
    requires Sound(s)
    ensures Sound(Move(s, CallRemote(p)))
  {
    if p in s.flows && s.flows[p].phase.Recorded? {
      hide OwnHandles, LiveFlow, OneBlockingAttempt, Blocked, AttemptsOwned, CallsDistinct;
      SameHandles(s, Move(s, CallRemote(p)));
      CallKeepsAttempts(s, p);
    }
  }

  lemma CallKeepsAttempts(s: Site, p: nat)
    requires AttemptsOwned(s) && CallsDistinct(s) && p in s.flows && s.flows[p].phase.Recorded?
    ensures var t := Move(s, CallRemote(p)); AttemptsOwned(t) && CallsDistinct(t)
  {
    var t := Move(s, CallRemote(p));
    assert AttemptOf(s, p, s.flows[p].phase.attempt);
    assert forall q: nat, j: nat :: AttemptOf(t, q, j) ==> AttemptOf(s, q, j);
    forall q: nat, j: nat | q in t.flows && t.flows[q].phase == Recorded(j) ensures j !in t.calls {
      assert AttemptOf(s, q, j);
    }
  }

  lemma ReturnKeepsSound(s: Site, p: nat, ok: bool)
    requires Sound(s)
    ensures Sound(Move(s, ReturnRemote(p, ok)))
  {
    if p in s.flows && s.flows[p].phase.Calling? && s.flows[p].phase.attempt < |s.attempts| {
      hide OwnHandles, LiveFlow, StatusAfter, OneBlockingAttempt, Blocked, AttemptsOwned, CallsDistinct, ChecksHold;
      SameHandles(s, Move(s, ReturnRemote(p, ok)));
      ReturnKeepsAttempts(s, p, ok);
      ReturnKeepsChecks(s, p, ok);
    }
  }

  lemma ReturnKeepsChecks(s: Site, p: nat, ok: bool)
    requires Sound(s) && p in s.flows && s.flows[p].phase.Calling? && s.flows[p].phase.attempt < |s.attempts|
    requires forall q :: LiveFlow(Move(s, ReturnRemote(p, ok)), q) ==> LiveFlow(s, q)
    ensures ChecksHold(Move(s, ReturnRemote(p, ok))) && OneBlockingAttempt(Move(s, ReturnRemote(p, ok)).attempts)
  {
    var i := s.flows[p].phase.attempt;
    assert AttemptOf(s, p, i);
    AnswerBlocksLess(s.attempts, i, StatusAfter(s.flows[p].action, ok));
    hide OwnHandles, LiveFlow, StatusAfter, OneBlockingAttempt, Blocked, AttemptsOwned, CallsDistinct;
  }

  lemma ReturnKeepsAttempts(s: Site, p: nat, ok: bool)
    requires AttemptsOwned(s) && CallsDistinct(s)
    requires p in s.flows && s.flows[p].phase.Calling? && s.flows[p].phase.attempt < |s.attempts|
    ensures AttemptsOwned(Move(s, ReturnRemote(p, ok))) && CallsDistinct(Move(s, ReturnRemote(p, ok)))
  {
    var t := Move(s, ReturnRemote(p, ok));
    hide StatusAfter;
    assert AttemptOf(s, p, s.flows[p].phase.attempt);
    assert forall q: nat, j: nat :: AttemptOf(t, q, j) ==> AttemptOf(s, q, j) && q != p;
  }

  /** A pending attempt blocks its kind; whatever it turns into blocks no more than that. */
  lemma AnswerBlocksLess(attempts: seq<Attempt>, i: nat, status: AttemptStatus)
    requires i < |attempts| && attempts[i].status == Submitting && OneBlockingAttempt(attempts)
    ensures var after := attempts[i := attempts[i].(status := status)];
            && OneBlockingAttempt(after)
            && forall a :: Blocked(after, a) ==> Blocked(attempts, a)
  {
  }

  /** When only flows end or begin and leases pass, the checks and attempts of the others stand. */
  lemma SameAttempts(s: Site, t: Site)
    requires Sound(s) && OwnHandles(t) && t.attempts == s.attempts && t.calls == s.calls
    requires forall p :: p in t.flows ==> t.flows[p].phase == Locked || (p in s.flows && t.flows[p] == s.flows[p])
    requires forall p :: InPhase(t, p, Checked) && LiveFlow(t, p) ==> LiveFlow(s, p)
    ensures Sound(t)
  {
    hide Consistent, LiveFlow, Blocked, OneBlockingAttempt;
    assert forall p: nat, j: nat :: AttemptOf(t, p, j) ==> AttemptOf(s, p, j);
  }

  /** Attempts are recorded unopposed, and the watchdog deletes only expired rows. */
  ghost predicate Careful(s: Site, a: SiteAction) {
    && (a.Record? && InPhase(s, a.p, Checked) ==> Unopposed(s, a.p))
    && (a.OnLock? ==> Punctual(s.lock, a.a))
  }

  ghost predicate AllCareful(s: Site, actions: seq<SiteAction>) {
    actions == []
    || (AllCareful(s, actions[..|actions| - 1])
        && Careful(Moves(s, actions[..|actions| - 1]), actions[|actions| - 1]))
  }

  /** One action keeps the invariant exactly if it is careful. */
  lemma MoveKeepsSoundIff(s: Site, a: SiteAction)
    requires Sound(s)
    ensures Sound(Move(s, a)) <==> Careful(s, a)
  {
    hide Consistent, Live, Blocked, OneBlockingAttempt, AttemptsOwned, CallsDistinct, Next, Punctual, Unopposed;
    match a
    case OnLock(b) => LockKeepsSoundIff(s, b);
    case BeginFlow(p, node, action) => BeginKeepsHandles(s, p, node, action); SameAttempts(s, Move(s, a));
    case Check(p) => CheckKeepsSound(s, p);
    case GiveUp(p) => CheckKeepsSound(s, p);
    case Record(p) => if InPhase(s, p, Checked) { RecordKeepsSoundIff(s, p); }
    case CallRemote(p) => CallKeepsSound(s, p);
    case ReturnRemote(p, ok) => ReturnKeepsSound(s, p, ok);
    case EndFlow(p) => EndKeepsHandles(s, p); SameAttempts(s, Move(s, a));
    case CrashFlow(p) => SameHandles(s, Move(s, a)); SameAttempts(s, Move(s, a));
  }

  lemma LockKeepsSoundIff(s: Site, a: LockAction)
    requires Sound(s)
    ensures Sound(Move(s, OnLock(a))) <==> Punctual(s.lock, a)
  {
    hide Consistent, Live, Blocked, OneBlockingAttempt, AttemptsOwned, CallsDistinct, Next;
    if Punctual(s.lock, a) {
      LockTrafficKeepsHandles(s, a);
      SameAttempts(s, Move(s, OnLock(a)));
    } else {
      DeletionKeepsConsistentIff(s.lock, a.life);
    }
  }

  /** Every state the run goes through is sound. */
  ghost predicate AllSound(s: Site, actions: seq<SiteAction>) {
    Sound(Moves(s, actions)) && (actions == [] || AllSound(s, actions[..|actions| - 1]))
  }

  /** A whole run stays sound exactly if every action of it is careful. */
  lemma {:induction false} RunIsSoundIff(s: Site, actions: seq<SiteAction>)
    requires Sound(s)
    ensures AllSound(s, actions) <==> AllCareful(s, actions)
  {
    hide Sound, Move, Careful;
    if actions != [] {
      var front, last := actions[..|actions| - 1], actions[|actions| - 1];
      RunIsSoundIff(s, front);
      if AllSound(s, front) {
        AllSoundEndsSound(s, front);
        MoveKeepsSoundIff(Moves(s, front), last);
      }
    }
  }

  lemma AllSoundEndsSound(s: Site, actions: seq<SiteAction>)
    requires AllSound(s, actions)
    ensures Sound(Moves(s, actions))
  {
  }

  /** Rows created under live handles and a watchdog on schedule are enough. */
  lemma {:induction false} LiveRowsAreCareful(s: Site, actions: seq<SiteAction>)
    requires Sound(s) && AllObey(s, actions, LiveRows) && AllObey(s, actions, OnSchedule)
    ensures AllCareful(s, actions)
  {
    if actions != [] {
      var front, last := actions[..|actions| - 1], actions[|actions| - 1];
      LiveRowsAreCareful(s, front);
      RunIsSoundIff(s, front);
      AllSoundEndsSound(s, front);
      var t := Moves(s, front);
      assert Obeys(t, last, LiveRows) && Obeys(t, last, OnSchedule);
      hide Sound, Move, Moves, AllObey, AllSound, Punctual, Unopposed;
      if last.Record? && InPhase(t, last.p, Checked) { LiveIsUnopposed(t, last.p); }
    }
  }

  lemma EmptyIsSound(now: int)
    ensures Sound(Empty(now))
  {
    assert Consistent(Start(now));
  }

  lemma EveryRunIsSound(now: int, actions: seq<SiteAction>)
    requires AllCareful(Empty(now), actions)
    ensures Sound(Moves(Empty(now), actions))
  {
    EmptyIsSound(now);
    RunIsSoundIff(Empty(now), actions);
    AllSoundEndsSound(Empty(now), actions);
  }

  /**
   * The condition on recording is exact also for what follows: after a record, every continuation
   * under live handles and with a watchdog on schedule keeps one blocking attempt of a kind, exactly
   * if the record was unopposed.
   */
  lemma RecordIsHarmlessIff(s: Site, p: nat)
    requires Sound(s) && InPhase(s, p, Checked)
    ensures var t := Move(s, Record(p));
            Unopposed(s, p) <==>
              forall later: seq<SiteAction> :: AllObey(t, later, LiveRows) && AllObey(t, later, OnSchedule) ==>
                OneBlockingAttempt(Moves(t, later).attempts)
  {
    var t := Move(s, Record(p));
    RecordKeepsSoundIff(s, p);
    if Unopposed(s, p) {
      forall later: seq<SiteAction> | AllObey(t, later, LiveRows) && AllObey(t, later, OnSchedule)
        ensures OneBlockingAttempt(Moves(t, later).attempts)
      {
        LiveRowsAreCareful(t, later);
        RunIsSoundIff(t, later);
        AllSoundEndsSound(t, later);
      }
    } else {
      var later := OpposedRecordHarms(s, p);
    }
  }

  lemma OpposedRecordHarms(s: Site, p: nat) returns (later: seq<SiteAction>)
    requires Sound(s) && InPhase(s, p, Checked) && !Unopposed(s, p)
    ensures var t := Move(s, Record(p));
            && AllObey(t, later, LiveRows) && AllObey(t, later, OnSchedule)
            && !OneBlockingAttempt(Moves(t, later).attempts)
  {
    var t, action := Move(s, Record(p)), s.flows[p].action;
    later := [];
    if Blocked(s.attempts, action) {
      RecordKeepsOneBlockingIff(s.attempts, action);
    } else {
      var q :| q != p && InPhase(s, q, Checked) && LiveFlow(s, q) && s.flows[q].action == action;
      later := [Record(q)];
      MovesOne(t, Record(q), LiveRows);
      MovesOne(t, Record(q), OnSchedule);
      RecordKeepsOneBlockingIff(s.attempts, action);
      BlockedByNew(s.attempts, action);
      RecordKeepsOneBlockingIff(t.attempts, action);
    }
  }

  /** The `x`-th remote request ever issued was an application. */
  ghost predicate IsApplyCall(s: Site, x: nat)
    requires x < |s.calls|
  {
    s.calls[x] < |s.attempts| && s.attempts[s.calls[x]].action == ApplyJob
  }

  ghost predicate OneApplication(attempts: seq<Attempt>) {
    forall i, j :: 0 <= i < j < |attempts| ==> !(attempts[i].action == ApplyJob && attempts[j].action == ApplyJob)
  }

  /** At most one application row exists and at most one application was ever sent. */
  ghost predicate AppliedOnce(s: Site) {
    && OneApplication(s.attempts)
    && (forall x, y :: 0 <= x < y < |s.calls| ==> !(IsApplyCall(s, x) && IsApplyCall(s, y)))
  }

  /**
   * However many processes try, under whatever nodes, crash or get unknown answers, and whoever
   * else uses the lock: if every attempt is recorded unopposed and the watchdog is never late, at
   * most one application row is ever created and one application sent.
   */
  lemma AtMostOneRemoteApply(now: int, actions: seq<SiteAction>)
    requires AllCareful(Empty(now), actions)
    ensures AppliedOnce(Moves(Empty(now), actions))
  {
    EveryRunIsSound(now, actions);
    var s := Moves(Empty(now), actions);
    hide OwnHandles, ChecksHold, AttemptsOwned, CallsDistinct, Moves, AllCareful;
    forall i, j | 0 <= i < j < |s.attempts|
      ensures !(s.attempts[i].action == ApplyJob && s.attempts[j].action == ApplyJob)
    {
      assert !(Blocks(s.attempts[i], ApplyJob) && Blocks(s.attempts[j], ApplyJob));
    }
    OneApplicationIsSentOnce(s);
  }

  /** Claims and bids: at most one attempt of a kind is pending or has succeeded at any time. */
  lemma AtMostOneOutstanding(now: int, actions: seq<SiteAction>, action: ActionKind, i: nat, j: nat)
    requires AllCareful(Empty(now), actions)
    ensures var s := Moves(Empty(now), actions);
            i < j < |s.attempts| ==> !(Blocks(s.attempts[i], action) && Blocks(s.attempts[j], action))
  {
    EveryRunIsSound(now, actions);
  }

  // ---------------------------------------------------------------- whatever the lock does

  /** Rows have one owner and requests one row, even when no lease protects anything. */
  ghost predicate Tracked(s: Site) {
    AttemptsOwned(s) && CallsDistinct(s)
  }

  lemma MoveKeepsTracked(s: Site, a: SiteAction)
    requires Tracked(s)
    ensures Tracked(Move(s, a))
  {
    hide AttemptsOwned, CallsDistinct, Next, Blocked, StatusAfter;
    match a
    case Check(p) =>
      if InPhase(s, p, Locked) {
        PhaseKeepsAttempts(s, p, if Blocked(s.attempts, s.flows[p].action) then Finishing else Checked);
      }
    case GiveUp(p) => if p in s.flows { PhaseKeepsAttempts(s, p, Finishing); }
    case Record(p) => if InPhase(s, p, Checked) { RecordKeepsAttempts(s, p); }
    case CallRemote(p) => if p in s.flows && s.flows[p].phase.Recorded? { CallKeepsAttempts(s, p); }
    case ReturnRemote(p, ok) =>
      if p in s.flows && s.flows[p].phase.Calling? && s.flows[p].phase.attempt < |s.attempts| {
        ReturnKeepsAttempts(s, p, ok);
      }
    case _ => FlowsComeAndGo(s, Move(s, a));
  }

  lemma FlowsComeAndGo(s: Site, t: Site)
    requires Tracked(s) && t.attempts == s.attempts && t.calls == s.calls
    requires forall p :: p in t.flows ==> t.flows[p].phase == Locked || (p in s.flows && t.flows[p] == s.flows[p])
    ensures Tracked(t)
  {
    assert forall p: nat, i: nat :: AttemptOf(t, p, i) ==> AttemptOf(s, p, i);
  }

  /** An application is recorded only while no application row exists. */
  ghost predicate AppliesFirst(s: Site, a: SiteAction) {
    a.Record? && InPhase(s, a.p, Checked) && s.flows[a.p].action == ApplyJob ==> !Blocked(s.attempts, ApplyJob)
  }

  ghost predicate AllApplyFirst(s: Site, actions: seq<SiteAction>) {
    actions == []
    || (AllApplyFirst(s, actions[..|actions| - 1])
        && AppliesFirst(Moves(s, actions[..|actions| - 1]), actions[|actions| - 1]))
  }

  lemma MoveKeepsOneApplicationIff(s: Site, a: SiteAction)
    ensures OneApplication(Move(s, a).attempts) <==> OneApplication(s.attempts) && AppliesFirst(s, a)
  {
    hide Next, StatusAfter;
    var before, after := s.attempts, Move(s, a).attempts;
    assert |before| <= |after| && forall i :: 0 <= i < |before| ==> after[i].action == before[i].action;
    if OneApplication(after) {
      forall i, j | 0 <= i < j < |before| ensures !(before[i].action == ApplyJob && before[j].action == ApplyJob) {
        assert !(after[i].action == ApplyJob && after[j].action == ApplyJob);
      }
      if a.Record? && InPhase(s, a.p, Checked) && s.flows[a.p].action == ApplyJob {
        assert after == before + [Attempt(ApplyJob, Submitting)];
        assert after[|before|].action == ApplyJob;
      }
    } else if OneApplication(before) {
      var i, j :| 0 <= i < j < |after| && after[i].action == ApplyJob && after[j].action == ApplyJob;
      assert j == |before| && Blocks(before[i], ApplyJob);
    }
  }

  lemma {:induction false} RunAppliesOnceIff(s: Site, actions: seq<SiteAction>)
    requires Tracked(s) && OneApplication(s.attempts)
    ensures Tracked(Moves(s, actions))
    ensures OneApplication(Moves(s, actions).attempts) <==> AllApplyFirst(s, actions)
  {
    hide Tracked, OneApplication, Move, AppliesFirst;
    if actions != [] {
      var front, last := actions[..|actions| - 1], actions[|actions| - 1];
      RunAppliesOnceIff(s, front);
      MoveKeepsTracked(Moves(s, front), last);
      MoveKeepsOneApplicationIff(Moves(s, front), last);
    }
  }

  /**
   * Every run, with any use of the lock, any watchdog and any shared nodes: at most one application
   * row exists and at most one application was sent, exactly if no application was recorded while
   * an earlier row existed. The code checks this once, before the price and the adapter are looked
   * at, and relies on the lease from there on.
   */
  lemma AppliedOnceIff(now: int, actions: seq<SiteAction>)
    ensures AppliedOnce(Moves(Empty(now), actions)) <==> AllApplyFirst(Empty(now), actions)
  {
    RunAppliesOnceIff(Empty(now), actions);
    var s := Moves(Empty(now), actions);
    hide Moves, AllApplyFirst;
    if OneApplication(s.attempts) {
      OneApplicationIsSentOnce(s);
    }
  }

  lemma OneApplicationIsSentOnce(s: Site)
    requires Tracked(s) && OneApplication(s.attempts)
    ensures AppliedOnce(s)
  {
    hide AttemptsOwned;
    forall x, y | 0 <= x < y < |s.calls| ensures !(IsApplyCall(s, x) && IsApplyCall(s, y)) {
      assert s.calls[x] in s.calls && s.calls[y] in s.calls && s.calls[x] != s.calls[y];
    }
  }

  /** A row that is no longer pending never changes. */
  lemma {:induction false} DecidedRowsStay(s: Site, actions: seq<SiteAction>, i: nat)
    requires Tracked(s) && i < |s.attempts| && s.attempts[i].status != Submitting
    ensures var t := Moves(s, actions); Tracked(t) && i < |t.attempts| && t.attempts[i] == s.attempts[i]
  {
    if actions != [] {
      DecidedRowsStay(s, actions[..|actions| - 1], i);
      MoveKeepsDecided(Moves(s, actions[..|actions| - 1]), actions[|actions| - 1], i);
    }
  }

  lemma MoveKeepsDecided(s: Site, a: SiteAction, i: nat)
    requires Tracked(s) && i < |s.attempts| && s.attempts[i].status != Submitting
    ensures var t := Move(s, a); Tracked(t) && i < |t.attempts| && t.attempts[i] == s.attempts[i]
  {
    MoveKeepsTracked(s, a);
    hide Next, Blocked, StatusAfter, CallsDistinct;
    if a.ReturnRemote? && a.p in s.flows && s.flows[a.p].phase.Calling? {
      assert AttemptOf(s, a.p, s.flows[a.p].phase.attempt);
    }
  }

  lemma MovesSplit(s: Site, before: seq<SiteAction>, a: SiteAction, after: seq<SiteAction>)
    ensures Moves(s, before + [a] + after) == Moves(Move(Moves(s, before), a), after)
    decreases |after|
  {
    hide Move;
    if after == [] {
      assert before + [a] + [] == before + [a] && (before + [a])[..|before|] == before;
    } else {
      var n := |after| - 1;
      var all := before + [a] + after;
      assert all[..|all| - 1] == before + [a] + after[..n] && all[|all| - 1] == after[n];
      MovesSplit(s, before, a, after[..n]);
    }
  }

  /**
   * Over every run: once a request of a kind was answered, every later check of that kind fails,
   * whatever became of the lock.
   */
  lemma AnsweredStaysBlocked(now: int, before: seq<SiteAction>, p: nat, after: seq<SiteAction>, q: nat)
    requires p in Moves(Empty(now), before).flows && Moves(Empty(now), before).flows[p].phase.Calling?
    ensures var action := Moves(Empty(now), before).flows[p].action;
            var t := Moves(Empty(now), before + [ReturnRemote(p, true)] + after);
            && Blocked(t.attempts, action)
            && (q in t.flows && t.flows[q].phase == Locked && t.flows[q].action == action ==>
                  q in Move(t, Check(q)).flows && Move(t, Check(q)).flows[q].phase == Finishing)
  {
    var s := Moves(Empty(now), before);
    var i := s.flows[p].phase.attempt;
    RunIsTracked(now, before);
    assert AttemptOf(s, p, i);
    MoveKeepsTracked(s, ReturnRemote(p, true));
    MovesSplit(Empty(now), before, ReturnRemote(p, true), after);
    var u := Move(s, ReturnRemote(p, true));
    DecidedRowsStay(u, after, i);
    hide Moves;
    assert Blocks(u.attempts[i], s.flows[p].action);
  }

  lemma {:induction false} RunIsTracked(now: int, actions: seq<SiteAction>)
    ensures Tracked(Moves(Empty(now), actions))
  {
    hide Move, Tracked;
    if actions == [] {
      assert Tracked(Empty(now)) by { NothingIsTracked(now); }
    } else {
      RunIsTracked(now, actions[..|actions| - 1]);
      MoveKeepsTracked(Moves(Empty(now), actions[..|actions| - 1]), actions[|actions| - 1]);
    }
  }

  lemma NothingIsTracked(now: int)
    ensures Tracked(Empty(now))
  {
  }

  // ---------------------------------------------------------------- distinct nodes

  /** A process in the section holds a live handle until its lease ends. */
  ghost predicate Held(s: Site, p: nat)
    requires p in s.flows
  {
    var i := s.flows[p].handle;
    && i < |s.lock.handles| && s.lock.handles[i].node == s.flows[p].node
    && (Expired(s.lock, i) || Live(s.lock, i))
  }

  ghost predicate AllHeld(s: Site) {
    Consistent(s.lock) && forall p :: p in s.flows ==> Held(s, p)
  }

  lemma HeldSurvives(h: History, a: LockAction, i: nat)
    requires Consistent(h) && i < |h.handles| && (Expired(h, i) || Live(h, i))
    requires a.Acquire? || a.Renew? || a.Release? ==> a.node != h.handles[i].node
    ensures i < |Next(h, a).handles| && Next(h, a).handles[i].node == h.handles[i].node
    ensures Expired(Next(h, a), i) || Live(Next(h, a), i)
  {
  }

  lemma FreshHandleIsLive(h: History, node: Node, lease: int)
    requires Consistent(h) && AcquiredRow(h.row, h.now, node, lease).Ok?
    ensures var t, i := Next(h, Acquire(node, lease)), |h.handles|;
            i < |t.handles| && t.handles[i].node == node && (Expired(t, i) || Live(t, i))
  {
  }

  lemma LockTrafficKeepsHeld(s: Site, a: LockAction)
    requires AllHeld(s) && Punctual(s.lock, a)
    requires a.Acquire? || a.Renew? || a.Release? ==> Absent(s, a.node)
    ensures AllHeld(s.(lock := Next(s.lock, a)))
  {
    var t := s.(lock := Next(s.lock, a));
    NextKeepsConsistent(s.lock, a);
    hide Consistent, Next, Expired, Live, Punctual;
    forall p | p in s.flows ensures Held(t, p) {
      assert Held(s, p);
      HeldSurvives(s.lock, a, s.flows[p].handle);
    }
  }

  lemma BeginKeepsHeld(s: Site, p: nat, node: Node, action: ActionKind)
    requires AllHeld(s) && Obeys(s, BeginFlow(p, node, action), TakesTurns)
    ensures AllHeld(Move(s, BeginFlow(p, node, action)))
  {
    var t := Move(s, BeginFlow(p, node, action));
    if p !in s.flows && AcquiredRow(s.lock.row, s.lock.now, node, ACQUISITION_LEASE).Ok? {
      LockTrafficKeepsHeld(s, Acquire(node, ACQUISITION_LEASE));
      FreshHandleIsLive(s.lock, node, ACQUISITION_LEASE);
      hide Consistent, Next, Expired, Live;
      var u := s.(lock := Next(s.lock, Acquire(node, ACQUISITION_LEASE)));
      forall q | q in t.flows ensures Held(t, q) {
        if q != p { assert Held(u, q); }
      }
    }
  }

  /** Processes in the section run under different nodes. */
  ghost predicate NodesDiffer(s: Site) {
    forall p, q :: p in s.flows && q in s.flows && s.flows[p].node == s.flows[q].node ==> p == q
  }

  lemma EndKeepsHeld(s: Site, p: nat)
    requires AllHeld(s) && NodesDiffer(s)
    ensures AllHeld(Move(s, EndFlow(p)))
  {
    if InPhase(s, p, Finishing) && s.flows[p].handle < |s.lock.handles| {
      var without := s.(flows := s.flows - {p});
      hide Consistent, Expired, Live, Next;
      PhasesKeepHeld(s, without);
      LockTrafficKeepsHeld(without, Release(s.flows[p].node, s.lock.handles[s.flows[p].handle].token));
    }
  }

  lemma PhasesKeepHeld(s: Site, t: Site)
    requires AllHeld(s) && NodesDiffer(s) && t.lock == s.lock
    requires forall p :: p in t.flows ==>
               p in s.flows && t.flows[p].handle == s.flows[p].handle && t.flows[p].node == s.flows[p].node
    ensures AllHeld(t) && NodesDiffer(t)
  {
    hide Consistent, Expired, Live;
    assert forall p :: p in t.flows ==> Held(s, p) && Held(t, p);
  }

  lemma MoveKeepsHeld(s: Site, a: SiteAction)
    requires AllHeld(s) && NodesDiffer(s) && Obeys(s, a, TakesTurns) && Obeys(s, a, OnSchedule)
    ensures AllHeld(Move(s, a)) && NodesDiffer(Move(s, a))
    ensures Obeys(s, a, InTime) ==> Obeys(s, a, LiveRows)
  {
    hide AllHeld, Consistent, Live, Expired, Blocked, Next, Punctual;
    HeldInTime(s, a);
    match a
    case OnLock(b) => LockTrafficKeepsHeld(s, b);
    case BeginFlow(p, node, action) => BeginKeepsHeld(s, p, node, action);
    case EndFlow(p) => EndKeepsHeld(s, p);
    case _ => PhasesKeepHeld(s, Move(s, a));
  }

  lemma HeldInTime(s: Site, a: SiteAction)
    requires AllHeld(s)
    ensures Obeys(s, a, InTime) ==> Obeys(s, a, LiveRows)
  {
    if a.Record? && a.p in s.flows { assert Held(s, a.p); }
  }

  lemma {:induction false} TakingTurnsKeepsHandlesLive(now: int, actions: seq<SiteAction>)
    requires AllObey(Empty(now), actions, TakesTurns) && AllObey(Empty(now), actions, OnSchedule)
    requires AllObey(Empty(now), actions, InTime)
    ensures AllHeld(Moves(Empty(now), actions)) && NodesDiffer(Moves(Empty(now), actions))
    ensures AllObey(Empty(now), actions, LiveRows)
  {
    if actions == [] {
      assert Consistent(Start(now));
    } else {
      hide AllHeld, NodesDiffer, Move, Obeys;
      TakingTurnsKeepsHandlesLive(now, actions[..|actions| - 1]);
      MoveKeepsHeld(Moves(Empty(now), actions[..|actions| - 1]), actions[|actions| - 1]);
    }
  }

  /**
   * Distinct nodes: if no two processes use the lock under one node at a time, it is enough that
   * every row is created before its lease ends and that the watchdog is never late.
   */
  lemma DistinctNodesApplyOnce(now: int, actions: seq<SiteAction>)
    requires AllObey(Empty(now), actions, TakesTurns) && AllObey(Empty(now), actions, OnSchedule)
    requires AllObey(Empty(now), actions, InTime)
    ensures AppliedOnce(Moves(Empty(now), actions))
  {
    TakingTurnsKeepsHandlesLive(now, actions);
    EmptyIsSound(now);
    LiveRowsAreCareful(Empty(now), actions);
    AtMostOneRemoteApply(now, actions);
  }

  // ---------------------------------------------------------------- each condition is needed

  lemma MovesAppend(s: Site, actions: seq<SiteAction>, a: SiteAction, rule: Rule)
    ensures Moves(s, actions + [a]) == Move(Moves(s, actions), a)
    ensures AllObey(s, actions + [a], rule) <==> AllObey(s, actions, rule) && Obeys(Moves(s, actions), a, rule)
  {
  }

  lemma {:induction false} MovesConcat(s: Site, a: seq<SiteAction>, b: seq<SiteAction>, rule: Rule)
    ensures Moves(s, a + b) == Moves(Moves(s, a), b)
    ensures AllObey(s, a + b, rule) <==> AllObey(s, a, rule) && AllObey(Moves(s, a), b, rule)
    decreases |b|
  {
    hide Move, Obeys;
    if b == [] {
      assert a + b == a;
    } else {
      var front, last := b[..|b| - 1], b[|b| - 1];
      assert a + b == (a + front) + [last] && b == front + [last];
      MovesConcat(s, a, front, rule);
      MovesAppend(s, a + front, last, rule);
      MovesAppend(Moves(s, a), front, last, rule);
    }
  }

  lemma MovesOne(s: Site, a: SiteAction, rule: Rule)
    ensures Moves(s, [a]) == Move(s, a)
    ensures AllObey(s, [a], rule) <==> Obeys(s, a, rule)
  {
    assert [a][..0] == [];
  }

  lemma MovesTwo(s: Site, a: SiteAction, b: SiteAction, rule: Rule)
    ensures Moves(s, [a, b]) == Move(Move(s, a), b)
    ensures AllObey(s, [a, b], rule) <==> Obeys(s, a, rule) && Obeys(Move(s, a), b, rule)
  {
    hide Move, Obeys;
    assert [a, b] == [a] + [b];
    MovesConcat(s, [a], [b], rule);
    MovesOne(s, a, rule);
    MovesOne(Move(s, a), b, rule);
  }

  function Checking(action: ActionKind, p: nat, node: Node): seq<SiteAction> {
    [BeginFlow(p, node, action), Check(p)]
  }

  function Calls(p: nat): seq<SiteAction> {
    [Record(p), CallRemote(p)]
  }

  lemma CheckingMoves(s: Site, p: nat, node: Node, action: ActionKind, rule: Rule)
    requires p !in s.flows && AcquiredRow(s.lock.row, s.lock.now, node, ACQUISITION_LEASE).Ok?
    requires !Blocked(s.attempts, action)
    ensures Moves(s, Checking(action, p, node)) ==
            s.(lock := Next(s.lock, Acquire(node, ACQUISITION_LEASE)),
               flows := s.flows[p := Flow(node, action, |s.lock.handles|, Checked)])
    ensures AllObey(s, Checking(action, p, node), rule) <==> (rule.TakesTurns? ==> Absent(s, node))
  {
    hide Next, AcquiredRow, Blocked, Live, Expired, Punctual;
    MovesTwo(s, BeginFlow(p, node, action), Check(p), rule);
  }

  lemma CallsMove(s: Site, p: nat, rule: Rule)
    requires InPhase(s, p, Checked)
    ensures var t := Moves(s, Calls(p));
            && t.attempts == s.attempts + [Attempt(s.flows[p].action, Submitting)]
            && t.calls == s.calls + [|s.attempts|] && t.lock == s.lock
            && t.flows == s.flows[p := s.flows[p].(phase := Calling(|s.attempts|))]
    ensures AllObey(s, Calls(p), rule) <==> Obeys(s, Record(p), rule)
  {
    hide Live, Expired, Punctual;
    MovesTwo(s, Record(p), CallRemote(p), rule);
  }

  /** Two processes that both passed their check, both send an application. */
  lemma BothApply(s: Site, p: nat, q: nat, rule: Rule)
    requires p != q && s.attempts == [] && s.calls == [] && InPhase(s, p, Checked) && InPhase(s, q, Checked)
    requires s.flows[p].action == ApplyJob == s.flows[q].action
    ensures var t := Moves(s, Calls(p) + Calls(q));
            |t.calls| == 2 && IsApplyCall(t, 0) && IsApplyCall(t, 1) && t.calls[0] != t.calls[1] && !AppliedOnce(t)
    ensures AllObey(s, Calls(p) + Calls(q), rule) <==> Obeys(s, Record(p), rule) && Obeys(s, Record(q), rule)
  {
    CallsMove(s, p, rule);
    var u := Moves(s, Calls(p));
    CallsMove(u, q, rule);
    MovesConcat(s, Calls(p), Calls(q), rule);
    hide Moves, AllObey, Calls, Live, Expired, Punctual;
    var t := Moves(u, Calls(q));
    assert IsApplyCall(t, 0) && IsApplyCall(t, 1);
  }

  /** Two nodes, the first so slow that its lease ends between its check and its attempt row. */
  function SlowStart(a: Node, b: Node): seq<SiteAction> {
    Checking(ApplyJob, 0, a) + [OnLock(Tick(180))] + Checking(ApplyJob, 1, b)
  }

  function SlowNode(a: Node, b: Node): seq<SiteAction> {
    SlowStart(a, b) + (Calls(0) + Calls(1))
  }

  /**
   * A row created after its lease ended: two applications are sent, though nodes take turns and the
   * watchdog is on time.
   */
  lemma SlowNodeAppliesTwice(a: Node, b: Node, rule: Rule)
    requires a != b
    ensures !AppliedOnce(Moves(Empty(0), SlowNode(a, b)))
    ensures AllObey(Empty(0), SlowNode(a, b), rule) <==> rule.TakesTurns? || rule.OnSchedule?
  {
    SlowStarts(a, b, rule);
    var s := Moves(Empty(0), SlowStart(a, b));
    BothApply(s, 0, 1, rule);
    MovesConcat(Empty(0), SlowStart(a, b), Calls(0) + Calls(1), rule);
    hide Moves, AllObey, Calls, SlowStart, Live, Expired, Punctual, AppliedOnce;
  }

  lemma SlowStarts(a: Node, b: Node, rule: Rule)
    requires a != b
    ensures var s := Moves(Empty(0), SlowStart(a, b));
            && s.attempts == [] && s.calls == [] && InPhase(s, 0, Checked) && InPhase(s, 1, Checked)
            && s.flows[0].action == ApplyJob == s.flows[1].action
            && s.flows[0].handle < |s.lock.handles| && Expired(s.lock, s.flows[0].handle)
            && Live(s.lock, s.flows[1].handle)
    ensures AllObey(Empty(0), SlowStart(a, b), rule)
  {
    var s0, p1, p2, p3 := Empty(0), Checking(ApplyJob, 0, a), [OnLock(Tick(180))], Checking(ApplyJob, 1, b);
    SlowLock(a, b);
    hide Moves, AllObey, Next, AcquiredRow, Live, Expired, Punctual, Checking;
    CheckingMoves(s0, 0, a, ApplyJob, rule);
    var s1 := Moves(s0, p1);
    MovesConcat(s0, p1, p2, rule);
    MovesOne(s1, OnLock(Tick(180)), rule);
    TicksObey(s1, 180, rule);
    var s2 := Move(s1, OnLock(Tick(180)));
    MovesConcat(s0, p1 + p2, p3, rule);
    CheckingMoves(s2, 1, b, ApplyJob, rule);
  }

  lemma TicksObey(s: Site, elapsed: nat, rule: Rule)
    ensures Obeys(s, OnLock(Tick(elapsed)), rule)
  {
  }

  lemma SlowLock(a: Node, b: Node)
    requires a != b
    ensures AcquiredRow(None, 0, a, 180).Ok?
    ensures var h := Next(Next(Start(0), Acquire(a, 180)), Tick(180));
            && |h.handles| == 1 && AcquiredRow(h.row, h.now, b, 180).Ok?
            && var t := Next(h, Acquire(b, 180));
               |t.handles| == 2 && Expired(t, 0) && Live(t, 1)
  {
    var h := Next(Next(Start(0), Acquire(a, 180)), Tick(180));
    assert h == History(180, Some(LockRow(a, 180, 1)), 1, [Handle(a, 1, 1, 180, false)], {});
    assert Next(h, Acquire(b, 180)).handles == [Handle(a, 1, 1, 180, false), Handle(b, 2, 1, 360, false)];
  }

  /** Two processes under one node: the lock lets the second in while the first is still at work. */
  function SharedStart(a: Node): seq<SiteAction> {
    Checking(ApplyJob, 0, a) + Checking(ApplyJob, 1, a)
  }

  function SharedNode(a: Node): seq<SiteAction> {
    SharedStart(a) + (Calls(0) + Calls(1))
  }

  /** With equal node identifiers two applications are sent, though every row is in time and the watchdog too. */
  lemma SharedNodeAppliesTwice(a: Node, rule: Rule)
    ensures !AppliedOnce(Moves(Empty(0), SharedNode(a)))
    ensures AllObey(Empty(0), SharedNode(a), rule) <==> rule.InTime? || rule.OnSchedule?
  {
    SharedStarts(a, rule);
    var s := Moves(Empty(0), SharedStart(a));
    BothApply(s, 0, 1, rule);
    MovesConcat(Empty(0), SharedStart(a), Calls(0) + Calls(1), rule);
    hide Moves, AllObey, Calls, SharedStart, Live, Expired, Punctual, AppliedOnce;
  }

  lemma SharedStarts(a: Node, rule: Rule)
    ensures var s := Moves(Empty(0), SharedStart(a));
            && s.attempts == [] && s.calls == [] && InPhase(s, 0, Checked) && InPhase(s, 1, Checked)
            && s.flows[0].action == ApplyJob == s.flows[1].action
            && s.flows[0].handle < |s.lock.handles| && s.flows[1].handle < |s.lock.handles|
            && !Expired(s.lock, s.flows[0].handle) && !Expired(s.lock, s.flows[1].handle)
            && !Live(s.lock, s.flows[0].handle)
    ensures AllObey(Empty(0), SharedStart(a), rule) <==> !rule.TakesTurns?
  {
    var s0, p1, p2 := Empty(0), Checking(ApplyJob, 0, a), Checking(ApplyJob, 1, a);
    CheckingMoves(s0, 0, a, ApplyJob, rule);
    var s1 := Moves(s0, p1);
    hide Moves, AllObey;
    assert s1.lock == History(0, Some(LockRow(a, 180, 1)), 1, [Handle(a, 1, 1, 180, false)], {});
    assert s1.flows[0].node == a;
    MovesConcat(s0, p1, p2, rule);
    CheckingMoves(s1, 1, a, ApplyJob, rule);
    assert Moves(s1, p2).lock.handles == [Handle(a, 1, 1, 180, false), Handle(a, 2, 1, 180, false)];
  }

  /** The watchdog selects an expired lease of `a` and deletes the row when `b` holds it; then `c` gets in. */
  function LateStart(a: Node, b: Node, c: Node): seq<SiteAction> {
    LateDeletion(a, b) + Checking(ApplyJob, 1, c)
  }

  function LateDeletion(a: Node, b: Node): seq<SiteAction> {
    [OnLock(Acquire(a, 10)), OnLock(Tick(11))] + [OnLock(Select)] + Checking(ApplyJob, 0, b)
    + [OnLock(DeleteSelected(1))]
  }

  function LateWatchdog(a: Node, b: Node, c: Node): seq<SiteAction> {
    LateStart(a, b, c) + (Calls(0) + Calls(1))
  }

  /** A late watchdog: two applications under live handles of different nodes, every row in time. */
  lemma LateWatchdogAppliesTwice(a: Node, b: Node, c: Node, rule: Rule)
    requires a != b && b != c
    ensures !AppliedOnce(Moves(Empty(0), LateWatchdog(a, b, c)))
    ensures AllObey(Empty(0), LateWatchdog(a, b, c), rule) <==> !rule.OnSchedule?
  {
    LateStarts(a, b, c, rule);
    var s := Moves(Empty(0), LateStart(a, b, c));
    BothApply(s, 0, 1, rule);
    MovesConcat(Empty(0), LateStart(a, b, c), Calls(0) + Calls(1), rule);
    hide Moves, AllObey, Calls, LateStart, Live, Expired, Punctual, AppliedOnce;
  }

  lemma LateStarts(a: Node, b: Node, c: Node, rule: Rule)
    requires a != b && b != c
    ensures var s := Moves(Empty(0), LateStart(a, b, c));
            && s.attempts == [] && s.calls == [] && InPhase(s, 0, Checked) && InPhase(s, 1, Checked)
            && s.flows[0].action == ApplyJob == s.flows[1].action
            && Live(s.lock, s.flows[0].handle) && Live(s.lock, s.flows[1].handle)
    ensures AllObey(Empty(0), LateStart(a, b, c), rule) <==> !rule.OnSchedule?
  {
    LateDeletes(a, b, rule);
    LateLock(a, b, c);
    hide Moves, AllObey, Next, AcquiredRow, Live, Expired, Checking, LateDeletion, SelectedLock, Punctual;
    MovesConcat(Empty(0), LateDeletion(a, b), Checking(ApplyJob, 1, c), rule);
    CheckingMoves(Moves(Empty(0), LateDeletion(a, b)), 1, c, ApplyJob, rule);
  }

  function SelectedLock(a: Node): History {
    History(11, Some(LockRow(a, 10, 1)), 1, [Handle(a, 1, 1, 10, false)], {1})
  }

  lemma LateDeletes(a: Node, b: Node, rule: Rule)
    requires a != b
    ensures var s := Moves(Empty(0), LateDeletion(a, b));
            && s.lock == Next(Next(SelectedLock(a), Acquire(b, ACQUISITION_LEASE)), DeleteSelected(1))
            && s.attempts == [] && s.calls == [] && s.flows == map[0 := Flow(b, ApplyJob, 1, Checked)]
    ensures AllObey(Empty(0), LateDeletion(a, b), rule) <==> !rule.OnSchedule?
  {
    var s0, s2 := Empty(0), Empty(0).(lock := SelectedLock(a));
    var p1, p2, p3 := [OnLock(Acquire(a, 10)), OnLock(Tick(11))], [OnLock(Select)], Checking(ApplyJob, 0, b);
    SelectedStart(a, rule);
    LateLock(a, b, a);
    hide Moves, AllObey, Next, AcquiredRow, Live, Expired, Checking;
    MovesConcat(s0, p1 + p2, p3, rule);
    CheckingMoves(s2, 0, b, ApplyJob, rule);
    var s3 := Moves(s2, p3);
    MovesConcat(s0, p1 + p2 + p3, [OnLock(DeleteSelected(1))], rule);
    MovesOne(s3, OnLock(DeleteSelected(1)), rule);
    DeletionObeys(s3, 1, rule);
    hide Punctual;
  }

  lemma DeletionObeys(s: Site, life: nat, rule: Rule)
    ensures Obeys(s, OnLock(DeleteSelected(life)), rule) <==>
              (rule.OnSchedule? ==> Punctual(s.lock, DeleteSelected(life)))
  {
  }

  lemma LateLock(a: Node, b: Node, c: Node)
    requires a != b && b != c
    ensures var h := SelectedLock(a);
            && AcquiredRow(h.row, 11, b, 180).Ok?
            && var t := Next(h, Acquire(b, 180));
               && |t.handles| == 2 && !Punctual(t, DeleteSelected(1))
               && var d := Next(t, DeleteSelected(1));
                  && |d.handles| == 2 && AcquiredRow(d.row, d.now, c, 180).Ok?
                  && Live(Next(d, Acquire(c, 180)), 1) && Live(Next(d, Acquire(c, 180)), 2)
  {
    var h := SelectedLock(a);
    var t := Next(h, Acquire(b, 180));
    assert t == History(11, Some(LockRow(b, 191, 2)), 1,
                        [Handle(a, 1, 1, 10, false), Handle(b, 2, 1, 191, false)], {1});
    var d := Next(t, DeleteSelected(1));
    assert d == t.(row := None, selected := {});
    assert Next(d, Acquire(c, 180)).handles ==
             [Handle(a, 1, 1, 10, false), Handle(b, 2, 1, 191, false), Handle(c, 1, 2, 191, false)];
  }

  lemma SelectedStart(a: Node, rule: Rule)
    ensures var p := [OnLock(Acquire(a, 10)), OnLock(Tick(11))] + [OnLock(Select)];
            && Moves(Empty(0), p) == Empty(0).(lock := SelectedLock(a))
            && AllObey(Empty(0), p, rule)
  {
    var s0, p1 := Empty(0), [OnLock(Acquire(a, 10)), OnLock(Tick(11))];
    MovesTwo(s0, OnLock(Acquire(a, 10)), OnLock(Tick(11)), rule);
    var s1 := Move(Move(s0, OnLock(Acquire(a, 10))), OnLock(Tick(11)));
    MovesConcat(s0, p1, [OnLock(Select)], rule);
    MovesOne(s1, OnLock(Select), rule);
    hide Moves, AllObey;
    assert s1.lock == History(11, Some(LockRow(a, 10, 1)), 1, [Handle(a, 1, 1, 10, false)], {});
  }

  // ---------------------------------------------------------------- single flows

  function Answered(p: nat, ok: bool): seq<SiteAction> {
    [ReturnRemote(p, ok), EndFlow(p)]
  }

  /** The actions of one process that nothing disturbs. */
  function WholeFlow(p: nat, node: Node, action: ActionKind, ok: bool): seq<SiteAction> {
    Checking(action, p, node) + Calls(p) + Answered(p, ok)
  }

  /** Run without interference, the interleaved flow leaves what the single call leaves. */
  lemma UndisturbedFlow(s: Site, p: nat, node: Node, action: ActionKind, ok: bool, rule: Rule)
    requires p !in s.flows && AcquiredRow(s.lock.row, s.lock.now, node, ACQUISITION_LEASE).Ok?
    requires !Blocked(s.attempts, action)
    ensures var t := Moves(s, WholeFlow(p, node, action, ok));
            && t.attempts == s.attempts + [Attempt(action, StatusAfter(action, ok))]
            && t.calls == s.calls + [|s.attempts|] && t.flows == s.flows
            && t.lock.row == None && t.lock.now == s.lock.now
    ensures AllObey(s, WholeFlow(p, node, action, ok), rule) <==> (rule.TakesTurns? ==> Absent(s, node))
  {
    var p1, p2, p3 := Checking(action, p, node), Calls(p), Answered(p, ok);
    CheckingMoves(s, p, node, action, rule);
    var s1 := Moves(s, p1);
    CallsMove(s1, p, rule);
    var s2 := Moves(s1, p2);
    MovesConcat(s, p1, p2, rule);
    MovesConcat(s, p1 + p2, p3, rule);
    MovesTwo(s2, ReturnRemote(p, ok), EndFlow(p), rule);
    hide Moves, Checking, Calls, AllObey, StatusAfter, Blocked;
    RecordsLive(s, s1, p, node, action, rule);
    EndsFlow(s, s2, p, node, action, ok);
  }

  lemma RecordsLive(s: Site, s1: Site, p: nat, node: Node, action: ActionKind, rule: Rule)
    requires AcquiredRow(s.lock.row, s.lock.now, node, ACQUISITION_LEASE).Ok?
    requires s1 == s.(lock := Next(s.lock, Acquire(node, ACQUISITION_LEASE)),
                      flows := s.flows[p := Flow(node, action, |s.lock.handles|, Checked)])
    ensures Obeys(s1, Record(p), rule)
  {
  }

  lemma EndsFlow(s: Site, u: Site, p: nat, node: Node, action: ActionKind, ok: bool)
    requires p !in s.flows && AcquiredRow(s.lock.row, s.lock.now, node, ACQUISITION_LEASE).Ok?
    requires u.lock == Next(s.lock, Acquire(node, ACQUISITION_LEASE))
    requires u.attempts == s.attempts + [Attempt(action, Submitting)] && u.calls == s.calls + [|s.attempts|]
    requires u.flows == s.flows[p := Flow(node, action, |s.lock.handles|, Calling(|s.attempts|))]
    ensures var t := Move(Move(u, ReturnRemote(p, ok)), EndFlow(p));
            && t.attempts == s.attempts + [Attempt(action, StatusAfter(action, ok))]
            && t.calls == s.calls + [|s.attempts|] && t.flows == s.flows
            && t.lock.row == None && t.lock.now == s.lock.now
  {
    hide StatusAfter;
  }

  /**
   * A process that is turned away, by an earlier attempt or by the market's own checks, leaves no row
   * and sends nothing, and the lock is free again.
   */
  lemma WithdrawnFlow(s: Site, p: nat, node: Node, action: ActionKind)
    requires p !in s.flows && AcquiredRow(s.lock.row, s.lock.now, node, ACQUISITION_LEASE).Ok?
    ensures var t := Move(Move(Move(Move(s, BeginFlow(p, node, action)), Check(p)), GiveUp(p)), EndFlow(p));
            t.attempts == s.attempts && t.calls == s.calls && t.flows == s.flows && t.lock.row == None
  {
    hide Blocked;
    assert (s.flows[p := Flow(node, action, |s.lock.handles|, Finishing)]) - {p} == s.flows;
  }

  /** A claim whose answer is unknown does not block another: the request goes out again. */
  lemma UnknownClaimIsRepeated(a: Node, rule: Rule)
    ensures var p := WholeFlow(0, a, ClaimJob, false) + WholeFlow(1, a, ClaimJob, false);
            && Moves(Empty(0), p).calls == [0, 1]
            && Moves(Empty(0), p).attempts ==
               [Attempt(ClaimJob, UnknownRemoteState), Attempt(ClaimJob, UnknownRemoteState)]
            && AllObey(Empty(0), p, rule)
  {
    var first, second := WholeFlow(0, a, ClaimJob, false), WholeFlow(1, a, ClaimJob, false);
    UndisturbedFlow(Empty(0), 0, a, ClaimJob, false, rule);
    var s := Moves(Empty(0), first);
    hide Moves, AllObey, WholeFlow;
    assert !Blocked(s.attempts, ClaimJob);
    UndisturbedFlow(s, 1, a, ClaimJob, false, rule);
    MovesConcat(Empty(0), first, second, rule);
  }
}

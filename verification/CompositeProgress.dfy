/**
 * What one call of the composite executor does to a freshly built plan
 * (planning/services.py, lines 667-777), and how attempts and repairs are accounted when
 * one executor at a time works on a plan.
 */
module CompositeProgress {
  import opened Prelude
  import opened CompositePlan

  type World = (nat, nat) -> Outcome

  /** The positions from `a` up to but excluding `b`. */
  function Range(a: nat, b: nat): seq<nat>
    decreases b - a
  {
    if a >= b then [] else [a] + Range(a + 1, b)
  }

  // ---------------------------------------------------------------- the shape of an iteration

  /** A step that is started is the first to be repaired, or else the first that is ready. */
  lemma BeginShape(p: PlanState)
    ensures var u := Unlock(p.steps);
            match Begin(p)
            case Run(q, i) =>
              && i < |u|
              && (u[i].status == StepNeedsRepair || u[i].status == StepReady)
              && (u[i].status == StepNeedsRepair ==> u[i].repairAttempts < u[i].maxRepairAttempts)
              && (forall j :: 0 <= j < i ==> u[j].status != u[i].status)
              && InputsAvailable(u, i)
              && Begin(p) == Start(p.(steps := u), i, u[i].status == StepNeedsRepair)
            case Stop(q) =>
              && q.executionAttempts == p.executionAttempts && q.repairAttempts == p.repairAttempts
              && (q.status == QaPassed ==> |u| > 0 && AllPassed(u) && q.steps == u)
              && q.status in {Failed, QaPassed, Blocked}
              && (q.steps == u
                  || exists i :: 0 <= i < |u| && u[i].status == StepNeedsRepair && q.status == Blocked
                       && q.steps == u[i := u[i].(status := StepBlocked, reasons := [MaxRepairAttemptsReached])])
            case InputsError =>
              exists i :: 0 <= i < |u| && u[i].status in {StepNeedsRepair, StepReady} && !InputsAvailable(u, i)
  {
  }

  // ---------------------------------------------------------------- the first call on a fresh plan

  ghost predicate DoneRow(row: StepRow) {
    row.status == StepQaPassed && row.attempt == 1 && row.repairAttempts == 0 && row.qa == Qa(true)
  }

  ghost predicate UntouchedRow(row: StepRow) {
    && (row.status == StepReady || (row.status == StepBlocked && row.dependsOn != {}))
    && row.attempt == 0 && row.repairAttempts == 0
  }

  /** The first `k` steps have passed at their first attempt and no other step was started. */
  ghost predicate Halfway(steps: seq<StepRow>, k: nat) {
    && k <= |steps|
    && (forall i, d :: 0 <= i < |steps| && d in steps[i].dependsOn ==> d < i)
    && (forall i :: 0 <= i < k ==> DoneRow(steps[i]))
    && (forall i :: k <= i < |steps| ==> UntouchedRow(steps[i]))
  }

  lemma FreshIsHalfway(steps: seq<StepRow>)
    requires Fresh(steps)
    ensures Halfway(steps, 0)
  {
  }

  lemma UnlockHalfway(steps: seq<StepRow>, k: nat)
    requires Halfway(steps, k)
    ensures Halfway(Unlock(steps), k)
    ensures k < |steps| ==> Unlock(steps)[k].status == StepReady && InputsAvailable(Unlock(steps), k)
  {
  }

  /** The executor finds step `k` and no other: the branch that finds nothing is not taken. */
  lemma BeginHalfway(p: PlanState, k: nat)
    requires Halfway(p.steps, k)
    ensures k < |p.steps| ==> Begin(p) == Start(p.(steps := Unlock(p.steps)), k, false) && Begin(p).Run?
    ensures k == |p.steps| && k > 0 ==>
              Begin(p) == Stop(p.(status := QaPassed, reasons := [], steps := Unlock(p.steps)))
  {
    var u := Unlock(p.steps);
    UnlockHalfway(p.steps, k);
    assert FirstWith(u, StepFailed, 0) == |u|;
    assert FirstWith(u, StepNeedsRepair, 0) == |u|;
    if k < |u| {
      assert u[k].status == StepReady;
      assert !AllPassed(u);
    }
  }

  lemma FinishHalfway(p: PlanState, k: nat, o: Outcome)
    requires Halfway(p.steps, k) && k < |p.steps| && Passes(o)
    ensures Begin(p).Run? && Begin(p).index == k && k < |Begin(p).plan.steps|
    ensures Begin(p).plan.steps[k].attempt == 1
    ensures Halfway(Finish(Begin(p).plan, k, o).steps, k + 1)
  {
    BeginHalfway(p, k);
    UnlockHalfway(p.steps, k);
  }

  /**
   * How a loop ends that starts at step `k` with `left` iterations: it runs the following
   * steps once each in stored order, up to the first that does not pass, and passes the plan
   * exactly when every step passes and an iteration is left to notice it.
   */
  ghost predicate LoopEnding(p: PlanState, k: nat, left: nat, world: World, r: CallResult) {
    var n, m := |p.steps|, |r.ran|;
    && r.ran == Range(k, k + m) && k + m <= n && m <= left
    && AllFrom(k, k + m - 1, world)
    && (m < n - k && m < left ==> m > 0 && !Passes(world(k + m - 1, 1)))
    && (r.raised ==> m > 0 && world(k + m - 1, 1).Raised?)
    && r.plan.executionAttempts == p.executionAttempts + m
    && r.plan.repairAttempts == p.repairAttempts
    && (r.plan.status == QaPassed <==> left > n - k && AllFrom(k, n, world))
    && (r.plan.status == QaPassed ==> Halfway(r.plan.steps, n) && |r.plan.steps| == n)
    && (left <= n - k && AllFrom(k, k + left, world)
        ==> r.plan.status == Blocked && r.plan.reasons == [CompositeStepLimitReached]
            && Halfway(r.plan.steps, k + left) && |r.plan.steps| == n)
  }

  lemma EndingAfterPass(p: PlanState, done: PlanState, k: nat, left: nat, world: World, rest: CallResult)
    requires k < |p.steps| == |done.steps| && left > 0
    requires Passes(world(k, 1))
    requires done.executionAttempts == p.executionAttempts + 1 && done.repairAttempts == p.repairAttempts
    requires LoopEnding(done, k + 1, left - 1, world, rest)
    ensures LoopEnding(p, k, left, world, rest.(ran := [k] + rest.ran))
  {
  }

  lemma EndingAtFailure(p: PlanState, k: nat, left: nat, world: World, r: CallResult)
    requires k < |p.steps| && left > 0 && !Passes(world(k, 1))
    requires r.ran == [k] && r.raised == world(k, 1).Raised?
    requires r.plan.executionAttempts == p.executionAttempts + 1 && r.plan.repairAttempts == p.repairAttempts
    requires r.plan.status != QaPassed
    ensures LoopEnding(p, k, left, world, r)
  {
  }

  lemma {:induction false} LoopFromHalfway(p: PlanState, k: nat, left: nat, world: World)
    requires Halfway(p.steps, k) && |p.steps| > 0 && Executable(p.status)
    ensures LoopEnding(p, k, left, world, Loop(p, left, world))
    decreases left
  {
    hide *;
    HalfwayBound(p.steps, k);
    if left == 0 {
      EndingAtLimit(p, k, world);
    } else if k < |p.steps| {
      StartedOnce(p, k);
      LoopUnfolds(p, left, world, k);
      var q, o := Begin(p).plan, world(k, 1);
      if Passes(o) {
        FinishHalfway(p, k, o);
        FinishKeepsCounters(q, k, o);
        LoopFromHalfway(Finish(q, k, o), k + 1, left - 1, world);
        EndingAfterPass(p, Finish(q, k, o), k, left, world, Loop(Finish(q, k, o), left - 1, world));
      } else {
        FinishKeepsCounters(q, k, o);
        EndingAtFailure(p, k, left, world, Loop(p, left, world));
      }
    } else {
      EndingPassed(p, k, left, world);
    }
  }

  lemma HalfwayBound(steps: seq<StepRow>, k: nat)
    requires Halfway(steps, k)
    ensures k <= |steps| && Executable(Executing)
  {
  }

  lemma EndingAtLimit(p: PlanState, k: nat, world: World)
    requires Halfway(p.steps, k) && |p.steps| > 0
    ensures LoopEnding(p, k, 0, world, Loop(p, 0, world))
  {
  }

  lemma LoopUnfolds(p: PlanState, left: nat, world: World, k: nat)
    requires left > 0 && Begin(p).Run? && Begin(p).index == k && k < |Begin(p).plan.steps|
    requires Begin(p).plan.steps[k].attempt == 1
    ensures var q, o := Begin(p).plan, world(k, 1);
            if Passes(o) then
              var rest := Loop(Finish(q, k, o), left - 1, world);
              Loop(p, left, world) == rest.(ran := [k] + rest.ran)
            else Loop(p, left, world) == CallResult(Finish(q, k, o), o.Raised?, [k])
  {
    hide Begin, Finish, Passes;
  }

  lemma FinishKeepsCounters(q: PlanState, k: nat, o: Outcome)
    requires k < |q.steps|
    ensures var r := Finish(q, k, o);
            && r.executionAttempts == q.executionAttempts && r.repairAttempts == q.repairAttempts
            && |r.steps| == |q.steps|
            && (Passes(o) ==> r.status == q.status)
            && (!Passes(o) ==> r.status in {Failed, Blocked, NeedsRepair})
  {
  }

  lemma EndingPassed(p: PlanState, k: nat, left: nat, world: World)
    requires Halfway(p.steps, k) && k == |p.steps| && k > 0 && left > 0
    ensures LoopEnding(p, k, left, world, Loop(p, left, world))
  {
  }

  lemma StartedOnce(p: PlanState, k: nat)
    requires Halfway(p.steps, k) && k < |p.steps|
    ensures Begin(p).Run? && Begin(p).index == k
    ensures var q := Begin(p).plan;
            && q.executionAttempts == p.executionAttempts + 1 && q.repairAttempts == p.repairAttempts
            && |q.steps| == |p.steps| && q.steps[k].attempt == 1 && q.status == Executing
  {
    BeginHalfway(p, k);
    UnlockHalfway(p.steps, k);
  }

  ghost predicate AllFrom(a: nat, b: int, world: World) {
    forall i :: a <= i < b ==> Passes(world(i, 1))
  }

  /** In the six other states a call does nothing at all. */
  lemma CallRests(p: PlanState, maximum: nat, world: World)
    requires p.status in {Blocked, QaPassed, Submitting, SubmissionReconciliation, Submitted, Failed}
    ensures Call(p, maximum, world) == CallResult(p, false, [])
  {
  }

  /**
   * The first call on a fresh plan runs steps 0, 1, 2, ... once each and in stored order, up
   * to the first that does not pass. It ends QA_PASSED exactly when every step passes at its
   * first attempt and the iteration bound exceeds the number of steps.
   */
  lemma FirstCall(p: PlanState, maximum: nat, world: World)
    requires Fresh(p.steps) && |p.steps| > 0 && p.status in {Ready, Queued, Executing, NeedsRepair}
    ensures var r := Call(p, maximum, world);
            && r.ran == Range(0, |r.ran|) && |r.ran| <= |p.steps|
            && AllFrom(0, |r.ran| - 1, world)
            && (|r.ran| < |p.steps| && |r.ran| < maximum ==> |r.ran| > 0 && !Passes(world(|r.ran| - 1, 1)))
            && (r.raised ==> |r.ran| > 0 && world(|r.ran| - 1, 1).Raised?)
            && r.plan.executionAttempts == p.executionAttempts + |r.ran|
            && r.plan.repairAttempts == p.repairAttempts
            && (r.plan.status == QaPassed <==> |p.steps| < maximum && AllFrom(0, |p.steps|, world))
            && (r.plan.status == QaPassed ==>
                  |r.plan.steps| == |p.steps| && forall i :: 0 <= i < |p.steps| ==> DoneRow(r.plan.steps[i]))
  {
    assert Executable(p.status);
    hide Fresh, Loop, Passes, Range, DoneRow, UntouchedRow;
    FreshIsHalfway(p.steps);
    LoopFromHalfway(p, 0, maximum, world);
  }

  /**
   * The bound is off by one against the builder's: a plan with exactly as many steps as the
   * bound has every step run and passed, and is left blocked at the step limit.
   */
  lemma PlanAtTheLimitIsBlocked(p: PlanState, world: World)
    requires Fresh(p.steps) && |p.steps| > 0 && p.status in {Ready, Queued, Executing, NeedsRepair}
    requires AllFrom(0, |p.steps|, world)
    ensures var r := Call(p, |p.steps|, world);
            && r.ran == Range(0, |p.steps|) && !r.raised
            && AllPassed(r.plan.steps)
            && r.plan.status == Blocked && r.plan.reasons == [CompositeStepLimitReached]
  {
    var n := |p.steps|;
    hide Fresh, Loop, Passes, Range, UntouchedRow;
    FreshIsHalfway(p.steps);
    LoopFromHalfway(p, 0, n, world);
    var r := Call(p, n, world);
    var m := |r.ran|;
    if m < n { assert false; }
    if r.raised { RaisedDoesNotPass(world(m - 1, 1)); }
    HalfwayAllPassed(r.plan.steps, n);
  }

  lemma RaisedDoesNotPass(o: Outcome)
    requires o.Raised?
    ensures !Passes(o)
  {
  }

  lemma HalfwayAllPassed(steps: seq<StepRow>, n: nat)
    requires Halfway(steps, n) && |steps| == n
    ensures AllPassed(steps)
  {
  }

  // ---------------------------------------------------------------- repair accounting

  function SumAttempts(steps: seq<StepRow>): nat {
    if steps == [] then 0 else SumAttempts(steps[..|steps| - 1]) + steps[|steps| - 1].attempt
  }

  function SumRepairs(steps: seq<StepRow>): nat {
    if steps == [] then 0 else SumRepairs(steps[..|steps| - 1]) + steps[|steps| - 1].repairAttempts
  }

  lemma {:induction false} SumsAfterUpdate(steps: seq<StepRow>, i: nat, row: StepRow)
    requires i < |steps|
    ensures SumAttempts(steps[i := row]) == SumAttempts(steps) - steps[i].attempt + row.attempt
    ensures SumRepairs(steps[i := row]) == SumRepairs(steps) - steps[i].repairAttempts + row.repairAttempts
  {
    var n := |steps| - 1;
    if i == n {
      assert steps[i := row][..n] == steps[..n];
    } else {
      assert steps[i := row][..n] == steps[..n][i := row];
      SumsAfterUpdate(steps[..n], i, row);
    }
  }

  lemma {:induction false} SumsAfterUnlock(a: seq<StepRow>, b: seq<StepRow>)
    requires |a| == |b|
    requires forall i :: 0 <= i < |a| ==> a[i].attempt == b[i].attempt && a[i].repairAttempts == b[i].repairAttempts
    ensures SumAttempts(a) == SumAttempts(b) && SumRepairs(a) == SumRepairs(b)
  {
    if a != [] {
      SumsAfterUnlock(a[..|a| - 1], b[..|b| - 1]);
    }
  }

  /** The plan's counters exceed a baseline by exactly the sums over its steps. */
  ghost predicate Counted(p: PlanState, executions: int, repairs: int) {
    p.executionAttempts == executions + SumAttempts(p.steps) && p.repairAttempts == repairs + SumRepairs(p.steps)
  }

  lemma UnlockKeepsSums(steps: seq<StepRow>)
    ensures SumAttempts(Unlock(steps)) == SumAttempts(steps) && SumRepairs(Unlock(steps)) == SumRepairs(steps)
  {
    SumsAfterUnlock(steps, Unlock(steps));
  }

  /** Every transaction that starts or stops a step keeps the plan's counters exact. */
  lemma BeginKeepsCounted(p: PlanState, executions: int, repairs: int)
    requires Counted(p, executions, repairs)
    ensures Begin(p).Run? ==> Counted(Begin(p).plan, executions, repairs)
    ensures Begin(p).Stop? ==> Counted(Begin(p).plan, executions, repairs)
  {
    var u := Unlock(p.steps);
    BeginShape(p);
    UnlockKeepsSums(p.steps);
    hide Begin, Unlock, SumAttempts, SumRepairs;
    match Begin(p)
    case Run(q, i) =>
      SumsAfterUpdate(u, i, StartRow(u, i, u[i].status == StepNeedsRepair));
    case Stop(q) =>
      if q.steps != u {
        var i :| 0 <= i < |u| && u[i].status == StepNeedsRepair && q.status == Blocked
                 && q.steps == u[i := u[i].(status := StepBlocked, reasons := [MaxRepairAttemptsReached])];
        SumsAfterUpdate(u, i, u[i].(status := StepBlocked, reasons := [MaxRepairAttemptsReached]));
      }
    case InputsError =>
  }

  lemma FinishKeepsCounted(p: PlanState, i: nat, o: Outcome, executions: int, repairs: int)
    requires i < |p.steps| && Counted(p, executions, repairs)
    ensures Counted(Finish(p, i, o), executions, repairs)
  {
    SumsAfterUpdate(p.steps, i, FinishRow(p.steps[i], o));
  }

  /** Attempts, repairs and history agree, and repairs stay within the step's bound. */
  ghost predicate AccountedRow(row: StepRow) {
    && (row.attempt == 0 || row.attempt == 1 + row.repairAttempts)
    && (row.attempt == 0 ==> row.repairAttempts == 0)
    && row.repairAttempts <= row.maxRepairAttempts
    && |row.repairHistory| == row.repairAttempts
    && (row.status in {StepNeedsRepair, StepExecuting, StepQaPassed, StepFailed} ==> row.attempt > 0)
  }

  ghost predicate Accounted(steps: seq<StepRow>) {
    forall i :: 0 <= i < |steps| ==> AccountedRow(steps[i])
  }

  /** No attempted step is blocked or ready: an unlock cannot re-open one. */
  ghost predicate NothingToReopen(steps: seq<StepRow>) {
    forall i :: 0 <= i < |steps| ==> steps[i].status in {StepBlocked, StepReady} ==> steps[i].attempt == 0
  }

  /** What holds between the calls of a plan that is executed by one call at a time. */
  ghost predicate Sequential(p: PlanState) {
    Accounted(p.steps) && (p.status == Blocked || NothingToReopen(p.steps))
  }

  lemma FreshIsSequential(p: PlanState)
    requires Fresh(p.steps)
    ensures Sequential(p)
  {
  }

  /** Starting keeps the accounting exactly when the step is a repair or was never attempted. */
  lemma StartKeepsAccountingIff(p: PlanState)
    requires Accounted(p.steps) && Begin(p).Run?
    ensures Begin(p).index < |p.steps|
    ensures var row := Unlock(p.steps)[Begin(p).index];
            Accounted(Begin(p).plan.steps) <==> (row.status == StepNeedsRepair || row.attempt == 0)
  {
    var u := Unlock(p.steps);
    BeginShape(p);
    hide Begin, Unlockable;
    var i := Begin(p).index;
    var next := StartRow(u, i, u[i].status == StepNeedsRepair);
    assert Begin(p).plan.steps == u[i := next];
    assert AccountedRow(next) <==> (u[i].status == StepNeedsRepair || u[i].attempt == 0);
    assert forall j :: 0 <= j < |u| && j != i ==> u[i := next][j] == u[j];
    assert u[i := next][i] == next;
  }

  lemma UnlockedFromBlocked(steps: seq<StepRow>, i: nat)
    requires i < |steps|
    ensures UnlockRow(steps, i) == steps[i] || steps[i].status == StepBlocked
  {
  }

  lemma BeginKeepsSequential(p: PlanState)
    requires Accounted(p.steps) && NothingToReopen(p.steps)
    ensures Begin(p).Run? ==> Accounted(Begin(p).plan.steps) && NothingToReopen(Begin(p).plan.steps)
    ensures Begin(p).Run? ==> Begin(p).index < |Begin(p).plan.steps| && Begin(p).plan.steps[Begin(p).index].attempt > 0
    ensures Begin(p).Stop? ==> Sequential(Begin(p).plan)
  {
    var u := Unlock(p.steps);
    BeginShape(p);
    hide Begin, Unlockable;
    forall i | 0 <= i < |u|
      ensures AccountedRow(u[i]) && (u[i].status in {StepBlocked, StepReady} ==> u[i].attempt == 0)
    {
      assert u[i] == UnlockRow(p.steps, i);
      UnlockedFromBlocked(p.steps, i);
    }
  }

  lemma FinishKeepsSequential(p: PlanState, i: nat, o: Outcome)
    requires Accounted(p.steps) && NothingToReopen(p.steps) && i < |p.steps| && p.steps[i].attempt > 0
    ensures Sequential(Finish(p, i, o))
    ensures Passes(o) ==> NothingToReopen(Finish(p, i, o).steps)
  {
  }

  lemma {:induction false} LoopKeepsSequential(p: PlanState, left: nat, world: World, executions: int, repairs: int)
    requires Accounted(p.steps) && NothingToReopen(p.steps) && Counted(p, executions, repairs)
    ensures Sequential(Loop(p, left, world).plan) && Counted(Loop(p, left, world).plan, executions, repairs)
    decreases left
  {
    hide Accounted, NothingToReopen, Counted, Begin, Finish, Passes;
    if left > 0 {
      BeginKeepsSequential(p);
      BeginKeepsCounted(p, executions, repairs);
      match Begin(p)
      case Stop(q) =>
      case InputsError => SequentialIf(p);
      case Run(q, i) =>
        var o := world(i, q.steps[i].attempt);
        FinishKeepsSequential(q, i, o);
        FinishKeepsCounted(q, i, o, executions, repairs);
        if Passes(o) {
          SequentialRows(Finish(q, i, o));
          LoopKeepsSequential(Finish(q, i, o), left - 1, world, executions, repairs);
        }
    } else {
      CountedSame(p, executions, repairs);
    }
  }

  lemma SequentialIf(p: PlanState)
    requires Accounted(p.steps) && NothingToReopen(p.steps)
    ensures Sequential(p)
  {
  }

  lemma SequentialRows(p: PlanState)
    requires Sequential(p)
    ensures Accounted(p.steps)
  {
  }

  lemma CountedSame(p: PlanState, executions: int, repairs: int)
    requires Counted(p, executions, repairs)
    ensures forall s, r :: Counted(p.(status := s, reasons := r), executions, repairs)
  {
  }

  /** What can happen to a built plan between two calls. */
  datatype Event = Executes(maximum: nat, world: World) | Enqueued | AdmissionDenied | SubmissionFailed | OperatorRetry

  function After(p: PlanState, e: Event): PlanState {
    match e
    case Executes(maximum, world) => Call(p, maximum, world).plan
    case Enqueued => if p.status in {Ready, NeedsRepair} then p.(status := Queued) else p
    case AdmissionDenied => p.(status := Blocked, reasons := [OtherReason])
    case SubmissionFailed => if p.status == QaPassed then p.(status := Failed) else p
    case OperatorRetry => if p.status == Failed then p.(status := Ready, reasons := [OtherReason]) else p
  }

  /** What happens to a plan besides calls: queueing, a denied admission, a failed submission, an operator's retry. */
  lemma EventsSay(p: PlanState)
    ensures p.status == Ready || p.status == NeedsRepair ==> After(p, Enqueued) == p.(status := Queued)
    ensures p.status != Ready && p.status != NeedsRepair ==> After(p, Enqueued) == p
    ensures After(p, AdmissionDenied)
         == PlanState(Blocked, [OtherReason], p.executionAttempts, p.repairAttempts, p.steps)
    ensures After(p, SubmissionFailed) == p.(status := if p.status == QaPassed then Failed else p.status)
    ensures p.status == Failed ==>
              After(p, OperatorRetry)
              == PlanState(Ready, [OtherReason], p.executionAttempts, p.repairAttempts, p.steps)
    ensures p.status != Failed ==> After(p, OperatorRetry) == p
  {
  }

  lemma AfterOneMore(p: PlanState, events: seq<Event>, e: Event)
    ensures AfterAll(p, []) == p && AfterAll(p, events + [e]) == After(AfterAll(p, events), e)
  {
    assert (events + [e])[..|events|] == events;
  }

  function AfterAll(p: PlanState, events: seq<Event>): PlanState {
    if events == [] then p else After(AfterAll(p, events[..|events| - 1]), events[|events| - 1])
  }

  /**
   * Repair accounting over the whole life of a built plan: whatever the executions answer and
   * however often it is called, queued, denied or retried, every step has attempt = 0 or
   * attempt = 1 + repairs, at most its bound of repairs, one history entry per repair, and
   * the plan's counters have grown by exactly the sums over its steps.
   */
  lemma {:induction false} RepairAccounting(p: PlanState, events: seq<Event>)
    requires Fresh(p.steps)
    ensures var q := AfterAll(p, events);
            && Sequential(q)
            && Counted(q, p.executionAttempts, p.repairAttempts)
  {
    if events == [] {
      FreshIsSequential(p);
      FreshSums(p.steps);
    } else {
      var before, e := AfterAll(p, events[..|events| - 1]), events[|events| - 1];
      RepairAccounting(p, events[..|events| - 1]);
      hide Counted, Fresh, Loop;
      CountedSame(before, p.executionAttempts, p.repairAttempts);
      if e.Executes? && Executable(before.status) {
        LoopKeepsSequential(before, e.maximum, e.world, p.executionAttempts, p.repairAttempts);
      }
    }
  }

  lemma {:induction false} FreshSums(steps: seq<StepRow>)
    requires Fresh(steps)
    ensures SumAttempts(steps) == 0 && SumRepairs(steps) == 0
  {
    if steps != [] { FreshSums(steps[..|steps| - 1]); }
  }

  // ---------------------------------------------------------------- retrying a failed plan

  predicate HasFailedStep(steps: seq<StepRow>) {
    exists i | 0 <= i < |steps| :: steps[i].status == StepFailed
  }

  /** No call will start a step of these rows. */
  predicate Spent(steps: seq<StepRow>) {
    HasFailedStep(steps) || (steps != [] && AllPassed(steps))
  }

  lemma BeginOfSpent(p: PlanState)
    requires Spent(p.steps)
    ensures Begin(p).Stop? && Begin(p).plan.executionAttempts == p.executionAttempts && Spent(Begin(p).plan.steps)
  {
    var u := Unlock(p.steps);
    assert forall i :: 0 <= i < |u| ==> u[i] == UnlockRow(p.steps, i);
    if HasFailedStep(p.steps) {
      var i :| 0 <= i < |p.steps| && p.steps[i].status == StepFailed;
      assert u[i].status == StepFailed;
    } else {
      assert AllPassed(u);
    }
  }

  /** A call that leaves the plan failed leaves a failed step. */
  lemma {:induction false} LoopFailsWithStep(p: PlanState, left: nat, world: World)
    requires p.status != Failed
    ensures Loop(p, left, world).plan.status == Failed ==> HasFailedStep(Loop(p, left, world).plan.steps)
    decreases left
  {
    hide Unlock, HasFailedStep;
    if left > 0 {
      BeginFailsWithStep(p);
      BeginRunsARow(p);
      match Begin(p)
      case Stop(q) =>
      case InputsError =>
      case Run(q, i) =>
        var o := world(i, q.steps[i].attempt);
        FinishFailsWithStep(q, i, o);
        hide Begin, Finish;
        if Passes(o) { LoopFailsWithStep(Finish(q, i, o), left - 1, world); }
    }
  }

  lemma BeginFailsWithStep(p: PlanState)
    ensures Begin(p).Stop? && Begin(p).plan.status == Failed ==> HasFailedStep(Begin(p).plan.steps)
    ensures Begin(p).Run? ==> Begin(p).plan.status != Failed
  {
    hide Unlock;
  }

  lemma FinishFailsWithStep(p: PlanState, i: nat, o: Outcome)
    requires i < |p.steps| && p.status != Failed
    ensures Finish(p, i, o).status == Failed ==> HasFailedStep(Finish(p, i, o).steps)
    ensures Passes(o) ==> Finish(p, i, o).status != Failed
  {
    if o.Raised? { assert Finish(p, i, o).steps[i].status == StepFailed; }
  }

  /** While some step is failed, or all have passed, nothing that happens to the plan starts a step. */
  lemma {:induction false} SpentPlanNeverRuns(p: PlanState, events: seq<Event>)
    requires Spent(p.steps)
    ensures Spent(AfterAll(p, events).steps) && AfterAll(p, events).executionAttempts == p.executionAttempts
  {
    if events != [] {
      var before, e := AfterAll(p, events[..|events| - 1]), events[|events| - 1];
      SpentPlanNeverRuns(p, events[..|events| - 1]);
      BeginOfSpent(before);
      hide Spent, Begin;
      if e.Executes? { SpentLoopStops(before, e.maximum, e.world); }
    }
  }

  lemma SpentLoopStops(p: PlanState, maximum: nat, world: World)
    requires Spent(p.steps)
    ensures var r := Loop(p, maximum, world);
            r.ran == [] && Spent(r.plan.steps) && r.plan.executionAttempts == p.executionAttempts
  {
    BeginOfSpent(p);
    hide Spent, Begin;
  }

  /**
   * While a step is failed, whatever the other rows are: retrying the plan as an operator executes
   * nothing and fails it again, and no later event executes anything either.
   */
  lemma RetryOfFailedStepRunsNothing(p: PlanState, maximum: nat, world: World, later: seq<Event>)
    requires p.status == Failed && maximum > 0 && HasFailedStep(p.steps)
    ensures var r := Call(After(p, OperatorRetry), maximum, world);
            && r.ran == [] && r.plan.status == Failed
            && AfterAll(r.plan, later).executionAttempts == p.executionAttempts
  {
    var i :| 0 <= i < |p.steps| && p.steps[i].status == StepFailed;
    assert Unlock(p.steps)[i] == p.steps[i];
    SpentPlanNeverRuns(Call(After(p, OperatorRetry), maximum, world).plan, later);
  }

  /** In the life of a built plan, FAILED means a failed step, or a submission that failed after all steps passed. */
  lemma {:induction false} FailedPlanIsSpent(p: PlanState, events: seq<Event>)
    requires Fresh(p.steps) && !(p.status in {Failed, QaPassed})
    ensures var q := AfterAll(p, events);
            && (q.status == Failed ==> Spent(q.steps))
            && (q.status == QaPassed ==> q.steps != [] && AllPassed(q.steps))
  {
    if events != [] {
      var before, e := AfterAll(p, events[..|events| - 1]), events[|events| - 1];
      FailedPlanIsSpent(p, events[..|events| - 1]);
      hide Loop, HasFailedStep, AllPassed;
      if e.Executes? && Executable(before.status) {
        LoopFailsWithStep(before, e.maximum, e.world);
        LoopPassesAll(before, e.maximum, e.world);
      }
    }
  }

  predicate PassedWhole(p: PlanState) {
    p.status == QaPassed ==> p.steps != [] && AllPassed(p.steps)
  }

  lemma {:induction false} LoopPassesAll(p: PlanState, left: nat, world: World)
    requires p.status != QaPassed
    ensures PassedWhole(Loop(p, left, world).plan)
    decreases left
  {
    hide AllPassed;
    NotPassedIsWhole(p);
    if left > 0 {
      BeginPassesAll(p);
      BeginRunsARow(p);
      hide Begin, PassedWhole;
      match Begin(p)
      case Stop(q) =>
      case InputsError =>
      case Run(q, i) =>
        var o := world(i, q.steps[i].attempt);
        FinishPassesNone(q, i, o);
        hide Finish, Passes;
        if Passes(o) { LoopPassesAll(Finish(q, i, o), left - 1, world); }
    }
  }

  lemma BeginPassesAll(p: PlanState)
    ensures Begin(p).Stop? ==> PassedWhole(Begin(p).plan)
    ensures Begin(p).Run? ==> Begin(p).plan.status == Executing
  {
    BeginShape(p);
    hide Begin, Unlock, AllPassed;
  }

  lemma FinishPassesNone(p: PlanState, i: nat, o: Outcome)
    requires i < |p.steps| && p.status != QaPassed
    ensures Finish(p, i, o).status != QaPassed && PassedWhole(Finish(p, i, o))
  {
  }

  lemma NotPassedIsWhole(p: PlanState)
    requires p.status != QaPassed
    ensures PassedWhole(p) && forall reasons :: PassedWhole(p.(status := Blocked, reasons := reasons))
  {
  }

  /**
   * With one executor the operator's retry cannot help a composite plan: once a built plan has
   * failed, no later event, retries and calls with any bound included, ever executes one of its
   * steps. Only building the plan again does.
   */
  lemma FailedPlanNeverRunsAgain(p: PlanState, events: seq<Event>, later: seq<Event>)
    requires Fresh(p.steps) && !(p.status in {Failed, QaPassed})
    requires AfterAll(p, events).status == Failed
    ensures AfterAll(AfterAll(p, events), later).executionAttempts == AfterAll(p, events).executionAttempts
  {
    FailedPlanIsSpent(p, events);
    SpentPlanNeverRuns(AfterAll(p, events), later);
  }

  /** Every fresh plan can get there: the first execution raises, and nothing ever runs again. */
  lemma FirstExecutionRaises(p: PlanState, maximum: nat, world: World, later: seq<Event>)
    requires Fresh(p.steps) && |p.steps| > 0 && p.status in {Ready, Queued, Executing, NeedsRepair}
    requires maximum > 0 && world(0, 1).Raised?
    ensures var q := After(p, Executes(maximum, world));
            && q.status == Failed && q.executionAttempts == p.executionAttempts + 1
            && After(q, OperatorRetry).status == Ready
            && AfterAll(q, [OperatorRetry] + later).executionAttempts == q.executionAttempts
  {
    FreshIsHalfway(p.steps);
    hide Fresh, UntouchedRow, DoneRow;
    StartedOnce(p, 0);
    var q := After(p, Executes(maximum, world));
    FinishFailsWithStep(Begin(p).plan, 0, world(0, 1));
    SpentPlanNeverRuns(q, [OperatorRetry] + later);
  }

  /** A row that is ready, or that the next unlock readies. */
  predicate ReadySoon(steps: seq<StepRow>, i: nat)
    requires i < |steps|
  {
    steps[i].status == StepReady || Unlockable(steps, i)
  }

  /** Row `i` is the one an iteration would start: the first to repair, else the first ready. */
  ghost predicate NextToStart(steps: seq<StepRow>, i: nat) {
    && i < |steps| && !HasFailedStep(steps) && InputsAvailable(steps, i)
    && if steps[i].status == StepNeedsRepair then
         && steps[i].repairAttempts < steps[i].maxRepairAttempts
         && forall j :: 0 <= j < i ==> steps[j].status != StepNeedsRepair
       else
         && ReadySoon(steps, i)
         && (forall j :: 0 <= j < |steps| ==> steps[j].status != StepNeedsRepair)
         && (forall j :: 0 <= j < i ==> !ReadySoon(steps, j))
  }

  lemma UnlockedStatus(steps: seq<StepRow>, i: nat)
    requires i < |steps|
    ensures Unlock(steps)[i].status == if ReadySoon(steps, i) then StepReady else steps[i].status
    ensures InputsAvailable(Unlock(steps), i) == InputsAvailable(steps, i)
    ensures Unlock(steps)[i].repairAttempts == steps[i].repairAttempts
              && Unlock(steps)[i].maxRepairAttempts == steps[i].maxRepairAttempts
  {
    var u := Unlock(steps);
    assert u[i].dependsOn == steps[i].dependsOn;
    forall d: nat ensures StepPassed(u, d) == StepPassed(steps, d) && (StepPassed(u, d) ==> u[d] == steps[d]) {
      if d < |steps| { assert u[d] == UnlockRow(steps, d); }
    }
  }

  /** An iteration starts row `i` exactly if it is the next to start in the rows as they were. */
  lemma BeginRunsIff(p: PlanState, i: nat)
    ensures Begin(p).Run? && Begin(p).index == i <==> NextToStart(p.steps, i)
  {
    var u := Unlock(p.steps);
    forall j: nat | j < |u|
      ensures u[j].status == (if ReadySoon(p.steps, j) then StepReady else p.steps[j].status)
      ensures InputsAvailable(u, j) == InputsAvailable(p.steps, j)
      ensures u[j].repairAttempts == p.steps[j].repairAttempts && u[j].maxRepairAttempts == p.steps[j].maxRepairAttempts
    {
      UnlockedStatus(p.steps, j);
    }
    hide Unlock, InputsAvailable, Unlockable;
    assert HasFailedStep(u) <==> HasFailedStep(p.steps);
    BeginChooses(p, i);
  }

  lemma BeginChooses(p: PlanState, i: nat)
    ensures var u := Unlock(p.steps);
            Begin(p).Run? && Begin(p).index == i <==>
              && i < |u| && !HasFailedStep(u) && InputsAvailable(u, i)
              && if u[i].status == StepNeedsRepair then
                   && u[i].repairAttempts < u[i].maxRepairAttempts
                   && forall j :: 0 <= j < i ==> u[j].status != StepNeedsRepair
                 else
                   && u[i].status == StepReady
                   && (forall j :: 0 <= j < |u| ==> u[j].status != StepNeedsRepair)
                   && (forall j :: 0 <= j < i ==> u[j].status != StepReady)
  {
    hide InputsAvailable, Unlock;
  }

  /**
   * When retrying a failed plan does start a step: exactly if the bound is positive and the rows,
   * as the failure left them, have a next one to start; and it starts that one.
   */
  lemma RetryStartsIff(p: PlanState, maximum: nat, world: World)
    requires p.status == Failed
    ensures var r := Call(After(p, OperatorRetry), maximum, world);
            && (r.ran != [] <==> maximum > 0 && exists i: nat :: NextToStart(p.steps, i))
            && (r.ran != [] ==> NextToStart(p.steps, r.ran[0]))
  {
    var q := After(p, OperatorRetry);
    hide NextToStart, Begin, Finish, Passes;
    BeginRunsARow(q);
    forall i: nat ensures Begin(q).Run? && Begin(q).index == i <==> NextToStart(p.steps, i) { BeginRunsIff(q, i); }
    if maximum > 0 && Begin(q).Run? { assert NextToStart(p.steps, Begin(q).index); }
  }
}

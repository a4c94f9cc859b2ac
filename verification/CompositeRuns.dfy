/**
 * Any number of executors and submission tasks working on one composite plan at once, interleaved
 * with queueing, re-planning, operator retries, new inputs and crashes (planning/services.py,
 * lines 132-136 and 467-941; planning/retry.py, lines 37-63) and with the owner's review of an
 * execution (control/management/commands/review_execution_acceptance.py, lines 57-107), which
 * marks the plan as passed without looking at its steps. Every database transaction is one step; a
 * submission task reads the plan in one step and writes it in another.
 */
module CompositeRuns {
  import opened Prelude
  import opened CompositePlan
  import opened CompositeProgress

  /** Where one executor is: outside the loop, between iterations, or waiting for an execution. */
  datatype Executor = Looping(left: nat) | InFlight(left: nat, build: nat, index: nat)

  /**
   * `build` counts the plans built so far; the baselines are the counters at the last build;
   * `submitters` are the submission tasks that have read the plan and not written it yet.
   */
  datatype System = System(
    plan: PlanState,
    build: nat,
    executors: map<nat, Executor>,
    submitters: set<nat>,
    baseExecutions: nat,
    baseRepairs: nat)

  datatype Action =
    | Enter(e: nat, maximum: nat)
    | BeginStep(e: nat)
    | FinishStep(e: nat, outcome: Outcome)
    | Crash(e: nat)
    | Replan(rows: seq<StepRow>)
    | Enqueue
    | DenyAdmission
    | Retry
    | InputsChanged
    | QueueSubmission
    | ReadForSubmission(t: nat)
    | WriteSubmission(t: nat, result: PlanStatus)
    | CrashSubmission(t: nat)
    | Reconcile
    | OwnerReview(ready: bool)   // whether the evaluation under the owner's verdict is ready

  function WithoutExecutor(s: System, e: nat): System {
    s.(executors := s.executors - {e})
  }

  function WithExecutor(s: System, e: nat, x: Executor): System {
    s.(executors := s.executors[e := x])
  }

  function BeginAction(s: System, e: nat, left: nat): System {
    if left == 0 then WithoutExecutor(s, e).(plan := s.plan.(status := Blocked, reasons := [CompositeStepLimitReached]))
    else
      match Begin(s.plan)
      case Stop(q) => WithoutExecutor(s, e).(plan := q)
      case InputsError => WithoutExecutor(s, e)
      case Run(q, i) => WithExecutor(s, e, InFlight(left - 1, s.build, i)).(plan := q)
  }

  /** When the plan was rebuilt meanwhile the step row is gone: only an exception still marks the plan. */
  function FinishAction(s: System, e: nat, x: Executor, o: Outcome): System
    requires x.InFlight?
  {
    if x.build == s.build && x.index < |s.plan.steps| then
      var plan := Finish(s.plan, x.index, o);
      if Passes(o) then WithExecutor(s, e, Looping(x.left)).(plan := plan)
      else WithoutExecutor(s, e).(plan := plan)
    else if o.Raised? then WithoutExecutor(s, e).(plan := s.plan.(status := Failed, reasons := [OtherReason]))
    else WithoutExecutor(s, e)
  }

  /** One step of the system; an action that is not enabled changes nothing. */
  ghost function Step(s: System, a: Action): System {
    var status := s.plan.status;
    match a
    case Enter(e, maximum) =>
      if e !in s.executors && Executable(status) then WithExecutor(s, e, Looping(maximum)) else s
    case BeginStep(e) =>
      if e in s.executors && s.executors[e].Looping? then BeginAction(s, e, s.executors[e].left) else s
    case FinishStep(e, o) =>
      if e in s.executors && s.executors[e].InFlight? then FinishAction(s, e, s.executors[e], o) else s
    case Crash(e) => WithoutExecutor(s, e)
    case Replan(rows) =>
      if status in {Blocked, Ready, NeedsRepair} && Fresh(rows) then
        s.(plan := s.plan.(status := if rows == [] then Blocked else Ready, reasons := [], steps := rows),
           build := s.build + 1,
           baseExecutions := s.plan.executionAttempts, baseRepairs := s.plan.repairAttempts)
      else s
    case Enqueue => if status in {Ready, NeedsRepair} then s.(plan := s.plan.(status := Queued)) else s
    case DenyAdmission => s.(plan := s.plan.(status := Blocked, reasons := [OtherReason]))
    case Retry => if status == Failed then s.(plan := s.plan.(status := Ready, reasons := [OtherReason])) else s
    case QueueSubmission => if status == QaPassed then s.(plan := s.plan.(status := Submitting)) else s
    case InputsChanged =>
      if status in {Failed, Blocked} then s.(plan := s.plan.(status := Blocked, reasons := [OtherReason])) else s
    case ReadForSubmission(t) =>
      if status in {QaPassed, Submitting} then s.(submitters := s.submitters + {t}) else s
    case WriteSubmission(t, result) =>
      if t in s.submitters && result in {Submitted, SubmissionReconciliation, Failed, Blocked} then
        s.(plan := s.plan.(status := result, reasons := if result == Blocked then [OtherReason] else s.plan.reasons),
           submitters := s.submitters - {t})
      else s
    case CrashSubmission(t) => s.(submitters := s.submitters - {t})
    case Reconcile => if status == SubmissionReconciliation then s.(plan := s.plan.(status := Submitted)) else s
    case OwnerReview(ready) =>
      if ready && s.plan.executionAttempts > 0 then s.(plan := s.plan.(status := QaPassed, reasons := [])) else s
  }

  /** Executors: who enters, what running out of iterations leaves, and what an answer to an earlier build writes. */
  lemma ExecutorsSay(s: System, e: nat, maximum: nat, o: Outcome)
    ensures var enters := e !in s.executors && s.plan.status in {Ready, Queued, Executing, NeedsRepair};
            Step(s, Enter(e, maximum)) == if enters then s.(executors := s.executors[e := Looping(maximum)]) else s
    ensures e in s.executors && s.executors[e] == Looping(0) ==>
              Step(s, BeginStep(e))
              == s.(executors := s.executors - {e},
                    plan := s.plan.(status := Blocked, reasons := [CompositeStepLimitReached]))
    ensures e in s.executors && s.executors[e].InFlight? && s.executors[e].build != s.build ==>
              Step(s, FinishStep(e, o))
              == s.(executors := s.executors - {e},
                    plan := if o == Raised then s.plan.(status := Failed, reasons := [OtherReason]) else s.plan)
    ensures Step(s, Crash(e)) == s.(executors := s.executors - {e})
  {
    hide Begin, Finish;
  }

  /** The plan around them: building it again, queueing, retrying, new inputs and a denied admission. */
  lemma PlanningSays(s: System, rows: seq<StepRow>)
    ensures var t := Step(s, Replan(rows));
            if s.plan.status in {Blocked, Ready, NeedsRepair} && Fresh(rows)
            then
              && t.build - s.build == 1 && t.executors == s.executors && t.submitters == s.submitters
              && t.plan.steps == rows && t.plan.reasons == []
              && (t.plan.status == Ready <==> |rows| > 0) && (t.plan.status == Blocked <==> |rows| == 0)
              && t.plan.executionAttempts == s.plan.executionAttempts == t.baseExecutions
              && t.plan.repairAttempts == s.plan.repairAttempts == t.baseRepairs
            else t == s
    ensures s.plan.status in {Ready, NeedsRepair} ==> Step(s, Enqueue) == s.(plan := s.plan.(status := Queued))
    ensures s.plan.status !in {Ready, NeedsRepair} ==> Step(s, Enqueue) == s
    ensures s.plan.status == Failed ==> Step(s, Retry) == s.(plan := s.plan.(status := Ready, reasons := [OtherReason]))
    ensures s.plan.status != Failed ==> Step(s, Retry) == s
    ensures var blocked := s.(plan := s.plan.(status := Blocked, reasons := [OtherReason]));
            && Step(s, DenyAdmission) == blocked
            && (s.plan.status in {Failed, Blocked} ==> Step(s, InputsChanged) == blocked)
            && (s.plan.status !in {Failed, Blocked} ==> Step(s, InputsChanged) == s)
  {
    hide Fresh;
  }

  /** Submission: who reads and what is written, whatever the plan has become meanwhile, and the owner's review. */
  lemma SubmissionSays(s: System, t: nat, result: PlanStatus, ready: bool)
    ensures s.plan.status == QaPassed ==> Step(s, QueueSubmission) == s.(plan := s.plan.(status := Submitting))
    ensures s.plan.status != QaPassed ==> Step(s, QueueSubmission) == s
    ensures Step(s, ReadForSubmission(t)).submitters
         == (if s.plan.status == QaPassed || s.plan.status == Submitting then s.submitters + {t} else s.submitters)
    ensures Step(s, ReadForSubmission(t)) == s.(submitters := Step(s, ReadForSubmission(t)).submitters)
    ensures var u := Step(s, WriteSubmission(t, result));
            if t in s.submitters && result in {Submitted, SubmissionReconciliation, Failed, Blocked}
            then
              && u.plan.status == result && u.plan.steps == s.plan.steps && u.submitters == s.submitters - {t}
              && u.plan.reasons == (if result == Blocked then [OtherReason] else s.plan.reasons)
              && u.executors == s.executors && u.build == s.build
            else u == s
    ensures Step(s, CrashSubmission(t)) == s.(submitters := s.submitters - {t})
    ensures s.plan.status == SubmissionReconciliation ==> Step(s, Reconcile) == s.(plan := s.plan.(status := Submitted))
    ensures s.plan.status != SubmissionReconciliation ==> Step(s, Reconcile) == s
    ensures ready && s.plan.executionAttempts > 0 ==>
              Step(s, OwnerReview(ready)) == s.(plan := s.plan.(status := QaPassed, reasons := []))
    ensures !ready || s.plan.executionAttempts == 0 ==> Step(s, OwnerReview(ready)) == s
  {
  }

  ghost function Run(s: System, actions: seq<Action>): System {
    if actions == [] then s else Step(Run(s, actions[..|actions| - 1]), actions[|actions| - 1])
  }

  /** A plan just built, nobody executing. */
  ghost predicate Initial(s: System) {
    && Fresh(s.plan.steps) && s.executors == map[] && s.submitters == {} && s.plan.status in {Ready, Blocked}
    && s.baseExecutions == s.plan.executionAttempts && s.baseRepairs == s.plan.repairAttempts
  }

  // ---------------------------------------------------------------- row safety

  ghost predicate Touched(row: StepRow) {
    row.attempt > 0 || row.status != StepBlocked
  }

  ghost predicate RowSafe(steps: seq<StepRow>, i: nat)
    requires i < |steps|
  {
    var row := steps[i];
    && (forall d :: d in row.dependsOn ==> d < i)
    && (Touched(row) ==> InputsAvailable(steps, i))
    && (row.status == StepQaPassed ==> row.qa == Qa(true))
    && (row.attempt > 0 ==> row.inputArtifacts == UpstreamArtifacts(steps, row.dependsOn))
    && (row.status in {StepExecuting, StepNeedsRepair, StepQaPassed, StepFailed} ==> row.attempt > 0)
    && row.attempt >= row.repairAttempts + (if row.attempt > 0 then 1 else 0)
    && row.repairAttempts <= row.maxRepairAttempts
    && |row.repairHistory| == row.repairAttempts
  }

  ghost predicate RowsSafe(steps: seq<StepRow>) {
    forall i :: 0 <= i < |steps| ==> RowSafe(steps, i)
  }

  /** Row `j` reads the same from both versions: its own content and what its dependencies produced. */
  lemma RowSafeSame(a: seq<StepRow>, b: seq<StepRow>, j: nat)
    requires |a| == |b| && j < |a| && RowSafe(a, j) && b[j] == a[j]
    requires Touched(a[j]) ==> forall d :: d in a[j].dependsOn && d < |a| ==> b[d] == a[d]
    ensures RowSafe(b, j)
  {
  }

  /** Replacing a row that has not passed leaves every other row safe. */
  lemma UpdateKeepsRowsSafe(steps: seq<StepRow>, i: nat, row: StepRow)
    requires RowsSafe(steps) && i < |steps| && steps[i].status != StepQaPassed
    requires RowSafe(steps[i := row], i)
    ensures RowsSafe(steps[i := row])
  {
    var b := steps[i := row];
    forall j | 0 <= j < |b| ensures RowSafe(b, j) {
      if j != i {
        assert RowSafe(steps, j);
        RowSafeSame(steps, b, j);
      }
    }
  }

  lemma UnlockKeepsRowsSafe(steps: seq<StepRow>)
    requires RowsSafe(steps)
    ensures RowsSafe(Unlock(steps))
  {
    var u := Unlock(steps);
    forall j | 0 <= j < |u| ensures RowSafe(u, j) {
      assert RowSafe(steps, j) && u[j] == UnlockRow(steps, j);
      UnlockedRowSafe(steps, j);
    }
  }

  lemma UnlockedRowSafe(steps: seq<StepRow>, j: nat)
    requires RowsSafe(steps) && j < |steps|
    ensures RowSafe(Unlock(steps), j)
  {
    var u := Unlock(steps);
    assert RowSafe(steps, j);
    forall d | d in steps[j].dependsOn && StepPassed(steps, d) ensures u[d] == steps[d] && u[d].qa == Qa(true) {
      assert RowSafe(steps, d);
    }
    if Touched(steps[j]) || Unlockable(steps, j) {
      assert InputsAvailable(u, j);
      assert UpstreamArtifacts(u, steps[j].dependsOn) == UpstreamArtifacts(steps, steps[j].dependsOn);
    }
  }

  lemma StartKeepsRowsSafe(steps: seq<StepRow>, i: nat, repair: bool)
    requires RowsSafe(steps) && i < |steps| && steps[i].status in {StepNeedsRepair, StepReady}
    requires repair <==> steps[i].status == StepNeedsRepair
    requires repair ==> steps[i].repairAttempts < steps[i].maxRepairAttempts
    ensures RowsSafe(steps[i := StartRow(steps, i, repair)])
  {
    var row := StartRow(steps, i, repair);
    var b := steps[i := row];
    assert RowSafe(steps, i);
    assert forall d :: d in row.dependsOn ==> b[d] == steps[d];
    assert UpstreamArtifacts(b, row.dependsOn) == UpstreamArtifacts(steps, row.dependsOn);
    UpdateKeepsRowsSafe(steps, i, row);
  }

  lemma FinishKeepsRowsSafe(steps: seq<StepRow>, i: nat, o: Outcome)
    requires RowsSafe(steps) && i < |steps| && steps[i].status == StepExecuting
    ensures RowsSafe(steps[i := FinishRow(steps[i], o)])
  {
    var row := FinishRow(steps[i], o);
    var b := steps[i := row];
    assert RowSafe(steps, i);
    assert forall d :: d in row.dependsOn ==> b[d] == steps[d];
    assert UpstreamArtifacts(b, row.dependsOn) == UpstreamArtifacts(steps, row.dependsOn);
    UpdateKeepsRowsSafe(steps, i, row);
  }

  lemma RepairLimitKeepsRowsSafe(steps: seq<StepRow>, i: nat)
    requires RowsSafe(steps) && i < |steps| && steps[i].status == StepNeedsRepair
    ensures RowsSafe(steps[i := steps[i].(status := StepBlocked, reasons := [MaxRepairAttemptsReached])])
  {
    var row := steps[i].(status := StepBlocked, reasons := [MaxRepairAttemptsReached]);
    var b := steps[i := row];
    assert RowSafe(steps, i);
    assert forall d :: d in row.dependsOn ==> b[d] == steps[d];
    assert UpstreamArtifacts(b, row.dependsOn) == UpstreamArtifacts(steps, row.dependsOn);
    UpdateKeepsRowsSafe(steps, i, row);
  }

  // ---------------------------------------------------------------- the invariant

  /** `e` is executing row `i` of the current build. */
  predicate Holds(s: System, e: nat, i: nat) {
    e in s.executors && s.executors[e].InFlight? && s.executors[e].build == s.build && s.executors[e].index == i
  }

  /** A plan in one of these states is on its way to the buyer. */
  predicate Delivering(status: PlanStatus) {
    status in {QaPassed, Submitting, SubmissionReconciliation, Submitted}
  }

  ghost predicate Owned(s: System) {
    && (forall e: nat, i: nat :: Holds(s, e, i) ==> i < |s.plan.steps| && s.plan.steps[i].status == StepExecuting)
    && (forall e: nat, f: nat, i: nat :: Holds(s, e, i) && Holds(s, f, i) ==> e == f)
    && (forall e: nat :: e in s.executors && s.executors[e].InFlight? ==> s.executors[e].build <= s.build)
  }

  ghost predicate Safe(s: System) {
    && RowsSafe(s.plan.steps)
    && Owned(s)
    && Counted(s.plan, s.baseExecutions, s.baseRepairs)
  }

  /** Only a plan whose steps have all passed is on its way to the buyer. */
  ghost predicate Whole(s: System) {
    Delivering(s.plan.status) ==> |s.plan.steps| > 0 && AllPassed(s.plan.steps)
  }

  /** The error raised when a downstream step lacks passed inputs never fires. */
  lemma InputsNeverMissing(p: PlanState)
    requires RowsSafe(p.steps)
    ensures !Begin(p).InputsError?
  {
    UnlockKeepsRowsSafe(p.steps);
    BeginShape(p);
    hide Begin, RowSafe;
    var u := Unlock(p.steps);
    forall i | 0 <= i < |u| && u[i].status in {StepNeedsRepair, StepReady} ensures InputsAvailable(u, i) {
      assert RowSafe(u, i);
      TouchedHasInputs(u, i);
    }
  }

  lemma TouchedHasInputs(steps: seq<StepRow>, i: nat)
    requires i < |steps| && RowSafe(steps, i) && Touched(steps[i])
    ensures InputsAvailable(steps, i)
  {
  }

  lemma BeginKeepsRowsSafe(p: PlanState)
    requires RowsSafe(p.steps)
    ensures Begin(p).Run? ==> RowsSafe(Begin(p).plan.steps)
    ensures Begin(p).Stop? ==> RowsSafe(Begin(p).plan.steps)
  {
    var u := Unlock(p.steps);
    UnlockKeepsRowsSafe(p.steps);
    BeginShape(p);
    hide Begin, RowsSafe, Unlock;
    match Begin(p)
    case Run(q, i) =>
      StartKeepsRowsSafe(u, i, u[i].status == StepNeedsRepair);
    case Stop(q) =>
      if q.steps != u {
        var i :| 0 <= i < |u| && u[i].status == StepNeedsRepair && q.status == Blocked
                 && q.steps == u[i := u[i].(status := StepBlocked, reasons := [MaxRepairAttemptsReached])];
        RepairLimitKeepsRowsSafe(u, i);
      }
    case InputsError =>
  }

  /** What an iteration head does to rows: passed and executing rows stay, one row may start. */
  lemma BeginKeepsOthers(p: PlanState)
    ensures Begin(p).Run? ==>
              var q, i := Begin(p).plan, Begin(p).index;
              && |q.steps| == |p.steps| && i < |p.steps| && q.steps[i].status == StepExecuting
              && p.steps[i].status !in {StepExecuting, StepQaPassed} && q.status == Executing
              && forall j :: 0 <= j < |p.steps| && p.steps[j].status in {StepExecuting, StepQaPassed} ==>
                 q.steps[j] == p.steps[j]
    ensures Begin(p).Stop? ==>
              var q := Begin(p).plan;
              && |q.steps| == |p.steps|
              && (Delivering(q.status) ==> |q.steps| > 0 && AllPassed(q.steps))
              && forall j :: 0 <= j < |p.steps| && p.steps[j].status in {StepExecuting, StepQaPassed} ==>
                 q.steps[j] == p.steps[j]
  {
    var u := Unlock(p.steps);
    assert forall j :: 0 <= j < |u| ==> u[j] == UnlockRow(p.steps, j);
    BeginShape(p);
    hide Begin, Unlock;
  }

  lemma FinishKeepsOthers(p: PlanState, i: nat, o: Outcome)
    requires i < |p.steps|
    ensures |Finish(p, i, o).steps| == |p.steps|
    ensures forall j :: 0 <= j < |p.steps| && j != i ==> Finish(p, i, o).steps[j] == p.steps[j]
    ensures Finish(p, i, o).status == p.status || !Delivering(Finish(p, i, o).status)
    ensures Finish(p, i, o).steps == p.steps[i := FinishRow(p.steps[i], o)]
  {
  }

  lemma InitialIsSafe(s: System)
    requires Initial(s)
    ensures Safe(s)
  {
    FreshSums(s.plan.steps);
  }

  lemma BeginActionKeepsSafe(s: System, e: nat, left: nat)
    requires Safe(s) && e in s.executors && s.executors[e].Looping?
    ensures Safe(BeginAction(s, e, left))
  {
    BeginKeepsRowsSafe(s.plan);
    BeginKeepsOthers(s.plan);
    BeginKeepsCounted(s.plan, s.baseExecutions, s.baseRepairs);
    CountedSame(s.plan, s.baseExecutions, s.baseRepairs);
    hide Begin, RowsSafe, AllPassed, Counted, Owned;
    BeginKeepsOwned(s, e, left);
  }

  lemma BeginKeepsOwned(s: System, e: nat, left: nat)
    requires Owned(s) && e in s.executors && s.executors[e].Looping?
    ensures Owned(BeginAction(s, e, left))
  {
    BeginKeepsOthers(s.plan);
    hide Begin;
    var t := BeginAction(s, e, left);
    forall f: nat, i: nat | Holds(t, f, i) ensures i < |t.plan.steps| && t.plan.steps[i].status == StepExecuting {
      if f != e { assert Holds(s, f, i); }
    }
    forall f: nat, g: nat, i: nat | Holds(t, f, i) && Holds(t, g, i) ensures f == g {
      if f != e { assert Holds(s, f, i); }
      if g != e { assert Holds(s, g, i); }
    }
  }

  lemma FinishActionKeepsSafe(s: System, e: nat, o: Outcome)
    requires Safe(s) && e in s.executors && s.executors[e].InFlight?
    ensures Safe(FinishAction(s, e, s.executors[e], o))
  {
    var x := s.executors[e];
    if x.build == s.build {
      assert Holds(s, e, x.index);
      FinishKeepsRowsSafe(s.plan.steps, x.index, o);
      FinishKeepsOthers(s.plan, x.index, o);
      FinishKeepsCounted(s.plan, x.index, o, s.baseExecutions, s.baseRepairs);
    }
    CountedSame(s.plan, s.baseExecutions, s.baseRepairs);
    hide Finish, RowsSafe, AllPassed, Counted, Owned;
    FinishKeepsOwned(s, e, o);
  }

  lemma NotAllPassed(steps: seq<StepRow>, i: nat)
    requires i < |steps| && steps[i].status == StepExecuting
    ensures !AllPassed(steps)
  {
  }

  lemma FinishKeepsOwned(s: System, e: nat, o: Outcome)
    requires Owned(s) && e in s.executors && s.executors[e].InFlight?
    ensures Owned(FinishAction(s, e, s.executors[e], o))
  {
    var x := s.executors[e];
    var t := FinishAction(s, e, x, o);
    if x.build == s.build {
      assert Holds(s, e, x.index);
      FinishKeepsOthers(s.plan, x.index, o);
    }
    hide Finish;
    forall f: nat, i: nat | Holds(t, f, i)
      ensures Holds(s, f, i) && i < |t.plan.steps| && t.plan.steps[i].status == StepExecuting
    {
      assert f != e && Holds(s, f, i);
    }
  }

  lemma ReplanKeepsSafe(s: System, rows: seq<StepRow>)
    requires Safe(s)
    ensures Safe(Step(s, Replan(rows)))
  {
    if Fresh(rows) { FreshSums(rows); }
  }

  lemma StepKeepsSafe(s: System, a: Action)
    requires Safe(s)
    ensures Safe(Step(s, a))
  {
    hide RowsSafe, AllPassed, BeginAction, FinishAction, Counted;
    CountedSame(s.plan, s.baseExecutions, s.baseRepairs);
    match a
    case BeginStep(e) =>
      if e in s.executors && s.executors[e].Looping? { BeginActionKeepsSafe(s, e, s.executors[e].left); }
    case FinishStep(e, o) =>
      if e in s.executors && s.executors[e].InFlight? { FinishActionKeepsSafe(s, e, o); }
    case Replan(rows) => ReplanKeepsSafe(s, rows);
    case Enter(e, maximum) => OwnedSame(s, Step(s, a), e);
    case Crash(e) => OwnedSame(s, Step(s, a), e);
    case _ =>
      OwnedSteps(s, Step(s, a));
  }

  lemma OwnedSteps(s: System, t: System)
    requires Owned(s) && t.plan.steps == s.plan.steps && t.build == s.build && t.executors == s.executors
    ensures Owned(t)
  {
    assert forall f: nat, i: nat :: Holds(t, f, i) ==> Holds(s, f, i);
  }

  lemma OwnedSame(s: System, t: System, e: nat)
    requires Owned(s) && t.plan == s.plan && t.build == s.build
    requires forall f :: f in t.executors && f != e ==> f in s.executors && t.executors[f] == s.executors[f]
    requires e in t.executors ==> t.executors[e].Looping? || (e in s.executors && t.executors[e] == s.executors[e])
    ensures Owned(t)
  {
    assert forall f: nat, i: nat :: Holds(t, f, i) ==> Holds(s, f, i);
  }

  /**
   * Dependency safety over every run, with any number of interleaved executors: a step that
   * was ever attempted or is not blocked has all its dependencies passed with a passing QA
   * row; it consumed exactly what they produced; no two executors hold one step; and the plan's
   * counters are exact.
   */
  lemma {:induction false} EveryRunIsSafe(s: System, actions: seq<Action>)
    requires Initial(s)
    ensures Safe(Run(s, actions))
    ensures !Begin(Run(s, actions).plan).InputsError?
  {
    hide Safe, Step;
    if actions == [] {
      InitialIsSafe(s);
    } else {
      EveryRunIsSafe(s, actions[..|actions| - 1]);
      StepKeepsSafe(Run(s, actions[..|actions| - 1]), actions[|actions| - 1]);
    }
    SafeRows(Run(s, actions));
    InputsNeverMissing(Run(s, actions).plan);
  }

  lemma SafeRows(s: System)
    requires Safe(s)
    ensures RowsSafe(s.plan.steps)
  {
  }

  // ---------------------------------------------------------------- delivered plans

  /** The action writes that the plan is on its way without looking at its steps. */
  predicate DeliversUnseen(s: System, a: Action) {
    || (a.OwnerReview? && a.ready && s.plan.executionAttempts > 0)
    || (a.WriteSubmission? && a.t in s.submitters && a.result in {Submitted, SubmissionReconciliation})
  }

  /** Such a write finds every step passed. */
  predicate DeliversWhole(s: System, a: Action) {
    DeliversUnseen(s, a) ==> |s.plan.steps| > 0 && AllPassed(s.plan.steps)
  }

  ghost predicate AllDeliverWhole(s: System, actions: seq<Action>) {
    actions == []
    || (AllDeliverWhole(s, actions[..|actions| - 1])
        && DeliversWhole(Run(s, actions[..|actions| - 1]), actions[|actions| - 1]))
  }

  /**
   * One step keeps delivered plans whole exactly if it is neither a review that succeeds nor a
   * submission task's late write, or finds every step passed.
   */
  lemma StepKeepsWholeIff(s: System, a: Action)
    requires Safe(s) && Whole(s)
    ensures Whole(Step(s, a)) <==> DeliversWhole(s, a)
  {
    BeginKeepsOthers(s.plan);
    hide RowsSafe, Counted, Begin, AllPassed;
    if a.FinishStep? && a.e in s.executors && s.executors[a.e].InFlight? {
      var x := s.executors[a.e];
      if x.build == s.build {
        assert Holds(s, a.e, x.index);
        FinishKeepsOthers(s.plan, x.index, a.outcome);
        NotAllPassed(s.plan.steps, x.index);
      }
    }
  }

  /**
   * A plan on its way to the buyer has only passed steps, over every run in which successful
   * reviews and the writes of submission tasks find the steps so.
   */
  lemma {:induction false} DeliveredPlansAreWhole(s: System, actions: seq<Action>)
    requires Initial(s) && AllDeliverWhole(s, actions)
    ensures Whole(Run(s, actions))
  {
    hide Safe, Whole, Step, DeliversWhole;
    if actions == [] {
      InitialIsWhole(s);
    } else {
      var before := Run(s, actions[..|actions| - 1]);
      DeliveredPlansAreWhole(s, actions[..|actions| - 1]);
      EveryRunIsSafe(s, actions[..|actions| - 1]);
      StepKeepsWholeIff(before, actions[|actions| - 1]);
    }
  }

  lemma InitialIsWhole(s: System)
    requires Initial(s)
    ensures Whole(s)
  {
  }

  /**
   * A submitted plan is not at rest: exactly which actions take it out of SUBMITTED. An executor
   * that is still in its loop does, whether it has iterations left or not, and so does a second
   * submission task that read the plan before.
   */
  lemma SubmittedIsLeftIff(s: System, a: Action)
    requires Safe(s) && Whole(s) && s.plan.status == Submitted
    ensures Step(s, a).plan.status != Submitted <==>
              || (a.BeginStep? && a.e in s.executors && s.executors[a.e].Looping?)
              || (a.FinishStep? && a.e in s.executors && s.executors[a.e].InFlight? && a.outcome.Raised?)
              || a.DenyAdmission?
              || (a.OwnerReview? && a.ready && s.plan.executionAttempts > 0)
              || (a.WriteSubmission? && a.t in s.submitters && a.result in {SubmissionReconciliation, Failed, Blocked})
    ensures a.BeginStep? && a.e in s.executors && s.executors[a.e].Looping? ==>
              Step(s, a).plan.status == if s.executors[a.e].left > 0 then QaPassed else Blocked
  {
    hide RowsSafe, Counted;
    WholeBegins(s.plan);
    hide Begin;
    if a.FinishStep? && a.e in s.executors && s.executors[a.e].InFlight? { NobodyExecutesWhole(s, a.e); }
  }

  lemma NobodyExecutesWhole(s: System, e: nat)
    requires Safe(s) && AllPassed(s.plan.steps) && e in s.executors && s.executors[e].InFlight?
    ensures s.executors[e].build != s.build
  {
    hide RowsSafe, Counted;
    var i := s.executors[e].index;
    assert !Holds(s, e, i);
  }

  lemma WholeBegins(p: PlanState)
    requires |p.steps| > 0 && AllPassed(p.steps)
    ensures Begin(p).Stop? && Begin(p).plan.status == QaPassed
  {
    assert forall i :: 0 <= i < |p.steps| ==> Unlock(p.steps)[i] == UnlockRow(p.steps, i);
  }

  // ---------------------------------------------------------------- failed plans

  /** A failed plan has a failed step, or only passed ones. */
  ghost predicate FailedIsSpent(s: System) {
    s.plan.status == Failed ==> Spent(s.plan.steps)
  }

  /** The action writes FAILED without looking at the plan's steps. */
  predicate FailsUnseen(s: System, a: Action) {
    || (a.FinishStep? && a.e in s.executors && s.executors[a.e].InFlight? && s.executors[a.e].build != s.build
        && a.outcome.Raised?)
    || (a.WriteSubmission? && a.t in s.submitters && a.result == Failed)
  }

  predicate FailsSpent(s: System, a: Action) {
    FailsUnseen(s, a) ==> Spent(s.plan.steps)
  }

  ghost predicate AllFailSpent(s: System, actions: seq<Action>) {
    actions == []
    || (AllFailSpent(s, actions[..|actions| - 1])
        && FailsSpent(Run(s, actions[..|actions| - 1]), actions[|actions| - 1]))
  }

  /**
   * One step keeps every failed plan spent exactly if it is neither the late exception of an
   * execution of an earlier build nor a failed submission, or finds the plan spent.
   */
  lemma StepKeepsFailedSpentIff(s: System, a: Action)
    requires Safe(s) && FailedIsSpent(s)
    ensures FailedIsSpent(Step(s, a)) <==> FailsSpent(s, a)
  {
    hide RowsSafe, Counted, BeginAction, FinishAction, Spent;
    match a
    case BeginStep(e) =>
      if e in s.executors && s.executors[e].Looping? { BeginActionFailsSpent(s, e, s.executors[e].left); }
    case FinishStep(e, o) =>
      if e in s.executors && s.executors[e].InFlight? { FinishActionFailsSpentIff(s, e, o); }
    case _ =>
  }

  lemma BeginActionFailsSpent(s: System, e: nat, left: nat)
    requires FailedIsSpent(s)
    ensures FailedIsSpent(BeginAction(s, e, left))
  {
    BeginFailsSpent(s.plan);
    hide Begin, Spent;
  }

  lemma FinishActionFailsSpentIff(s: System, e: nat, o: Outcome)
    requires Safe(s) && FailedIsSpent(s) && e in s.executors && s.executors[e].InFlight?
    ensures FailedIsSpent(FinishAction(s, e, s.executors[e], o)) <==> FailsSpent(s, FinishStep(e, o))
  {
    var x := s.executors[e];
    if x.build == s.build {
      assert Holds(s, e, x.index);
      FinishFailsSpent(s.plan, x.index, o);
    }
    hide RowsSafe, Counted, Finish, Spent;
  }

  lemma BeginFailsSpent(p: PlanState)
    ensures Begin(p).Stop? && Begin(p).plan.status == Failed ==> Spent(Begin(p).plan.steps)
    ensures Begin(p).Run? ==> Begin(p).plan.status == Executing
  {
  }

  lemma FinishFailsSpent(p: PlanState, i: nat, o: Outcome)
    requires i < |p.steps| && p.steps[i].status == StepExecuting && (p.status == Failed ==> Spent(p.steps))
    ensures Finish(p, i, o).status == Failed ==> Spent(Finish(p, i, o).steps)
  {
    var q := Finish(p, i, o);
    if o.Raised? {
      assert q.steps[i].status == StepFailed;
    } else if p.status == Failed {
      assert !AllPassed(p.steps);
      var j :| 0 <= j < |p.steps| && p.steps[j].status == StepFailed;
      assert q.steps[j].status == StepFailed;
    }
  }

  /** Over every run in which late exceptions and failed submissions find the plan spent. */
  lemma {:induction false} FailedPlansAreSpent(s: System, actions: seq<Action>)
    requires Initial(s) && AllFailSpent(s, actions)
    ensures FailedIsSpent(Run(s, actions))
  {
    hide Safe, FailedIsSpent, Step, FailsSpent;
    if actions == [] {
      assert FailedIsSpent(s) by { InitialIsNotFailed(s); }
    } else {
      FailedPlansAreSpent(s, actions[..|actions| - 1]);
      EveryRunIsSafe(s, actions[..|actions| - 1]);
      StepKeepsFailedSpentIff(Run(s, actions[..|actions| - 1]), actions[|actions| - 1]);
    }
  }

  lemma InitialIsNotFailed(s: System)
    requires Initial(s)
    ensures FailedIsSpent(s)
  {
  }

  /** The same build is still spent and has executed nothing more. */
  ghost predicate Rests(a: System, b: System) {
    && a.build <= b.build
    && (a.build == b.build ==> Spent(b.plan.steps) && b.plan.executionAttempts == a.plan.executionAttempts)
  }

  lemma StepKeepsSpent(s: System, a: Action)
    requires Safe(s) && Spent(s.plan.steps)
    ensures Rests(s, Step(s, a))
  {
    hide RowsSafe, Counted, BeginAction, FinishAction, Spent;
    match a
    case BeginStep(e) =>
      if e in s.executors && s.executors[e].Looping? { BeginActionKeepsSpent(s, e, s.executors[e].left); }
    case FinishStep(e, o) =>
      if e in s.executors && s.executors[e].InFlight? { FinishActionKeepsSpent(s, e, o); }
    case _ =>
  }

  lemma BeginActionKeepsSpent(s: System, e: nat, left: nat)
    requires Spent(s.plan.steps)
    ensures Rests(s, BeginAction(s, e, left))
  {
    BeginOfSpent(s.plan);
    hide Begin, Spent;
  }

  lemma FinishActionKeepsSpent(s: System, e: nat, o: Outcome)
    requires Safe(s) && Spent(s.plan.steps) && e in s.executors && s.executors[e].InFlight?
    ensures Rests(s, FinishAction(s, e, s.executors[e], o))
  {
    var x := s.executors[e];
    if x.build == s.build {
      assert Holds(s, e, x.index);
      FinishKeepsSpent(s.plan, x.index, o);
    }
    hide RowsSafe, Counted, Finish, Spent;
  }

  lemma FinishKeepsSpent(p: PlanState, i: nat, o: Outcome)
    requires i < |p.steps| && p.steps[i].status == StepExecuting && Spent(p.steps)
    ensures Spent(Finish(p, i, o).steps) && Finish(p, i, o).executionAttempts == p.executionAttempts
  {
    var j :| 0 <= j < |p.steps| && p.steps[j].status == StepFailed;
    assert Finish(p, i, o).steps[j].status == StepFailed;
  }

  /** A spent plan executes nothing in any later interleaving, retries included, until it is built again. */
  lemma {:induction false} SpentPlanRests(s: System, actions: seq<Action>)
    requires Safe(s) && Spent(s.plan.steps)
    ensures Safe(Run(s, actions)) && Rests(s, Run(s, actions))
  {
    hide Safe, Step, Spent;
    if actions != [] {
      var before := Run(s, actions[..|actions| - 1]);
      SpentPlanRests(s, actions[..|actions| - 1]);
      StepKeepsSafe(before, actions[|actions| - 1]);
      if before.build == s.build {
        StepKeepsSpent(before, actions[|actions| - 1]);
      } else {
        BuildGrows(before, actions[|actions| - 1]);
      }
    }
  }

  // ---------------------------------------------------------------- failed steps stay failed

  /** Nothing executes beside a failed step. */
  ghost predicate Frozen(a: System, b: System, i: nat) {
    && a.build <= b.build
    && (a.build == b.build ==>
          && i < |b.plan.steps| && b.plan.steps[i].status == StepFailed
          && b.plan.executionAttempts == a.plan.executionAttempts)
  }

  lemma StepKeepsFailedRow(s: System, a: Action, i: nat)
    requires Safe(s) && i < |s.plan.steps| && s.plan.steps[i].status == StepFailed
    ensures Frozen(s, Step(s, a), i)
  {
    hide RowsSafe, Counted, BeginAction, FinishAction;
    match a
    case BeginStep(e) =>
      if e in s.executors && s.executors[e].Looping? { BeginActionKeepsFailedRow(s, e, s.executors[e].left, i); }
    case FinishStep(e, o) =>
      if e in s.executors && s.executors[e].InFlight? { FinishActionKeepsFailedRow(s, e, o, i); }
    case _ =>
  }

  lemma BeginActionKeepsFailedRow(s: System, e: nat, left: nat, i: nat)
    requires i < |s.plan.steps| && s.plan.steps[i].status == StepFailed
    ensures Frozen(s, BeginAction(s, e, left), i)
  {
    BeginOfSpent(s.plan);
    FailedRowBegins(s.plan, i);
    hide Begin;
  }

  lemma FinishActionKeepsFailedRow(s: System, e: nat, o: Outcome, i: nat)
    requires Safe(s) && i < |s.plan.steps| && s.plan.steps[i].status == StepFailed
    requires e in s.executors && s.executors[e].InFlight?
    ensures Frozen(s, FinishAction(s, e, s.executors[e], o), i)
  {
    var x := s.executors[e];
    hide RowsSafe, Counted, Finish;
    if x.build == s.build {
      assert Holds(s, e, x.index);
      FinishKeepsOthers(s.plan, x.index, o);
      FinishKeepsCounters(s.plan, x.index, o);
    }
  }

  lemma FailedRowBegins(p: PlanState, i: nat)
    requires i < |p.steps| && p.steps[i].status == StepFailed
    ensures Begin(p).Stop? ==> i < |Begin(p).plan.steps| && Begin(p).plan.steps[i].status == StepFailed
  {
    BeginShape(p);
    hide Begin;
    assert Unlock(p.steps)[i] == UnlockRow(p.steps, i);
  }

  /**
   * Once a step has failed, no executor, retry, queueing or review makes any step execute until
   * the plan is built again.
   */
  lemma {:induction false} FailedStepStopsThePlan(s: System, actions: seq<Action>, i: nat)
    requires Safe(s) && i < |s.plan.steps| && s.plan.steps[i].status == StepFailed
    ensures Safe(Run(s, actions)) && Frozen(s, Run(s, actions), i)
  {
    hide Safe, Step;
    if actions != [] {
      var before := Run(s, actions[..|actions| - 1]);
      FailedStepStopsThePlan(s, actions[..|actions| - 1], i);
      StepKeepsSafe(before, actions[|actions| - 1]);
      if before.build == s.build {
        StepKeepsFailedRow(before, actions[|actions| - 1], i);
      } else {
        BuildGrows(before, actions[|actions| - 1]);
      }
    }
  }

  lemma BuildGrows(s: System, a: Action)
    ensures s.build <= Step(s, a).build
  {
    hide Begin, Finish;
  }

  // ---------------------------------------------------------------- passed steps stay passed

  ghost predicate PassedRowsKept(a: System, b: System) {
    && a.build <= b.build
    && (a.build == b.build ==>
          && |a.plan.steps| == |b.plan.steps|
          && forall i :: 0 <= i < |a.plan.steps| && a.plan.steps[i].status == StepQaPassed ==>
             b.plan.steps[i] == a.plan.steps[i])
  }

  lemma StepKeepsPassedRows(s: System, a: Action)
    requires Safe(s)
    ensures PassedRowsKept(s, Step(s, a))
  {
    BeginKeepsOthers(s.plan);
    hide Begin, Finish, RowsSafe, Counted;
    if a.FinishStep? && a.e in s.executors && s.executors[a.e].InFlight? {
      var x := s.executors[a.e];
      if x.build == s.build {
        assert Holds(s, a.e, x.index);
        FinishKeepsOthers(s.plan, x.index, a.outcome);
      }
    }
  }

  /** QA_PASSED is absorbing until the plan is rebuilt: the whole row never changes again. */
  lemma {:induction false} PassedStepsStayPassed(s: System, actions: seq<Action>)
    requires Safe(s)
    ensures Safe(Run(s, actions)) && PassedRowsKept(s, Run(s, actions))
  {
    hide Safe, Step;
    if actions != [] {
      var before := Run(s, actions[..|actions| - 1]);
      PassedStepsStayPassed(s, actions[..|actions| - 1]);
      StepKeepsSafe(before, actions[|actions| - 1]);
      StepKeepsPassedRows(before, actions[|actions| - 1]);
    }
  }

  /** While no rebuild happens, what a passed step consumed is what its dependencies still hold. */
  lemma ProvenanceIsStable(s: System, actions: seq<Action>, i: nat)
    requires Safe(s) && i < |s.plan.steps| && s.plan.steps[i].status == StepQaPassed
    requires Run(s, actions).build == s.build
    ensures var t := Run(s, actions);
            && i < |t.plan.steps| && t.plan.steps[i].status == StepQaPassed
            && t.plan.steps[i].inputArtifacts == UpstreamArtifacts(t.plan.steps, s.plan.steps[i].dependsOn)
            && UpstreamArtifacts(t.plan.steps, s.plan.steps[i].dependsOn)
               == UpstreamArtifacts(s.plan.steps, s.plan.steps[i].dependsOn)
  {
    PassedStepsStayPassed(s, actions);
    var t := Run(s, actions);
    hide Run, Owned, Counted;
    assert RowSafe(s.plan.steps, i) && RowSafe(t.plan.steps, i);
  }

  /** The first row with a status, when the rows before it have others. */
  lemma {:induction false} FirstWithIs(steps: seq<StepRow>, status: StepStatus, from: nat, i: nat)
    requires from <= i <= |steps|
    requires forall j :: from <= j < i ==> steps[j].status != status
    requires i < |steps| ==> steps[i].status == status
    ensures FirstWith(steps, status, from) == i
    decreases i - from
  {
  }

  /** Row of a plan with one root and two steps that need it; none may be repaired. */
  function ForkRow(key: string, deps: set<nat>): StepRow {
    StepRow(key, deps, if deps == {} then StepReady else StepBlocked, 0, 0, 0, [], NoQa, {}, {}, [])
  }

  /** What an execution comes back with: without an artifact it raises, and it passes only with its QA. */
  predicate Returnable(o: Outcome) {
    o.Finished? ==> o.artifacts != {} && o.qa.Qa? && (o.executionPassed ==> o.qa.passed)
  }

  ghost predicate AllReturnable(actions: seq<Action>) {
    forall a :: a in actions && a.FinishStep? ==> Returnable(a.outcome)
  }

  function Passed(artifact: int): Outcome {
    Finished(true, Qa(true), true, {artifact})
  }

  /** Deterministic QA passes, the evidence for the semantic criteria is missing. */
  function Unconvincing(artifact: int): Outcome {
    Finished(false, Qa(true), true, {artifact})
  }

  ghost function Fork(): System {
    System(PlanState(Ready, [], 0, 0, [ForkRow("a", {}), ForkRow("b", {0}), ForkRow("c", {0})]), 0, map[], {}, 0, 0)
  }

  /** Statuses and attempts of the three rows. */
  ghost predicate Shows(s: System, a: StepStatus, b: StepStatus, c: StepStatus, attemptsOfB: nat) {
    var steps := s.plan.steps;
    && |steps| == 3
    && steps[0].status == a && steps[1].status == b && steps[2].status == c
    && (a == StepQaPassed ==> steps[0].qa == Qa(true))
    && steps[0].dependsOn == {} && steps[1].dependsOn == {0} && steps[2].dependsOn == {0}
    && steps[1].attempt == attemptsOfB
    && steps[1].repairAttempts == 0 && steps[1].maxRepairAttempts == 0
  }

  /** An executor whose iteration starts row `i`, the first ready row. */
  lemma StartsReady(s: System, e: nat, left: nat, i: nat)
    requires e in s.executors && s.executors[e] == Looping(left) && left > 0
    requires var u := Unlock(s.plan.steps);
             && i < |u| && u[i].status == StepReady && InputsAvailable(u, i)
             && (forall j :: 0 <= j < |u| ==> u[j].status !in {StepFailed, StepNeedsRepair})
             && forall j :: 0 <= j < i ==> u[j].status != StepReady
    ensures var u, t := Unlock(s.plan.steps), Step(s, BeginStep(e));
            && t.executors == s.executors[e := InFlight(left - 1, s.build, i)] && t.build == s.build
            && t.plan.steps == u[i := StartRow(u, i, false)] && t.plan.status == Executing
  {
  }

  lemma StartsRoot(s: System)
    requires Shows(s, StepReady, StepBlocked, StepBlocked, 0) && s.executors == map[0 := Looping(8)] && s.build == 0
    ensures var t := Step(s, BeginStep(0));
            Shows(t, StepExecuting, StepBlocked, StepBlocked, 0) && t.executors == map[0 := InFlight(7, 0, 0)]
              && t.build == 0
  {
    assert Unlock(s.plan.steps) == s.plan.steps;
    StartsReady(s, 0, 8, 0);
    hide Step;
  }

  lemma RootPasses(s: System)
    requires Shows(s, StepExecuting, StepBlocked, StepBlocked, 0) && s.executors == map[0 := InFlight(7, 0, 0)]
               && s.build == 0
    ensures var t := Step(s, FinishStep(0, Passed(1)));
            Shows(t, StepQaPassed, StepBlocked, StepBlocked, 0) && t.executors == map[0 := Looping(7)] && t.build == 0
  {
  }

  lemma StartsSecond(s: System)
    requires Shows(s, StepQaPassed, StepBlocked, StepBlocked, 0) && s.executors == map[0 := Looping(7)] && s.build == 0
    ensures var t := Step(s, BeginStep(0));
            && Shows(t, StepQaPassed, StepExecuting, StepReady, 1)
            && t.executors == map[0 := InFlight(6, 0, 1)] && t.build == 0 && t.plan.status == Executing
  {
    var u := Unlock(s.plan.steps);
    assert u[1].status == StepReady && u[2].status == StepReady && u[0] == s.plan.steps[0];
    StartsReady(s, 0, 7, 1);
    hide Step, Unlock;
  }

  lemma StartsThird(s: System)
    requires Shows(s, StepQaPassed, StepExecuting, StepReady, 1)
    requires s.executors == map[0 := InFlight(6, 0, 1), 1 := Looping(8)] && s.build == 0
    ensures var t := Step(s, BeginStep(1));
            && Shows(t, StepQaPassed, StepExecuting, StepExecuting, 1)
            && t.executors == map[0 := InFlight(6, 0, 1), 1 := InFlight(7, 0, 2)] && t.build == 0
  {
    assert Unlock(s.plan.steps) == s.plan.steps;
    StartsReady(s, 1, 8, 2);
    hide Step;
  }

  lemma SecondFails(s: System)
    requires Shows(s, StepQaPassed, StepExecuting, StepExecuting, 1)
    requires s.executors == map[0 := InFlight(6, 0, 1), 1 := InFlight(7, 0, 2)] && s.build == 0
    ensures var t := Step(s, FinishStep(0, Unconvincing(2)));
            && Shows(t, StepQaPassed, StepNeedsRepair, StepExecuting, 1)
            && t.executors == map[1 := InFlight(7, 0, 2)] && t.build == 0 && t.plan.status == NeedsRepair
  {
  }

  lemma SecondIsBlocked(s: System)
    requires Shows(s, StepQaPassed, StepNeedsRepair, StepExecuting, 1)
    requires s.executors == map[0 := Looping(8), 1 := InFlight(7, 0, 2)] && s.build == 0
    ensures var t := Step(s, BeginStep(0));
            && Shows(t, StepQaPassed, StepBlocked, StepExecuting, 1)
            && t.executors == map[1 := InFlight(7, 0, 2)] && t.build == 0
  {
    var u := Unlock(s.plan.steps);
    assert u == s.plan.steps;
    FirstWithIs(u, StepFailed, 0, 3);
    FirstWithIs(u, StepNeedsRepair, 0, 1);
    hide FirstWith, Unlock;
  }

  lemma ThirdPasses(s: System)
    requires Shows(s, StepQaPassed, StepBlocked, StepExecuting, 1)
    requires s.executors == map[1 := InFlight(7, 0, 2)] && s.build == 0
    ensures var t := Step(s, FinishStep(1, Passed(3)));
            && Shows(t, StepQaPassed, StepBlocked, StepQaPassed, 1)
            && t.executors == map[1 := Looping(7)] && t.build == 0
  {
  }

  lemma SecondRunsAgain(s: System)
    requires Shows(s, StepQaPassed, StepBlocked, StepQaPassed, 1)
    requires s.executors == map[1 := Looping(7)] && s.build == 0
    ensures Shows(Step(s, BeginStep(1)), StepQaPassed, StepExecuting, StepQaPassed, 2)
  {
    var u := Unlock(s.plan.steps);
    assert u[1].status == StepReady && u[2] == s.plan.steps[2] && u[0] == s.plan.steps[0];
    StartsReady(s, 1, 7, 1);
    hide Step, Unlock;
  }

  // ---------------------------------------------------------------- delivered or failed wrongly

  lemma RootIsUnconvincing(s: System)
    requires Shows(s, StepExecuting, StepBlocked, StepBlocked, 0) && s.executors == map[0 := InFlight(7, 0, 0)]
    requires s.build == 0 && s.plan.executionAttempts > 0
    ensures var t := Step(s, FinishStep(0, Unconvincing(1)));
            Shows(t, StepNeedsRepair, StepBlocked, StepBlocked, 0) && t.plan.executionAttempts > 0
  {
  }

  lemma ReviewDelivers(s: System)
    requires s.plan.executionAttempts > 0
    ensures var t := Step(Step(Step(s, OwnerReview(true)), QueueSubmission), ReadForSubmission(0));
            Step(t, WriteSubmission(0, Submitted)).plan == s.plan.(status := Submitted, reasons := [])
  {
  }

  function Review(): seq<Action> {
    [Enter(0, 8), BeginStep(0), FinishStep(0, Unconvincing(1)), OwnerReview(true), QueueSubmission,
     ReadForSubmission(0), WriteSubmission(0, Submitted)]
  }

  /**
   * The first execution of a three-step plan passes QA and lacks semantic evidence; the owner's
   * review supplies it. The plan is submitted although its other two steps never ran.
   */
  lemma ReviewedPartIsSubmitted()
    ensures Initial(Fork()) && AllReturnable(Review())
    ensures var t := Run(Fork(), Review());
            t.plan.status == Submitted && Shows(t, StepNeedsRepair, StepBlocked, StepBlocked, 0) && !Whole(t)
  {
    RunsAreReturnable();
    hide Run, Fork, Step, RunOn, Executable, Shows, AllReturnable;
    ForkIsInitial();
    var a := Review();
    assert a[0..] == a && a[7..] == [];
    RunOnIsRun(Fork(), a);
    RunOnOne(Fork(), a, 0);
    Enters(Fork(), 0, 8, StepReady, StepBlocked, StepBlocked, 0);
    var s1 := Step(Fork(), Enter(0, 8));
    StartsRoot(s1);
    StartCounts(s1, 0, 8);
    RunOnOne(s1, a, 1);
    var s2 := Step(s1, BeginStep(0));
    RootIsUnconvincing(s2);
    RunOnOne(s2, a, 2);
    var s3 := Step(s2, FinishStep(0, Unconvincing(1)));
    ReviewDelivers(s3);
    RunOnOne(s3, a, 3);
    var s4 := Step(s3, OwnerReview(true));
    RunOnOne(s4, a, 4);
    var s5 := Step(s4, QueueSubmission);
    RunOnOne(s5, a, 5);
    var s6 := Step(s5, ReadForSubmission(0));
    RunOnOne(s6, a, 6);
    RunOnNothing(Step(s6, WriteSubmission(0, Submitted)));
    SubmittedPart(s3, Step(s6, WriteSubmission(0, Submitted)));
  }

  lemma RunOnNothing(s: System)
    ensures RunOn(s, []) == s
  {
  }

  lemma StartCounts(s: System, e: nat, left: nat)
    requires e in s.executors && s.executors[e] == Looping(left)
    requires left > 0 && Step(s, BeginStep(e)).executors == s.executors[e := InFlight(left - 1, s.build, 0)]
    ensures Step(s, BeginStep(e)).plan.executionAttempts == s.plan.executionAttempts + 1
  {
    BeginShape(s.plan);
    hide Begin, Unlock;
  }

  lemma SubmittedPart(s: System, t: System)
    requires Shows(s, StepNeedsRepair, StepBlocked, StepBlocked, 0)
    requires t.plan == s.plan.(status := Submitted, reasons := [])
    ensures Shows(t, StepNeedsRepair, StepBlocked, StepBlocked, 0) && !Whole(t)
  {
    assert t.plan.steps[0].status != StepQaPassed;
  }

  /** A plan of two steps, the second of which needs the first. */
  function PairRows(): seq<StepRow> {
    [ForkRow("a", {}), ForkRow("b", {0})]
  }

  ghost function Pair(): System {
    System(PlanState(Ready, [], 0, 0, PairRows()), 0, map[], {}, 0, 0)
  }

  ghost predicate PairShows(s: System, a: StepStatus, b: StepStatus) {
    var steps := s.plan.steps;
    && |steps| == 2 && steps[0].status == a && steps[1].status == b
    && steps[0].dependsOn == {} && steps[1].dependsOn == {0}
    && (a == StepQaPassed ==> steps[0].qa == Qa(true))
    && s.build == 0
  }

  /** Two executors enter; one of them passes both steps, and a submission task reads the plan. */
  function BothPass(): seq<Action> {
    [Enter(0, 8), Enter(1, 8), BeginStep(0), FinishStep(0, Passed(1)), BeginStep(0), FinishStep(0, Passed(2)),
     BeginStep(0), QueueSubmission, ReadForSubmission(0)]
  }

  lemma PairEnters()
    ensures Initial(Pair())
    ensures var t := Step(Step(Pair(), Enter(0, 8)), Enter(1, 8));
            && PairShows(t, StepReady, StepBlocked) && t.executors == map[0 := Looping(8), 1 := Looping(8)]
            && t.submitters == {}
  {
  }

  lemma PairStartsFirst(s: System, e: nat)
    requires PairShows(s.(build := 0), StepReady, StepBlocked) && e in s.executors && s.executors[e] == Looping(8)
    ensures var t := Step(s, BeginStep(e));
            && PairShows(t.(build := 0), StepExecuting, StepBlocked) && t.plan.status == Executing
            && t.build == s.build && t.executors == s.executors[e := InFlight(7, s.build, 0)]
            && t.submitters == s.submitters
  {
    assert Unlock(s.plan.steps) == s.plan.steps;
    StartsReady(s, e, 8, 0);
    BeginLeavesSubmitters(s, e);
    hide Step;
  }

  lemma BeginLeavesSubmitters(s: System, e: nat)
    ensures Step(s, BeginStep(e)).submitters == s.submitters
  {
    hide Begin;
  }

  lemma PairFirstPasses(s: System)
    requires PairShows(s, StepExecuting, StepBlocked)
    requires s.executors == map[0 := InFlight(7, 0, 0), 1 := Looping(8)] && s.submitters == {}
    ensures var t := Step(s, FinishStep(0, Passed(1)));
            && PairShows(t, StepQaPassed, StepBlocked) && t.executors == map[0 := Looping(7), 1 := Looping(8)]
            && t.submitters == {}
  {
  }

  lemma PairStartsSecond(s: System)
    requires PairShows(s, StepQaPassed, StepBlocked)
    requires s.executors == map[0 := Looping(7), 1 := Looping(8)] && s.submitters == {}
    ensures var t := Step(s, BeginStep(0));
            && PairShows(t, StepQaPassed, StepExecuting)
            && t.executors == map[0 := InFlight(6, 0, 1), 1 := Looping(8)] && t.submitters == {}
  {
    var u := Unlock(s.plan.steps);
    assert u[1].status == StepReady && u[0] == s.plan.steps[0];
    StartsReady(s, 0, 7, 1);
    BeginLeavesSubmitters(s, 0);
    hide Step, Unlock;
  }

  lemma PairSecondPasses(s: System)
    requires PairShows(s, StepQaPassed, StepExecuting)
    requires s.executors == map[0 := InFlight(6, 0, 1), 1 := Looping(8)] && s.submitters == {}
    ensures var t := Step(s, FinishStep(0, Passed(2)));
            && PairShows(t, StepQaPassed, StepQaPassed) && t.executors == map[0 := Looping(6), 1 := Looping(8)]
            && t.submitters == {}
  {
  }

  lemma PairStops(s: System)
    requires PairShows(s, StepQaPassed, StepQaPassed)
    requires s.executors == map[0 := Looping(6), 1 := Looping(8)] && s.submitters == {}
    ensures var t := Step(Step(Step(s, BeginStep(0)), QueueSubmission), ReadForSubmission(0));
            && PairShows(t, StepQaPassed, StepQaPassed) && t.plan.status == Submitting
            && t.executors == map[1 := Looping(8)] && t.submitters == {0}
  {
    assert Unlock(s.plan.steps) == s.plan.steps;
    WholeBegins(s.plan);
  }

  lemma PairIsRead()
    ensures Initial(Pair()) && AllReturnable(BothPass())
    ensures var t := Run(Pair(), BothPass());
            && PairShows(t, StepQaPassed, StepQaPassed) && t.plan.status == Submitting
            && t.executors == map[1 := Looping(8)] && t.submitters == {0}
  {
    RunsAreReturnable();
    hide Run, RunOn, Step, Pair, PairShows, Initial, AllReturnable;
    var a := BothPass();
    assert a[0..] == a && a[9..] == [];
    PairEnters();
    RunOnIsRun(Pair(), a);
    RunOnOne(Pair(), a, 0);
    RunOnOne(Step(Pair(), Enter(0, 8)), a, 1);
    var s := Step(Step(Pair(), Enter(0, 8)), Enter(1, 8));
    s := PairRuns(s);
    PairStops(s);
    RunOnOne(s, a, 6);
    RunOnOne(Step(s, BeginStep(0)), a, 7);
    RunOnOne(Step(Step(s, BeginStep(0)), QueueSubmission), a, 8);
    RunOnNothing(Step(Step(Step(s, BeginStep(0)), QueueSubmission), ReadForSubmission(0)));
  }

  lemma PairRuns(s2: System) returns (s: System)
    requires PairShows(s2, StepReady, StepBlocked) && s2.executors == map[0 := Looping(8), 1 := Looping(8)]
    requires s2.submitters == {}
    ensures RunOn(s2, BothPass()[2..]) == RunOn(s, BothPass()[6..])
    ensures PairShows(s, StepQaPassed, StepQaPassed) && s.executors == map[0 := Looping(6), 1 := Looping(8)]
    ensures s.submitters == {}
  {
    PairBuild(s2);
    PairStartsFirst(s2, 0);
    hide RunOn, Step;
    var a := BothPass();
    RunOnOne(s2, a, 2);
    s := Step(s2, BeginStep(0));
    assert s.(build := 0) == s;
    hide PairShows;
    PairFirstPasses(s);
    RunOnOne(s, a, 3);
    s := Step(s, FinishStep(0, Passed(1)));
    PairStartsSecond(s);
    RunOnOne(s, a, 4);
    s := Step(s, BeginStep(0));
    PairSecondPasses(s);
    RunOnOne(s, a, 5);
    s := Step(s, FinishStep(0, Passed(2)));
  }

  lemma PairBuild(s: System)
    requires PairShows(s, StepReady, StepBlocked)
    ensures s.build == 0 && s.(build := 0) == s
  {
  }

  lemma RunOneMore(s: System, actions: seq<Action>, a: Action)
    ensures Run(s, actions + [a]) == Step(Run(s, actions), a)
  {
    assert (actions + [a])[..|actions|] == actions;
  }

  /** A submitted plan goes back to QA_PASSED, from where it is submitted again. */
  lemma SubmittedPlanIsReopened()
    ensures var done := BothPass() + [WriteSubmission(0, Submitted)];
            && Initial(Pair()) && AllReturnable(done + [BeginStep(1)])
            && Run(Pair(), done).plan.status == Submitted && Run(Pair(), done + [BeginStep(1)]).plan.status == QaPassed
  {
    PairIsRead();
    hide Run, Pair;
    var s := Run(Pair(), BothPass());
    RunOneMore(Pair(), BothPass(), WriteSubmission(0, Submitted));
    RunOneMore(Pair(), BothPass() + [WriteSubmission(0, Submitted)], BeginStep(1));
    WholeBegins(Step(s, WriteSubmission(0, Submitted)).plan);
  }

  /**
   * Two submission tasks read the plan; the first submits it, the second, which finds the first one
   * at work and raises, then writes FAILED over SUBMITTED.
   */
  lemma SecondSubmitterFailsSubmittedPlan()
    ensures var done := BothPass() + [ReadForSubmission(1), WriteSubmission(0, Submitted)];
            && Initial(Pair()) && AllReturnable(done + [WriteSubmission(1, Failed)])
            && Run(Pair(), done).plan.status == Submitted
            && Run(Pair(), done + [WriteSubmission(1, Failed)]).plan.status == Failed
  {
    PairIsRead();
    hide Run, Pair;
    var a := BothPass() + [ReadForSubmission(1)];
    RunOneMore(Pair(), BothPass(), ReadForSubmission(1));
    RunOneMore(Pair(), a, WriteSubmission(0, Submitted));
    assert a + [WriteSubmission(0, Submitted)] == BothPass() + [ReadForSubmission(1), WriteSubmission(0, Submitted)];
    RunOneMore(Pair(), a + [WriteSubmission(0, Submitted)], WriteSubmission(1, Failed));
  }

  /** The plan is blocked and built again while a task submits it: the new plan is SUBMITTED untouched. */
  lemma LateSubmissionMarksNewPlan()
    ensures var late := BothPass() + [DenyAdmission] + [Replan(PairRows())] + [WriteSubmission(0, Submitted)];
            && Initial(Pair()) && AllReturnable(late)
            && Run(Pair(), late).plan.status == Submitted && Run(Pair(), late).plan.steps == PairRows()
            && !Whole(Run(Pair(), late))
  {
    PairIsRead();
    hide Run, Pair;
    RunOneMore(Pair(), BothPass(), DenyAdmission);
    RunOneMore(Pair(), BothPass() + [DenyAdmission], Replan(PairRows()));
    RunOneMore(Pair(), BothPass() + [DenyAdmission] + [Replan(PairRows())], WriteSubmission(0, Submitted));
    assert Fresh(PairRows()) && PairRows()[0].status == StepReady;
  }

  /** While one executor waits for the first step, another finds nothing to do; then the plan is built again. */
  function LateFailure(): seq<Action> {
    [Enter(0, 8), BeginStep(0), Enter(1, 8), BeginStep(1), Replan(PairRows()), FinishStep(0, Raised)]
  }

  lemma PairBlocks(s: System)
    requires PairShows(s, StepExecuting, StepBlocked) && s.plan.status == Executing
    requires s.executors == map[0 := InFlight(7, 0, 0)]
    ensures var t := Step(Step(s, Enter(1, 8)), BeginStep(1));
            t.plan.status == Blocked && t.executors == map[0 := InFlight(7, 0, 0)] && t.build == 0
  {
    assert Unlock(s.plan.steps) == s.plan.steps;
    FirstWithIs(s.plan.steps, StepFailed, 0, 2);
    FirstWithIs(s.plan.steps, StepNeedsRepair, 0, 2);
    FirstWithIs(s.plan.steps, StepReady, 0, 2);
    hide FirstWith, Unlock;
  }

  lemma NewPlanFails(s: System)
    requires s.plan.status == Blocked && s.executors == map[0 := InFlight(7, 0, 0)] && s.build == 0
    ensures var t := Step(Step(s, Replan(PairRows())), FinishStep(0, Raised));
            t.plan.status == Failed && t.plan.steps == PairRows() && t.executors == map[] && t.build == 1
  {
    assert Fresh(PairRows());
  }

  lemma PairEntersOnce()
    ensures Initial(Pair())
    ensures var t := Step(Pair(), Enter(0, 8));
            PairShows(t, StepReady, StepBlocked) && t.executors == map[0 := Looping(8)]
  {
  }

  lemma RetryEnters(s: System)
    requires s.plan.status == Failed && s.plan.steps == PairRows() && s.executors == map[]
    ensures var t := Step(Step(s, Retry), Enter(2, 8));
            && PairShows(t.(build := 0), StepReady, StepBlocked) && t.executors == map[2 := Looping(8)]
            && t.plan.executionAttempts == s.plan.executionAttempts && t.build == s.build
  {
  }

  /**
   * An execution of an earlier build raises after the plan was built again: the new plan is FAILED
   * with no step of it attempted, and retrying it does start a step.
   */
  lemma LateRaiseFailsNewPlan()
    ensures Initial(Pair()) && AllReturnable(LateFailure())
    ensures var t := Run(Pair(), LateFailure());
            var u := Run(Pair(), LateFailure() + [Retry] + [Enter(2, 8)] + [BeginStep(2)]);
            && t.plan.status == Failed && t.plan.steps == PairRows() && !Spent(t.plan.steps)
            && u.build == t.build && u.plan.executionAttempts == t.plan.executionAttempts + 1
  {
    var a := LateFailure();
    LateFailureRuns();
    RunOneMore(Pair(), a, Retry);
    RunOneMore(Pair(), a + [Retry], Enter(2, 8));
    RunOneMore(Pair(), a + [Retry] + [Enter(2, 8)], BeginStep(2));
    hide Run, Pair, Step, LateFailure, Initial, AllReturnable;
    var t := Run(Pair(), a);
    RetryEnters(t);
    var r := Step(Step(t, Retry), Enter(2, 8));
    PairStartsFirst(r, 2);
    StartCounts(r, 2, 8);
    assert PairRows()[0].status == StepReady && PairRows()[1].status == StepBlocked;
  }

  lemma LateFailureRuns()
    ensures Initial(Pair()) && AllReturnable(LateFailure())
    ensures var t := Run(Pair(), LateFailure());
            t.plan.status == Failed && t.plan.steps == PairRows() && t.executors == map[] && t.build == 1
  {
    RunsAreReturnable();
    hide Run, RunOn, Step, Pair, Initial, AllReturnable;
    var a := LateFailure();
    assert a[0..] == a && a[6..] == [];
    PairEntersOnce();
    RunOnIsRun(Pair(), a);
    RunOnOne(Pair(), a, 0);
    var s := Step(Pair(), Enter(0, 8));
    PairBuild(s);
    PairStartsFirst(s, 0);
    RunOnOne(s, a, 1);
    s := Step(s, BeginStep(0));
    assert s.(build := 0) == s;
    hide PairShows;
    PairBlocks(s);
    RunOnOne(s, a, 2);
    RunOnOne(Step(s, Enter(1, 8)), a, 3);
    s := Step(Step(s, Enter(1, 8)), BeginStep(1));
    NewPlanFails(s);
    RunOnOne(s, a, 4);
    RunOnOne(Step(s, Replan(PairRows())), a, 5);
    RunOnNothing(Step(Step(s, Replan(PairRows())), FinishStep(0, Raised)));
  }

  function Collision(): seq<Action> {
    [Enter(0, 8), BeginStep(0), FinishStep(0, Passed(1)), BeginStep(0), Enter(1, 8), BeginStep(1),
     FinishStep(0, Unconvincing(2)), Enter(0, 8), BeginStep(0), FinishStep(1, Passed(3)), BeginStep(1)]
  }

  lemma RunsAreReturnable()
    ensures AllReturnable(Review()) && AllReturnable(BothPass())
    ensures AllReturnable(LateFailure()) && AllReturnable(Collision())
  {
  }

  /** A run, one action at a time from the front. */
  ghost function RunOn(s: System, actions: seq<Action>): System
    decreases |actions|
  {
    if actions == [] then s else RunOn(Step(s, actions[0]), actions[1..])
  }

  lemma {:induction false} RunOnIsRun(s: System, actions: seq<Action>)
    ensures RunOn(s, actions) == Run(s, actions)
    decreases |actions|
  {
    hide Step;
    if |actions| > 1 {
      var n := |actions| - 1;
      RunOnIsRun(Step(s, actions[0]), actions[1..]);
      RunOnIsRun(s, actions[..n]);
      RunOnIsRun(Step(s, actions[0]), actions[1..n]);
      assert actions[..n][0] == actions[0] && actions[..n][1..] == actions[1..n];
      assert actions[1..][..n - 1] == actions[1..n] && actions[1..][n - 1] == actions[n];
    }
  }

  lemma RunOnOne(s: System, actions: seq<Action>, i: nat)
    requires i < |actions|
    ensures RunOn(s, actions[i..]) == RunOn(Step(s, actions[i]), actions[i + 1..])
  {
  }

  lemma Enters(s: System, e: nat, maximum: nat, a: StepStatus, b: StepStatus, c: StepStatus, n: nat)
    requires e !in s.executors && Executable(s.plan.status) && Shows(s, a, b, c, n)
    ensures Step(s, Enter(e, maximum)) == s.(executors := s.executors[e := Looping(maximum)])
    ensures Shows(Step(s, Enter(e, maximum)), a, b, c, n)
  {
  }

  lemma ForkIsInitial()
    ensures Initial(Fork()) && Shows(Fork(), StepReady, StepBlocked, StepBlocked, 0)
    ensures Fork().plan.status == Ready && Fork().executors == map[] && Fork().build == 0
    ensures Executable(Ready) && Executable(Executing) && Executable(NeedsRepair)
  {
  }

  /**
   * With two executors the repair bound is lost: the second step fails QA and is blocked at
   * its bound of no repairs; the other executor then unlocks and runs it a second time.
   */
  lemma InterleavingBreaksRepairBound()
    ensures Initial(Fork()) && AllReturnable(Collision())
    ensures var steps := Run(Fork(), Collision()).plan.steps;
            |steps| == 3 && steps[1].attempt == 2 && steps[1].repairAttempts == steps[1].maxRepairAttempts == 0
  {
    RunsAreReturnable();
    hide Initial, Run, Fork, Step, RunOn, Executable, AllReturnable, Shows;
    ForkIsInitial();
    var a := Collision();
    assert a[0..] == a && a[11..] == [];
    RunOnIsRun(Fork(), a);
    RunOnOne(Fork(), a, 0);
    Enters(Fork(), 0, 8, StepReady, StepBlocked, StepBlocked, 0);
    var s := FromEntered(Step(Fork(), Enter(0, 8)));
    Enters(s, 0, 8, StepQaPassed, StepNeedsRepair, StepExecuting, 1);
    RunOnOne(s, a, 7);
    ToSecondRun(Step(s, Enter(0, 8)));
    SecondStepIn(Run(Fork(), a), StepQaPassed, StepExecuting, StepQaPassed, 2);
  }

  lemma SecondStepIn(s: System, a: StepStatus, b: StepStatus, c: StepStatus, n: nat)
    requires Shows(s, a, b, c, n)
    ensures |s.plan.steps| == 3 && s.plan.steps[1].attempt == n
    ensures s.plan.steps[1].repairAttempts == s.plan.steps[1].maxRepairAttempts == 0
  {
  }

  lemma FromEntered(s1: System) returns (s: System)
    requires Shows(s1, StepReady, StepBlocked, StepBlocked, 0) && s1.executors == map[0 := Looping(8)] && s1.build == 0
    ensures RunOn(s1, Collision()[1..]) == RunOn(s, Collision()[7..])
    ensures Shows(s, StepQaPassed, StepNeedsRepair, StepExecuting, 1)
    ensures s.executors == map[1 := InFlight(7, 0, 2)] && s.build == 0 && s.plan.status == NeedsRepair
  {
    hide RunOn, Step, Shows, Executable;
    var a := Collision();
    StartsRoot(s1);
    RunOnOne(s1, a, 1);
    s := Step(s1, BeginStep(0));
    RootPasses(s);
    RunOnOne(s, a, 2);
    s := Step(s, FinishStep(0, Passed(1)));
    StartsSecond(s);
    RunOnOne(s, a, 3);
    s := Step(s, BeginStep(0));
    ForkIsInitial();
    Enters(s, 1, 8, StepQaPassed, StepExecuting, StepReady, 1);
    RunOnOne(s, a, 4);
    s := Step(s, Enter(1, 8));
    StartsThird(s);
    RunOnOne(s, a, 5);
    s := Step(s, BeginStep(1));
    SecondFails(s);
    RunOnOne(s, a, 6);
    s := Step(s, FinishStep(0, Unconvincing(2)));
  }

  lemma ToSecondRun(s8: System)
    requires Shows(s8, StepQaPassed, StepNeedsRepair, StepExecuting, 1)
    requires s8.executors == map[0 := Looping(8), 1 := InFlight(7, 0, 2)] && s8.build == 0
    ensures Shows(RunOn(s8, Collision()[8..]), StepQaPassed, StepExecuting, StepQaPassed, 2)
  {
    hide Step, Shows;
    var a := Collision();
    SecondIsBlocked(s8);
    RunOnOne(s8, a, 8);
    var s9 := Step(s8, BeginStep(0));
    ThirdPasses(s9);
    RunOnOne(s9, a, 9);
    var s10 := Step(s9, FinishStep(1, Passed(3)));
    SecondRunsAgain(s10);
    RunOnOne(s10, a, 10);
    assert a[11..] == [];
  }
}

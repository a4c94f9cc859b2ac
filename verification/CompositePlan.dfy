/**
 * One composite work plan and the bounded loop that executes it
 * (planning/services.py, lines 635-777; planning/models.py, lines 62-197).
 *
 * A step row's identity is its position: rows are kept in stored sequence order, and
 * dependency links are positions. The remote execution of a step is an oracle.
 */
module CompositePlan {
  import opened Prelude

  datatype StepStatus = StepBlocked | StepReady | StepExecuting | StepNeedsRepair | StepQaPassed | StepFailed

  datatype PlanStatus =
    | Blocked | Ready | Queued | Executing | NeedsRepair | QaPassed
    | Submitting | SubmissionReconciliation | Submitted | Failed

  datatype StepReason =
    | WaitingForUpstreamQa | MaxRepairAttemptsReached | GenxMonetaryCostUnresolved
    | DeterministicQaFailed | ExecutionRaised

  datatype PlanReason =
    | CompositeStepFailed(key: string) | CompositeNoExecutableStep | CompositeStepRepairLimit(key: string)
    | CompositeStepCostUnresolved(key: string) | CompositeStepQaFailed(key: string) | CompositeStepLimitReached
    | OtherReason

  /** One entry of a step's repair history. */
  datatype RepairNote = RepairNote(attempt: nat, reasons: seq<StepReason>)

  /** The latest QA row of a step: absent, or present with its verdict. */
  datatype QaRow = NoQa | Qa(passed: bool)

  datatype StepRow = StepRow(
    key: string,
    dependsOn: set<nat>,
    status: StepStatus,
    attempt: nat,
    repairAttempts: nat,
    maxRepairAttempts: nat,
    repairHistory: seq<RepairNote>,
    qa: QaRow,
    inputArtifacts: set<int>,
    outputArtifacts: set<int>,
    reasons: seq<StepReason>)

  datatype PlanState = PlanState(
    status: PlanStatus,
    reasons: seq<PlanReason>,
    executionAttempts: nat,
    repairAttempts: nat,
    steps: seq<StepRow>)

  /** What the remote execution of a step can come back with. */
  datatype Outcome = Raised | Finished(executionPassed: bool, qa: QaRow, costResolved: bool, artifacts: set<int>)

  predicate Passes(o: Outcome) {
    o.Finished? && o.executionPassed && o.qa == Qa(true) && o.costResolved
  }

  // ---------------------------------------------------------------- one iteration

  predicate StepPassed(steps: seq<StepRow>, d: nat) {
    d < |steps| && steps[d].status == StepQaPassed
  }

  /** A blocked step with dependencies, all of them passed. */
  predicate Unlockable(steps: seq<StepRow>, i: nat)
    requires i < |steps|
  {
    && steps[i].status == StepBlocked && steps[i].dependsOn != {}
    && forall d | d in steps[i].dependsOn :: StepPassed(steps, d)
  }

  function UnlockRow(steps: seq<StepRow>, i: nat): StepRow
    requires i < |steps|
  {
    if Unlockable(steps, i) then steps[i].(status := StepReady, reasons := []) else steps[i]
  }

  function Unlock(steps: seq<StepRow>): (r: seq<StepRow>)
    ensures |r| == |steps|
    ensures forall i :: 0 <= i < |steps| ==> r[i] == UnlockRow(steps, i)
  {
    seq(|steps|, i requires 0 <= i < |steps| => UnlockRow(steps, i))
  }

  /**
   * What unlocking does to a row: a blocked step becomes ready, its reasons dropped, exactly if it depends
   * on something and all it depends on has passed; every other row stays.
   */
  lemma UnlockSays(steps: seq<StepRow>, i: nat)
    requires i < |steps|
    ensures var before, after := steps[i], Unlock(steps)[i];
            var ready := before.status == StepBlocked && (exists d :: d in before.dependsOn)
                         && forall d :: d in before.dependsOn ==> d < |steps| && steps[d].status == StepQaPassed;
            && (ready ==> after == before.(status := StepReady, reasons := []))
            && (!ready ==> after == before)
  {
  }

  /** The first step in sequence order with a given status, or |steps|. */
  function FirstWith(steps: seq<StepRow>, status: StepStatus, from: nat): (r: nat)
    requires from <= |steps|
    ensures from <= r <= |steps|
    ensures r < |steps| ==> steps[r].status == status
    ensures forall i :: from <= i < r ==> steps[i].status != status
    decreases |steps| - from
  {
    if from == |steps| || steps[from].status == status then from else FirstWith(steps, status, from + 1)
  }

  predicate AllPassed(steps: seq<StepRow>) {
    forall i | 0 <= i < |steps| :: steps[i].status == StepQaPassed
  }

  /** The guard of `_composite_inputs`: every dependency passed and its QA row says so. */
  predicate InputsAvailable(steps: seq<StepRow>, i: nat)
    requires i < |steps|
  {
    forall d | d in steps[i].dependsOn :: StepPassed(steps, d) && steps[d].qa == Qa(true)
  }

  function UpstreamArtifacts(steps: seq<StepRow>, deps: set<nat>): set<int> {
    set d, a | d in deps && d < |steps| && a in steps[d].outputArtifacts :: a
  }

  /** The transaction at the head of an iteration either returns, raises or starts a step. */
  datatype BeginResult = Stop(plan: PlanState) | InputsError | Run(plan: PlanState, index: nat)

  /** The row of a step as it starts to execute. */
  function StartRow(steps: seq<StepRow>, i: nat, repair: bool): StepRow
    requires i < |steps|
  {
    var row := steps[i];
    row.(attempt := row.attempt + 1,
         repairAttempts := if repair then row.repairAttempts + 1 else row.repairAttempts,
         repairHistory := if repair then row.repairHistory + [RepairNote(row.attempt + 1, row.reasons)]
                          else row.repairHistory,
         inputArtifacts := UpstreamArtifacts(steps, row.dependsOn),
         status := StepExecuting,
         reasons := [])
  }

  function Start(p: PlanState, i: nat, repair: bool): BeginResult
    requires i < |p.steps|
  {
    if !InputsAvailable(p.steps, i) then InputsError
    else
      Run(p.(steps := p.steps[i := StartRow(p.steps, i, repair)],
             executionAttempts := p.executionAttempts + 1,
             repairAttempts := if repair then p.repairAttempts + 1 else p.repairAttempts,
             status := Executing), i)
  }

  /** A step is refused exactly if something it depends on has not passed or lacks a passing QA row. */
  lemma StartRefusedIff(p: PlanState, i: nat, repair: bool)
    requires i < |p.steps|
    ensures Start(p, i, repair).InputsError? <==>
              exists d :: d in p.steps[i].dependsOn
                && !(d < |p.steps| && p.steps[d].status == StepQaPassed && p.steps[d].qa == Qa(true))
  {
  }

  /** What a step starts with: everything its dependencies produced, and nothing else. */
  lemma StartConsumes(p: PlanState, i: nat, repair: bool, artifact: int)
    requires i < |p.steps| && Start(p, i, repair).Run?
    ensures var row := Start(p, i, repair).plan.steps[i];
            artifact in row.inputArtifacts <==>
              exists d :: d in p.steps[i].dependsOn && d < |p.steps| && artifact in p.steps[d].outputArtifacts
  {
  }

  /** The choice made on unlocked rows. */
  function Choose(p: PlanState): BeginResult {
    var steps := p.steps;
    var failed := FirstWith(steps, StepFailed, 0);
    var repairing := FirstWith(steps, StepNeedsRepair, 0);
    var ready := FirstWith(steps, StepReady, 0);
    if failed < |steps| then Stop(p.(status := Failed, reasons := [CompositeStepFailed(steps[failed].key)]))
    else if |steps| > 0 && AllPassed(steps) then Stop(p.(status := QaPassed, reasons := []))
    else if repairing < |steps| then
      if steps[repairing].repairAttempts >= steps[repairing].maxRepairAttempts then
        Stop(p.(status := Blocked, reasons := [CompositeStepRepairLimit(steps[repairing].key)],
                steps := steps[repairing := steps[repairing].(status := StepBlocked,
                                                              reasons := [MaxRepairAttemptsReached])]))
      else Start(p, repairing, true)
    else if ready < |steps| then Start(p, ready, false)
    else Stop(p.(status := Blocked, reasons := [CompositeNoExecutableStep]))
  }

  function Begin(p: PlanState): BeginResult {
    Choose(p.(steps := Unlock(p.steps)))
  }

  /** The row of a step when its execution returns. */
  function FinishRow(row: StepRow, o: Outcome): StepRow {
    if o.Raised? then row.(status := StepFailed, reasons := [ExecutionRaised])
    else
      var r := row.(qa := o.qa, outputArtifacts := o.artifacts);
      if !o.costResolved then r.(status := StepBlocked, reasons := [GenxMonetaryCostUnresolved])
      else if Passes(o) then r.(status := StepQaPassed, reasons := [])
      else r.(status := StepNeedsRepair, reasons := [DeterministicQaFailed])
  }

  function Finish(p: PlanState, i: nat, o: Outcome): PlanState
    requires i < |p.steps|
  {
    var q := p.(steps := p.steps[i := FinishRow(p.steps[i], o)]);
    var key := p.steps[i].key;
    if o.Raised? then q.(status := Failed, reasons := [CompositeStepFailed(key)])
    else if !o.costResolved then q.(status := Blocked, reasons := [CompositeStepCostUnresolved(key)])
    else if Passes(o) then q
    else q.(status := NeedsRepair, reasons := [CompositeStepQaFailed(key)])
  }

  /** What starting a step writes: one more attempt, and for a repair the note of what it repairs. */
  lemma StartSays(p: PlanState, i: nat, repair: bool)
    requires i < |p.steps| && Start(p, i, repair).Run?
    ensures var q, before := Start(p, i, repair).plan, p.steps[i];
            var after := q.steps[i];
            && Start(p, i, repair).index == i && |q.steps| == |p.steps|
            && (forall j :: 0 <= j < |p.steps| && j != i ==> q.steps[j] == p.steps[j])
            && q.status == Executing && q.reasons == p.reasons && q.executionAttempts - p.executionAttempts == 1
            && after.status == StepExecuting && after.attempt - before.attempt == 1 && after.reasons == []
            && (repair ==>
                  && after.repairAttempts - before.repairAttempts == 1 && q.repairAttempts - p.repairAttempts == 1
                  && |after.repairHistory| - |before.repairHistory| == 1
                  && before.repairHistory <= after.repairHistory
                  && after.repairHistory[|before.repairHistory|] == RepairNote(after.attempt, before.reasons))
            && (!repair ==>
                  && after.repairAttempts == before.repairAttempts && q.repairAttempts == p.repairAttempts
                  && after.repairHistory == before.repairHistory)
            && after.key == before.key && after.dependsOn == before.dependsOn && after.qa == before.qa
            && after.maxRepairAttempts == before.maxRepairAttempts && after.outputArtifacts == before.outputArtifacts
  {
  }

  /** Which row comes first with a status. */
  ghost predicate First(steps: seq<StepRow>, status: StepStatus, i: nat) {
    i < |steps| && steps[i].status == status && forall j :: 0 <= j < i ==> steps[j].status != status
  }

  /**
   * What an iteration does, by the rows as they are once unlocked: a failed step fails the plan; all passed
   * passes it; a step at its repair bound blocks it, and itself; a step to repair starts as a repair, else
   * a ready one as a first attempt, unless its inputs are missing; otherwise nothing can run.
   */
  lemma ChoiceSays(p: PlanState)
    ensures var u := p.(steps := Unlock(p.steps));
            var none := (status: StepStatus) => forall j :: 0 <= j < |u.steps| ==> u.steps[j].status != status;
            && (forall i: nat :: First(u.steps, StepFailed, i) ==>
                  Begin(p) == Stop(u.(status := Failed, reasons := [CompositeStepFailed(u.steps[i].key)])))
            && (|u.steps| > 0 && (forall j :: 0 <= j < |u.steps| ==> u.steps[j].status == StepQaPassed) ==>
                  Begin(p) == Stop(u.(status := QaPassed, reasons := [])))
            && (forall i: nat :: none(StepFailed) && First(u.steps, StepNeedsRepair, i) ==>
                  if u.steps[i].repairAttempts < u.steps[i].maxRepairAttempts then Begin(p) == Start(u, i, true)
                  else
                    var row := u.steps[i].(status := StepBlocked, reasons := [MaxRepairAttemptsReached]);
                    Begin(p) == Stop(u.(status := Blocked, reasons := [CompositeStepRepairLimit(row.key)],
                                        steps := u.steps[i := row])))
            && (forall i: nat :: none(StepFailed) && none(StepNeedsRepair) && First(u.steps, StepReady, i) ==>
                  Begin(p) == Start(u, i, false))
            && (none(StepFailed) && none(StepNeedsRepair) && none(StepReady)
                && (|u.steps| == 0 || exists j :: 0 <= j < |u.steps| && u.steps[j].status != StepQaPassed) ==>
                  Begin(p) == Stop(u.(status := Blocked, reasons := [CompositeNoExecutableStep])))
  {
    var u := p.(steps := Unlock(p.steps));
    forall status, i: nat | First(u.steps, status, i) ensures FirstWith(u.steps, status, 0) == i { }
    hide Unlock, FirstWith, Start;
  }

  /** What an execution's answer writes, by how it came back. */
  lemma FinishSays(p: PlanState, i: nat, o: Outcome)
    requires i < |p.steps|
    ensures var q, before := Finish(p, i, o), p.steps[i];
            var after := q.steps[i];
            && |q.steps| == |p.steps| && (forall j :: 0 <= j < |p.steps| && j != i ==> q.steps[j] == p.steps[j])
            && q.executionAttempts == p.executionAttempts && q.repairAttempts == p.repairAttempts
            && after.attempt == before.attempt && after.repairHistory == before.repairHistory
            && after.inputArtifacts == before.inputArtifacts
            && match o
               case Raised =>
                 && after == before.(status := StepFailed, reasons := [ExecutionRaised])
                 && q.status == Failed && q.reasons == [CompositeStepFailed(before.key)]
               case Finished(passed, qa, resolved, artifacts) =>
                 && after.qa == qa && after.outputArtifacts == artifacts
                 && (!resolved ==>
                       && after.status == StepBlocked && after.reasons == [GenxMonetaryCostUnresolved]
                       && q.status == Blocked && q.reasons == [CompositeStepCostUnresolved(before.key)])
                 && (resolved && passed && qa == Qa(true) ==>
                       && after.status == StepQaPassed && after.reasons == []
                       && q.status == p.status && q.reasons == p.reasons)
                 && (resolved && !(passed && qa == Qa(true)) ==>
                       && after.status == StepNeedsRepair && after.reasons == [DeterministicQaFailed]
                       && q.status == NeedsRepair && q.reasons == [CompositeStepQaFailed(before.key)])
  {
  }

  // ---------------------------------------------------------------- one call

  predicate Executable(s: PlanStatus) {
    s in {Ready, Queued, Executing, NeedsRepair}
  }

  /** How a call ends: the plan, whether it raised, and the steps it executed in order. */
  datatype CallResult = CallResult(plan: PlanState, raised: bool, ran: seq<nat>)

  /** The loop with `left` iterations to go; `world` answers each attempt at each step. */
  function Loop(p: PlanState, left: nat, world: (nat, nat) -> Outcome): CallResult
    decreases left
  {
    if left == 0 then CallResult(p.(status := Blocked, reasons := [CompositeStepLimitReached]), false, [])
    else
      match Begin(p)
      case Stop(q) => CallResult(q, false, [])
      case InputsError => CallResult(p, true, [])
      case Run(q, i) =>
        if i >= |q.steps| then CallResult(q, true, [])
        else
          var o := world(i, q.steps[i].attempt);
          var done := Finish(q, i, o);
          if Passes(o) then
            var rest := Loop(done, left - 1, world);
            rest.(ran := [i] + rest.ran)
          else CallResult(done, o.Raised?, [i])
  }

  lemma BeginRunsARow(p: PlanState)
    ensures Begin(p).Run? ==> Begin(p).index < |p.steps| && |Begin(p).plan.steps| == |p.steps|
  {
  }

  /**
   * One iteration of the loop: it ends the call, with or without an exception, or runs a step and goes on
   * if that passes.
   */
  lemma LoopSays(p: PlanState, left: nat, world: (nat, nat) -> Outcome)
    ensures var r := Loop(p, left, world);
            if left == 0 then r == CallResult(p.(status := Blocked, reasons := [CompositeStepLimitReached]), false, [])
            else
              match Begin(p)
              case Stop(q) => r == CallResult(q, false, [])
              case InputsError => r == CallResult(p, true, [])
              case Run(q, i) =>
                && i < |q.steps| && |r.ran| > 0 && r.ran[0] == i
                && var o := world(i, q.steps[i].attempt);
                   if Passes(o)
                   then
                     var rest := Loop(Finish(q, i, o), left - 1, world);
                     r.plan == rest.plan && r.raised == rest.raised && r.ran[1..] == rest.ran
                   else r.plan == Finish(q, i, o) && |r.ran| == 1 && (r.raised <==> o == Raised)
  {
    BeginRunsARow(p);
    hide Begin, Finish, Passes;
  }

  function Call(p: PlanState, maximum: nat, world: (nat, nat) -> Outcome): CallResult {
    if Executable(p.status) then Loop(p, maximum, world) else CallResult(p, false, [])
  }

  // ---------------------------------------------------------------- fresh plans

  /** A row as the builder leaves it: untouched, linked backwards, ready iff nothing is upstream. */
  ghost predicate FreshRow(row: StepRow, i: nat) {
    && (forall d :: d in row.dependsOn ==> d < i)
    && row.status == (if row.dependsOn == {} then StepReady else StepBlocked)
    && row.attempt == 0 && row.repairAttempts == 0 && row.repairHistory == []
    && row.qa == NoQa && row.inputArtifacts == {} && row.outputArtifacts == {}
    && row.maxRepairAttempts <= 3
  }

  ghost predicate Fresh(steps: seq<StepRow>) {
    forall i :: 0 <= i < |steps| ==> FreshRow(steps[i], i)
  }

  // ---------------------------------------------------------------- the plan object

  class WorkPlan {
    var status: PlanStatus
    var reasons: seq<PlanReason>
    var executionAttempts: nat
    var repairAttempts: nat
    var steps: seq<StepRow>

    function State(): PlanState
      reads this
    {
      PlanState(status, reasons, executionAttempts, repairAttempts, steps)
    }

    constructor (rows: seq<StepRow>)
      ensures State() == PlanState(Ready, [], 0, 0, rows)
    {
      status, reasons, executionAttempts, repairAttempts, steps := Ready, [], 0, 0, rows;
    }

    /** Visits the rows in sequence order, reading dependency rows as they are by then. */
    method UnlockCompositeSteps()
      modifies this`steps
      ensures steps == Unlock(old(steps))
    {
      var i := 0;
      while i < |steps|
        invariant 0 <= i <= |steps| == |old(steps)|
        invariant forall j :: 0 <= j < i ==> steps[j] == UnlockRow(old(steps), j)
        invariant forall j :: i <= j < |steps| ==> steps[j] == old(steps)[j]
      {
        SameStatus(old(steps), steps, i);
        if Unlockable(steps, i) {
          steps := steps[i := steps[i].(status := StepReady, reasons := [])];
        }
        i := i + 1;
      }
    }

    /** The transaction: unlocks, then stops the call or marks one step as executing. */
    method BeginIteration() returns (index: nat, stopped: bool, raised: bool)
      modifies this
      ensures match Begin(old(State()))
              case Stop(q) => stopped && !raised && State() == q
              case InputsError => !stopped && raised && State() == old(State())
              case Run(q, i) => !stopped && !raised && index == i && State() == q
    {
      index, stopped, raised := 0, false, false;
      var saved := steps;
      UnlockCompositeSteps();
      var failed := FirstWith(steps, StepFailed, 0);
      if failed < |steps| {
        status, reasons, stopped := Failed, [CompositeStepFailed(steps[failed].key)], true;
        return;
      }
      if |steps| > 0 && AllPassed(steps) {
        status, reasons, stopped := QaPassed, [], true;
        return;
      }
      index := FirstWith(steps, StepNeedsRepair, 0);
      var repair := index < |steps|;
      if !repair {
        index := FirstWith(steps, StepReady, 0);
      }
      if index == |steps| {
        status, reasons, stopped := Blocked, [CompositeNoExecutableStep], true;
        return;
      }
      var row := steps[index];
      if repair && row.repairAttempts >= row.maxRepairAttempts {
        steps := steps[index := row.(status := StepBlocked, reasons := [MaxRepairAttemptsReached])];
        status, reasons, stopped := Blocked, [CompositeStepRepairLimit(row.key)], true;
        return;
      }
      raised := StartStep(index, repair);
      if raised { steps := saved; }
    }

    /** Marks a step as executing, with its upstream artifacts as inputs, or refuses to. */
    method StartStep(index: nat, repair: bool) returns (refused: bool)
      requires index < |steps|
      modifies this
      ensures refused <==> Start(old(State()), index, repair).InputsError?
      ensures refused ==> State() == old(State())
      ensures !refused ==> Start(old(State()), index, repair) == Run(State(), index)
    {
      refused := !InputsAvailable(steps, index);
      if refused { return; }
      var row := steps[index];
      row := row.(inputArtifacts := UpstreamArtifacts(steps, row.dependsOn), attempt := row.attempt + 1);
      if repair {
        row := row.(repairAttempts := row.repairAttempts + 1,
                    repairHistory := row.repairHistory + [RepairNote(row.attempt, row.reasons)]);
        repairAttempts := repairAttempts + 1;
      }
      steps := steps[index := row.(status := StepExecuting, reasons := [])];
      executionAttempts := executionAttempts + 1;
      status := Executing;
    }

    method FinishIteration(index: nat, o: Outcome)
      requires index < |steps|
      modifies this
      ensures State() == Finish(old(State()), index, o)
    {
      var row := steps[index];
      if o.Raised? {
        steps := steps[index := row.(status := StepFailed, reasons := [ExecutionRaised])];
        status, reasons := Failed, [CompositeStepFailed(row.key)];
        return;
      }
      row := row.(qa := o.qa, outputArtifacts := o.artifacts);
      if !o.costResolved {
        steps := steps[index := row.(status := StepBlocked, reasons := [GenxMonetaryCostUnresolved])];
        status, reasons := Blocked, [CompositeStepCostUnresolved(row.key)];
      } else if o.executionPassed && o.qa == Qa(true) {
        steps := steps[index := row.(status := StepQaPassed, reasons := [])];
      } else {
        steps := steps[index := row.(status := StepNeedsRepair, reasons := [DeterministicQaFailed])];
        status, reasons := NeedsRepair, [CompositeStepQaFailed(row.key)];
      }
    }

    /** The whole bounded loop of one call. */
    method Execute(maximum: nat, world: (nat, nat) -> Outcome) returns (raised: bool, ran: seq<nat>)
      modifies this
      ensures CallResult(State(), raised, ran) == Call(old(State()), maximum, world)
    {
      hide Begin, Finish;
      raised, ran := false, [];
      if !Executable(status) { return; }
      ghost var before := State();
      var left: nat := maximum;
      assert [] + Loop(before, maximum, world).ran == Loop(before, maximum, world).ran;
      while left > 0
        invariant Continues(before, maximum, world, State(), left, ran)
        invariant !raised
      {
        ghost var here, ran0 := State(), ran;
        BeginRunsARow(here);
        assert ran0 + [] == ran0;
        var index, stopped, error := BeginIteration();
        if stopped { return; }
        if error { raised := true; return; }
        var o := world(index, steps[index].attempt);
        FinishIteration(index, o);
        ran := ran + [index];
        if !Passes(o) { raised := o.Raised?; return; }
        left := left - 1;
        assert ran0 + ([index] + Loop(State(), left, world).ran) == ran + Loop(State(), left, world).ran;
      }
      assert ran + [] == ran;
      status, reasons := Blocked, [CompositeStepLimitReached];
    }
  }

  /** The rest of the loop, run from `now` after `ran`, completes the loop run from `before`. */
  ghost predicate Continues(before: PlanState, maximum: nat, world: (nat, nat) -> Outcome,
                            now: PlanState, left: nat, ran: seq<nat>)
  {
    var rest := Loop(now, left, world);
    Loop(before, maximum, world) == rest.(ran := ran + rest.ran)
  }

  /** Rows that differ only between blocked and ready unlock alike. */
  lemma SameStatus(a: seq<StepRow>, b: seq<StepRow>, i: nat)
    requires |a| == |b| && i < |a| && a[i] == b[i]
    requires forall j :: 0 <= j < |a| ==> a[j] == b[j] || b[j] == UnlockRow(a, j)
    ensures Unlockable(a, i) <==> Unlockable(b, i)
  {
  }
}

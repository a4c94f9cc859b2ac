/**
 * The life of a job (control/job_state.py, lines 5-26; planning/retry.py, lines 13-81): the
 * transition table, and the places that write a job's state outside it: the operator's retry, the
 * recovery of a completed remote call (control/services/genx_recovery.py, lines 124-140), the
 * owner's review (control/management/commands/review_execution_acceptance.py, lines 95-107) and
 * the demotion of a stale opportunity (control/services/demand_pipeline.py, lines 228-255).
 */
module JobLifecycle {
  import opened Prelude

  datatype State =
    | Discovered | Expected | Claimed | Awarded | Executing
    | Submitted | Accepted | PayoutPending | Settled | Failed

  function Allowed(s: State): set<State> {
    match s
    case Discovered => {Expected, Failed}
    case Expected => {Claimed, Awarded, Failed}
    case Claimed => {Executing, Failed}
    case Awarded => {Executing, Failed}
    case Executing => {Submitted, Failed}
    case Submitted => {Accepted, Executing, Failed}
    case Accepted => {PayoutPending, Settled, Failed}
    case PayoutPending => {Settled, Failed}
    case Settled => {}
    case Failed => {}
  }

  predicate Acquired(s: State) {
    s.Claimed? || s.Awarded?
  }

  datatype Plan = NoPlan | Planned(failed: bool)

  /** The rows the guards look at besides the state. */
  datatype Job = Job(state: State, plan: Plan, submission: bool, execution: bool, activeExecution: bool,
                     unsafeCall: bool)

  datatype RetryError = ReasonRequired | PlanNotFailed | JobNotFailed | SubmissionHistory | ActiveExecution | UnsafeCall

  /** Why the operator's retry is refused, if it is: the first guard that fires. */
  function RetryRefusal(job: Job, hasReason: bool): Option<RetryError> {
    if !hasReason then Some(ReasonRequired)
    else if job.plan != Planned(true) then Some(PlanNotFailed)
    else if !job.state.Failed? then Some(JobNotFailed)
    else if job.submission then Some(SubmissionHistory)
    else if job.activeExecution then Some(ActiveExecution)
    else if job.unsafeCall then Some(UnsafeCall)
    else None
  }

  datatype Action =
    | Transition(target: State, submission: bool)   // `submission`: a submission row is written too
    | MakePlan                                      // for acquired and executing jobs only
    | PlanStatus(failed: bool)
    | Rows(activeExecution: bool, unsafeCall: bool)
    | Retry(hasReason: bool)
    | Recover
    | Review
    | Demote

  /** The job after an action; unchanged when the action is refused. */
  function Next(job: Job, a: Action): Job {
    match a
    case Transition(target, submission) =>
      if target in Allowed(job.state)
      then job.(state := target, submission := job.submission || (target.Submitted? && submission),
                execution := job.execution || target.Executing?)
      else job
    case MakePlan =>
      if (Acquired(job.state) || job.state.Executing?) && job.plan.NoPlan? then job.(plan := Planned(false)) else job
    case PlanStatus(failed) => if job.plan.Planned? then job.(plan := Planned(failed)) else job
    case Rows(active, unsafe) => job.(activeExecution := active, unsafeCall := unsafe)
    case Retry(hasReason) =>
      if RetryRefusal(job, hasReason).None? then job.(state := Awarded, plan := Planned(false)) else job
    case Recover =>
      if job.plan.Planned? && job.execution
         && !(job.state.Submitted? || job.state.Accepted? || job.state.PayoutPending? || job.state.Settled?)
      then job.(state := Executing, plan := Planned(false)) else job
    case Review => if job.execution && job.state.Failed? then job.(state := Executing) else job
    case Demote => if job.state.Expected? then job.(state := Discovered) else job
  }

  /** The table: every state but the two final ones can fail, and besides there are eleven steps. */
  lemma AllowedIff(a: State, b: State)
    ensures b in Allowed(a) <==>
              || (b == Failed && a != Settled && a != Failed)
              || (a, b) in {(Discovered, Expected), (Expected, Claimed), (Expected, Awarded),
                            (Claimed, Executing), (Awarded, Executing), (Executing, Submitted),
                            (Submitted, Accepted), (Submitted, Executing),
                            (Accepted, PayoutPending), (Accepted, Settled), (PayoutPending, Settled)}
  {
  }

  /**
   * The operator's retry goes through exactly for a failed plan of a failed job with nothing submitted,
   * active or unsafe.
   */
  lemma RetrySucceedsIff(job: Job, hasReason: bool)
    ensures var refusal := RetryRefusal(job, hasReason);
            && (refusal == None <==>
                  && hasReason && job.plan == Planned(true) && job.state == Failed
                  && !job.submission && !job.activeExecution && !job.unsafeCall)
            && (refusal == Some(ReasonRequired) <==> !hasReason)
            && (refusal == Some(PlanNotFailed) <==> hasReason && job.plan != Planned(true))
            && (refusal == Some(JobNotFailed) ==> job.state != Failed)
            && (refusal == Some(SubmissionHistory) ==> job.state == Failed && job.submission)
            && (refusal == Some(ActiveExecution) ==> !job.submission && job.activeExecution)
            && (refusal == Some(UnsafeCall) ==> !job.submission && !job.activeExecution && job.unsafeCall)
    ensures Next(job, Retry(hasReason)) ==
              if RetryRefusal(job, hasReason) == None then job.(state := Awarded, plan := Planned(false)) else job
  {
  }

  /** The places that write the state outside the table: when each does, and what it leaves. */
  lemma WritersSay(job: Job)
    ensures var t := Next(job, Recover);
            var open := job.plan != NoPlan && job.execution
                        && job.state in {Discovered, Expected, Claimed, Awarded, Executing, Failed};
            && (open ==> t == Job(Executing, Planned(false), job.submission, true, job.activeExecution, job.unsafeCall))
            && (!open ==> t == job)
    ensures Next(job, Review).state == (if job.execution && job.state == Failed then Executing else job.state)
    ensures Next(job, Review) == job.(state := Next(job, Review).state)
    ensures Next(job, Demote).state == (if job.state == Expected then Discovered else job.state)
    ensures Next(job, Demote) == job.(state := Next(job, Demote).state)
  {
  }

  /** What surrounds them: planning, plan states, other rows, and the rows that a transition writes. */
  lemma RowsSay(job: Job, target: State, flag: bool, other: bool)
    ensures Next(job, MakePlan) ==
              if job.plan == NoPlan && job.state in {Claimed, Awarded, Executing}
              then job.(plan := Planned(false)) else job
    ensures Next(job, PlanStatus(flag)) == if job.plan == NoPlan then job else job.(plan := Planned(flag))
    ensures var t := Next(job, Rows(flag, other));
            t.activeExecution == flag && t.unsafeCall == other && t.state == job.state && t.plan == job.plan
    ensures var t := Next(job, Transition(target, flag));
            if target in Allowed(job.state)
            then
              && t.state == target && t.plan == job.plan
              && (t.submission <==> job.submission || (target == Submitted && flag))
              && (t.execution <==> job.execution || target == Executing)
            else t == job
  {
  }

  class JobRecord {
    var job: Job

    constructor (state: State)
      ensures job == Job(state, NoPlan, false, false, false, false)
    {
      job := Job(state, NoPlan, false, false, false, false);
    }

    /** Moving to the current state is accepted and changes nothing; a move off the table raises. */
    method TransitionJob(target: State) returns (accepted: bool)
      modifies this
      ensures accepted <==> target == old(job).state || target in Allowed(old(job).state)
      ensures job == Next(old(job), Transition(target, false))
    {
      if job.state == target {
        return true;
      }
      if target !in Allowed(job.state) {
        return false;
      }
      job := job.(state := target, execution := job.execution || target.Executing?);
      accepted := true;
    }

    method PrepareFailedWorkPlanRetry(hasReason: bool) returns (refusal: Option<RetryError>)
      modifies this
      ensures refusal == RetryRefusal(old(job), hasReason)
      ensures job == Next(old(job), Retry(hasReason))
    {
      if !hasReason {
        return Some(ReasonRequired);
      }
      if !(job.plan.Planned? && job.plan.failed) {
        return Some(PlanNotFailed);
      }
      if job.state != Failed {
        return Some(JobNotFailed);
      }
      if job.submission {
        return Some(SubmissionHistory);
      }
      if job.activeExecution {
        return Some(ActiveExecution);
      }
      if job.unsafeCall {
        return Some(UnsafeCall);
      }
      job := job.(state := Awarded);
      job := job.(plan := Planned(false));
      refusal := None;
    }
  }

  // ---------------------------------------------------------------- runs

  /** The states the job was in, newest last, and how often each kind of backward step was taken. */
  datatype Life = Life(job: Job, visited: seq<State>, revisions: nat, retries: nat, recoveries: nat, demotions: nat)

  function Step(l: Life, a: Action): Life {
    var next := Next(l.job, a);
    if next.state == l.job.state then l.(job := next)
    else
      Life(next, l.visited + [next.state],
           l.revisions + (if l.job.state.Submitted? && next.state.Executing? then 1 else 0),
           l.retries + (if a.Retry? then 1 else 0),
           l.recoveries + (if a.Recover? || a.Review? then 1 else 0),
           l.demotions + (if a.Demote? then 1 else 0))
  }

  function Run(l: Life, actions: seq<Action>): Life {
    if actions == [] then l else Step(Run(l, actions[..|actions| - 1]), actions[|actions| - 1])
  }

  /** A job starts as an opportunity, scored or not. */
  function Born(state: State): Life {
    Life(Job(state, NoPlan, false, false, false, false), [state], 0, 0, 0, 0)
  }

  predicate Opportunity(s: State) {
    s.Discovered? || s.Expected?
  }

  /** How far a list of states got through EXPECTED, acquired, EXECUTING, SUBMITTED, ACCEPTED, SETTLED in this order. */
  function Stage(visited: seq<State>): (n: nat)
    ensures n <= 6
  {
    if visited == [] then 0
    else
      var n, s := Stage(visited[..|visited| - 1]), visited[|visited| - 1];
      if (n == 0 && s.Expected?) || (n == 1 && Acquired(s)) || (n == 2 && s.Executing?)
         || (n == 3 && s.Submitted?) || (n == 4 && s.Accepted?) || (n == 5 && s.Settled?)
      then n + 1 else n
  }

  function LeastStage(s: State): nat {
    match s
    case Discovered => 0
    case Expected => 1
    case Claimed => 2
    case Awarded => 2
    case Executing => 3
    case Submitted => 4
    case Accepted => 5
    case PayoutPending => 5
    case Settled => 6
    case Failed => 0
  }

  /** The longest way down from a state without going back. */
  function Rank(s: State): nat {
    match s
    case Discovered => 7
    case Expected => 6
    case Claimed => 5
    case Awarded => 5
    case Executing => 4
    case Submitted => 3
    case Accepted => 2
    case PayoutPending => 1
    case Settled => 0
    case Failed => 0
  }

  function Budget(l: Life): nat {
    7 + 2 * l.revisions + 6 * l.retries + 5 * l.recoveries + 2 * l.demotions
  }

  ghost predicate Staged(l: Life) {
    && l.visited != [] && l.visited[|l.visited| - 1] == l.job.state
    && Stage(l.visited) >= LeastStage(l.job.state)
    && (l.job.plan.Planned? || l.job.execution ==> Stage(l.visited) >= 2 && !Opportunity(l.job.state))
  }

  lemma StepKeepsStaged(l: Life, a: Action)
    requires Staged(l)
    ensures Staged(Step(l, a))
  {
    var t := Step(l, a);
    if t.visited != l.visited {
      assert t.visited[..|t.visited| - 1] == l.visited;
    }
  }

  lemma StepKeepsBudget(l: Life, a: Action)
    requires Staged(l) && |l.visited| - 1 + Rank(l.job.state) <= Budget(l)
    ensures var t := Step(l, a); |t.visited| - 1 + Rank(t.job.state) <= Budget(t)
  {
  }

  lemma {:induction false} RunsAreStaged(start: State, actions: seq<Action>)
    requires Opportunity(start)
    ensures var l := Run(Born(start), actions); Staged(l) && |l.visited| - 1 + Rank(l.job.state) <= Budget(l)
  {
    if actions == [] {
      assert [start][..0] == [];
    } else {
      var l := Run(Born(start), actions[..|actions| - 1]);
      RunsAreStaged(start, actions[..|actions| - 1]);
      hide Step, Staged, Rank, Budget;
      StepKeepsStaged(l, actions[|actions| - 1]);
      StepKeepsBudget(l, actions[|actions| - 1]);
    }
  }

  predicate Marks(s: State, n: nat) {
    match n
    case 1 => s.Expected?
    case 2 => Acquired(s)
    case 3 => s.Executing?
    case 4 => s.Submitted?
    case 5 => s.Accepted?
    case 6 => s.Settled?
    case _ => false
  }

  /** Increasing positions that show the stages were passed in order. */
  lemma {:induction false} StageWitness(visited: seq<State>) returns (at: seq<nat>)
    ensures |at| == Stage(visited)
    ensures forall i :: 0 <= i < |at| ==> at[i] < |visited| && Marks(visited[at[i]], i + 1)
    ensures forall i, j :: 0 <= i < j < |at| ==> at[i] < at[j]
  {
    if visited == [] {
      at := [];
    } else {
      at := StageWitness(visited[..|visited| - 1]);
      if Stage(visited) > |at| {
        at := at + [|visited| - 1];
      }
    }
  }

  /**
   * Whatever operators and recoveries do, a settled job was EXPECTED, then acquired, then
   * EXECUTING, then SUBMITTED, then ACCEPTED.
   */
  lemma SettledJobsWentThrough(start: State, actions: seq<Action>) returns (at: seq<nat>)
    requires Opportunity(start) && Run(Born(start), actions).job.state.Settled?
    ensures var visited := Run(Born(start), actions).visited;
            && |at| == 6 && (forall i :: 0 <= i < 6 ==> at[i] < |visited|)
            && at[0] < at[1] < at[2] < at[3] < at[4] < at[5]
            && visited[at[0]].Expected? && Acquired(visited[at[1]]) && visited[at[2]].Executing?
            && visited[at[3]].Submitted? && visited[at[4]].Accepted? && visited[at[5]].Settled?
  {
    RunsAreStaged(start, actions);
    at := StageWitness(Run(Born(start), actions).visited);
    var visited := Run(Born(start), actions).visited;
    assert Marks(visited[at[0]], 1) && Marks(visited[at[1]], 2) && Marks(visited[at[2]], 3);
    assert Marks(visited[at[3]], 4) && Marks(visited[at[4]], 5) && Marks(visited[at[5]], 6);
  }

  /** Nothing moves a settled job. */
  lemma {:induction false} SettledIsFinal(l: Life, actions: seq<Action>)
    requires l.job.state.Settled?
    ensures Run(l, actions).job.state.Settled? && Run(l, actions).visited == l.visited
  {
    if actions != [] {
      SettledIsFinal(l, actions[..|actions| - 1]);
    }
  }

  /** With r revisions, q retries, s recoveries and d demotions: at most 7 + 2r + 6q + 5s + 2d changes of state. */
  lemma ChangesAreBounded(start: State, actions: seq<Action>)
    requires Opportunity(start)
    ensures var l := Run(Born(start), actions);
            |l.visited| - 1 <= 7 + 2 * l.revisions + 6 * l.retries + 5 * l.recoveries + 2 * l.demotions
  {
    RunsAreStaged(start, actions);
  }

  // The bound is met, for every number of revisions and retries.

  lemma {:induction false} RunInParts(l: Life, a: seq<Action>, b: seq<Action>)
    ensures Run(l, a + b) == Run(Run(l, a), b)
  {
    hide Step;
    if b == [] {
      assert a + b == a;
    } else {
      RunInParts(l, a, b[..|b| - 1]);
      assert (a + b)[..|a + b| - 1] == a + b[..|b| - 1];
    }
  }

  function To(s: State): Action {
    Transition(s, false)
  }

  function Rounds(round: seq<Action>, n: nat): seq<Action> {
    if n == 0 then [] else Rounds(round, n - 1) + round
  }

  const REVISE := [To(Submitted), To(Executing)]
  const FAIL_LATE := [To(Submitted), To(Accepted), To(PayoutPending), To(Failed), PlanStatus(true), Retry(true),
                      To(Executing)]

  lemma StepByStep(l: Life, a: Action, b: seq<Action>)
    ensures Run(l, [a] + b) == Run(Step(l, a), b) && Run(l, []) == l
  {
    RunInParts(l, [a], b);
    assert [a][..0] == [];
    assert Run(l, [a]) == Step(Run(l, []), a);
  }

  /** An executing job with a healthy plan and no submission row. */
  predicate Working(l: Life) {
    l.job == Job(Executing, Planned(false), false, true, false, false)
  }

  lemma RunTwo(l: Life, a: Action, b: Action)
    ensures Run(l, [a, b]) == Step(Step(l, a), b)
  {
    assert [a, b] == [a] + ([b] + []);
    StepByStep(l, a, [b] + []);
    StepByStep(Step(l, a), b, []);
  }

  lemma ReviseCosts2(l: Life)
    requires Working(l)
    ensures var t := Run(l, REVISE);
            Working(t) && |t.visited| == |l.visited| + 2 && t.revisions == l.revisions + 1
            && t.retries == l.retries && t.recoveries == l.recoveries && t.demotions == l.demotions
  {
    RunTwo(l, To(Submitted), To(Executing));
  }

  lemma {:induction false} ManyRevisions(l: Life, n: nat)
    requires Working(l)
    ensures var t := Run(l, Rounds(REVISE, n));
            Working(t) && |t.visited| == |l.visited| + 2 * n && t.revisions == l.revisions + n
            && t.retries == l.retries && t.recoveries == l.recoveries && t.demotions == l.demotions
  {
    hide Working;
    if n > 0 {
      ManyRevisions(l, n - 1);
      RunInParts(l, Rounds(REVISE, n - 1), REVISE);
      ReviseCosts2(Run(l, Rounds(REVISE, n - 1)));
    }
  }

  lemma {:induction false} ManyLateFailures(l: Life, n: nat)
    requires Working(l)
    ensures var t := Run(l, Rounds(FAIL_LATE, n));
            Working(t) && |t.visited| == |l.visited| + 6 * n && t.retries == l.retries + n
            && t.revisions == l.revisions && t.recoveries == l.recoveries && t.demotions == l.demotions
  {
    hide Working;
    if n > 0 {
      ManyLateFailures(l, n - 1);
      RunInParts(l, Rounds(FAIL_LATE, n - 1), FAIL_LATE);
      FailLateCosts6(Run(l, Rounds(FAIL_LATE, n - 1)));
    }
  }

  const ACQUIRE := [To(Expected), To(Awarded), MakePlan, To(Executing)]
  const FINISH := [To(Submitted), To(Accepted), To(PayoutPending), To(Settled)]

  lemma RunFour(l: Life, a: Action, b: Action, c: Action, d: Action)
    ensures Run(l, [a, b, c, d]) == Step(Step(Step(Step(l, a), b), c), d)
  {
    assert [a, b, c, d] == [a, b] + [c, d];
    RunInParts(l, [a, b], [c, d]);
    RunTwo(l, a, b);
    RunTwo(Step(Step(l, a), b), c, d);
  }

  function Longest(r: nat, q: nat): seq<Action> {
    ((ACQUIRE + Rounds(REVISE, r)) + Rounds(FAIL_LATE, q)) + FINISH
  }

  /** For every r and q there is a run to SETTLED with exactly 7 + 2r + 6q changes. */
  lemma BoundIsMet(r: nat, q: nat)
    ensures var l := Run(Born(Discovered), Longest(r, q));
            && l.job.state.Settled? && l.revisions == r && l.retries == q && l.recoveries == 0 && l.demotions == 0
            && |l.visited| - 1 == 7 + 2 * r + 6 * q
  {
    var l0 := Born(Discovered);
    RunInParts(l0, ACQUIRE, Rounds(REVISE, r));
    RunInParts(l0, ACQUIRE + Rounds(REVISE, r), Rounds(FAIL_LATE, q));
    RunInParts(l0, (ACQUIRE + Rounds(REVISE, r)) + Rounds(FAIL_LATE, q), FINISH);
    Acquiring();
    ManyRevisions(Run(l0, ACQUIRE), r);
    ManyLateFailures(Run(Run(l0, ACQUIRE), Rounds(REVISE, r)), q);
    Finishing(Run(Run(Run(l0, ACQUIRE), Rounds(REVISE, r)), Rounds(FAIL_LATE, q)));
  }

  lemma FailLateCosts6(l: Life)
    requires Working(l)
    ensures var t := Run(l, FAIL_LATE);
            Working(t) && |t.visited| == |l.visited| + 6 && t.retries == l.retries + 1
            && t.revisions == l.revisions && t.recoveries == l.recoveries && t.demotions == l.demotions
  {
    hide Run, Step, Working;
    assert FAIL_LATE == SINK + RESCUE;
    RunInParts(l, SINK, RESCUE);
    Sinking(l);
    Rescuing(Run(l, SINK));
  }

  const SINK := [To(Submitted), To(Accepted), To(PayoutPending), To(Failed)]
  const RESCUE := [PlanStatus(true), Retry(true), To(Executing)]

  /** A failed job with a healthy plan and no submission row. */
  predicate Sunk(l: Life) {
    l.job == Job(Failed, Planned(false), false, true, false, false)
  }

  lemma Sinking(l: Life)
    requires Working(l)
    ensures var t := Run(l, SINK);
            Sunk(t) && |t.visited| == |l.visited| + 4 && t.retries == l.retries
            && t.revisions == l.revisions && t.recoveries == l.recoveries && t.demotions == l.demotions
  {
    RunFour(l, To(Submitted), To(Accepted), To(PayoutPending), To(Failed));
  }

  lemma Rescuing(l: Life)
    requires Sunk(l)
    ensures var t := Run(l, RESCUE);
            Working(t) && |t.visited| == |l.visited| + 2 && t.retries == l.retries + 1
            && t.revisions == l.revisions && t.recoveries == l.recoveries && t.demotions == l.demotions
  {
    assert RESCUE == [PlanStatus(true)] + [Retry(true), To(Executing)];
    StepByStep(l, PlanStatus(true), [Retry(true), To(Executing)]);
    RunTwo(Step(l, PlanStatus(true)), Retry(true), To(Executing));
  }

  lemma Acquiring()
    ensures var l := Run(Born(Discovered), ACQUIRE);
            Working(l) && |l.visited| == 4 && l.revisions == l.retries == l.recoveries == l.demotions == 0
  {
    RunFour(Born(Discovered), To(Expected), To(Awarded), MakePlan, To(Executing));
  }

  lemma Finishing(l: Life)
    requires Working(l)
    ensures var t := Run(l, FINISH);
            && t.job.state.Settled? && |t.visited| == |l.visited| + 4
            && t.revisions == l.revisions && t.retries == l.retries
            && t.recoveries == l.recoveries && t.demotions == l.demotions
  {
    RunFour(l, To(Submitted), To(Accepted), To(PayoutPending), To(Settled));
  }
}

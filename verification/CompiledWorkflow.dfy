/**
 * The compiler and the executor together (planning/services.py, lines 350-464 and 667-777):
 * what the first call does to a plan built from a raw step list under the same step bound.
 */
module CompiledWorkflow {
  import opened Prelude
  import opened TopologicalSteps
  import opened OrderTheorems
  import opened CompositeBuild
  import P = CompositePlan
  import opened CompositeProgress

  lemma {:induction false} UncomplainingListIsDistinct(raw: seq<RawStep>)
    requires Accept(raw).log == []
    ensures |Accept(raw).byKey| == |raw|
  {
    if raw != [] {
      var before, step := Accept(raw[..|raw| - 1]), raw[|raw| - 1];
      UncomplainingListIsDistinct(raw[..|raw| - 1]);
      assert Accept(raw).byKey.Keys == before.byKey.Keys + {step.key};
    }
  }

  lemma {:induction false} DistinctLength(order: seq<string>)
    requires NoDuplicates(order)
    ensures |Members(order)| == |order|
  {
    if order != [] {
      var front, last := order[..|order| - 1], order[|order| - 1];
      DistinctLength(front);
      MembersAppend(front, last);
      assert order == front + [last];
    }
  }

  /** Every raw step becomes one row. */
  lemma EveryStepHasARow(raw: seq<RawStep>)
    requires ReasonsFor(Accept(raw)) == []
    ensures |OrderFor(Accept(raw))| == |raw|
  {
    var g := GraphOf(Accept(raw).byKey);
    NoComplaintsMeansValid(raw);
    UncomplainingListIsDistinct(raw);
    CanonicalOrderIsLayered(g);
    OrderLength(raw);
    hide CanonicalOrder, Accept, ReasonsFor, OrderFor, Depth;
    var order := CanonicalOrder(g);
    forall i, j | 0 <= i < j < |order| ensures order[i] != order[j] { BeforeIsStrict(g, order[i], order[j]); }
    DistinctLength(order);
    assert g.Keys == Accept(raw).byKey.Keys;
  }

  /** The plan as `plan_awarded_job` leaves it for rows that were built. */
  function NewPlan(rows: seq<P.StepRow>): P.PlanState {
    P.PlanState(P.Ready, [], 0, 0, rows)
  }

  /**
   * Compiled under a bound and called under the same bound, as built or once queued, a workflow
   * runs its steps in the canonical order, each once and never before its dependencies, up to the
   * first that does not pass; it ends QA_PASSED exactly when every step passes and there are fewer
   * steps than the bound. A workflow that fills the bound is accepted and can never end QA_PASSED.
   */
  lemma CompiledWorkflowRunsInOrder(raw: seq<RawStep>, maximum: nat, ctx: Context, world: World, queued: bool)
    requires BuildFrom(raw, maximum, ctx).Rows?
    ensures var rows := BuildFrom(raw, maximum, ctx).rows;
            var plan := if queued then NewPlan(rows).(status := P.Queued) else NewPlan(rows);
            var r := P.Call(plan, maximum, world);
            && |rows| == |raw|
            && r.ran == Range(0, |r.ran|)
            && (forall i, d :: 0 <= i < |rows| && d in rows[i].dependsOn ==> d < i)
            && (r.plan.status == P.QaPassed <==> |raw| < maximum && AllFrom(0, |raw|, world))
  {
    hide Accept, OrderFor, ReasonsFor, Complaints, LinksAreUnique, P.Call, AllFrom, LinkedAsDeclared;
    BuiltPlanIsFresh(raw, maximum, ctx);
    EveryStepHasARow(raw);
    var plan := NewPlan(BuildFrom(raw, maximum, ctx).rows);
    FirstCall(if queued then plan.(status := P.Queued) else plan, maximum, world);
  }

  /** Listing the steps of a valid workflow in another order changes nothing that follows. */
  lemma CompiledWorkflowIgnoresListOrder(a: seq<RawStep>, b: seq<RawStep>, maximum: nat, ctx: Context)
    requires ValidSteps(a) && multiset(a) == multiset(b)
    ensures BuildFrom(a, maximum, ctx) == BuildFrom(b, maximum, ctx)
  {
    hide Accept, OrderFor, ReasonsFor, Complaints, LinksAreUnique, FinalRows, ValidSteps;
    PermutingStepsChangesNothing(a, b);
    assert |multiset(a)| == |multiset(b)|;
  }
}

/**
 * The acceptance rows of one job and the gate in front of submission (planning/acceptance.py,
 * lines 105-143 and 194-265): methods over the rows, and what holds over every run of them.
 */
module AcceptanceGate {
  import opened Prelude
  import opened Acceptance

  /** Contract rows, and at most one evaluation row per execution. */
  datatype Rows = Rows(contracts: seq<Contract>, evaluations: map<nat, Evaluation>)

  function AfterCompile(rows: Rows, job: Job, hash: Hash): Rows {
    rows.(contracts := Compiled(rows.contracts, job, hash).0)
  }

  function NewEvaluation(rows: Rows, job: Job, hash: Hash, facts: Facts): Evaluation {
    var (contracts, i) := Compiled(rows.contracts, job, hash);
    Evaluated(contracts, i, job, hash, facts)
  }

  function AfterEvaluate(rows: Rows, id: nat, job: Job, hash: Hash, facts: Facts): Rows {
    Rows(Compiled(rows.contracts, job, hash).0, rows.evaluations[id := NewEvaluation(rows, job, hash, facts)])
  }

  function Blocked(e: Evaluation): seq<Failure> {
    if e.failures != [] then e.failures else [SemanticState(e.semantic)]
  }

  datatype Gate = Gate(rows: Rows, result: Result<Evaluation, seq<Failure>>)

  /** An evaluation row of the current contract is reused, otherwise the execution is evaluated now. */
  function Required(rows: Rows, id: nat, job: Job, hash: Hash, facts: Facts): Gate {
    var s := if CurrentIndex(rows.contracts).None? then AfterCompile(rows, job, hash) else rows;
    CurrentInRange(rows.contracts);
    var found := CurrentIndex(rows.contracts);
    var current := if found.None? then Compiled(rows.contracts, job, hash).1 else found.value;
    if s.contracts[current].hash != hash(SourceMaterial(job)) then
      Gate(AfterCompile(s, job, hash), Err([ContractStale]))
    else
      var cached := id in s.evaluations && s.evaluations[id].contract == current;
      var e := if cached then s.evaluations[id] else NewEvaluation(s, job, hash, facts);
      Gate(if cached then s else AfterEvaluate(s, id, job, hash, facts), if e.ready then Ok(e) else Err(Blocked(e)))
  }

  class Desk {
    const hash: Hash
    var contracts: seq<Contract>
    var evaluations: map<nat, Evaluation>

    ghost function View(): Rows
      reads this
    {
      Rows(contracts, evaluations)
    }

    constructor (hash: Hash)
      ensures this.hash == hash && View() == Rows([], map[])
    {
      this.hash := hash;
      contracts, evaluations := [], map[];
    }

    method CompileContract(job: Job) returns (i: nat)
      modifies this
      ensures View() == AfterCompile(old(View()), job, hash)
      ensures i == Compiled(old(contracts), job, hash).1 < |contracts|
    {
      CurrentInRange(contracts);
      var material := SourceMaterial(job);
      var fingerprint := hash(material);
      var current := CurrentIndex(contracts);
      if current.Some? && contracts[current.value].hash == fingerprint
         && contracts[current.value].compiler == COMPILER_VERSION {
        return current.value;
      }
      if current.Some? {
        var previous := contracts[current.value];
        contracts := contracts[current.value := previous.(current := false, stale := true, changed := true)];
      }
      var version := MaxVersion(contracts) + 1;
      i := |contracts|;
      contracts := contracts
                   + [Contract(version, true, false, fingerprint, COMPILER_VERSION, false, material, Criteria(job))];
    }

    method SemanticEvaluation(evidence: Option<Evidence>, criteria: seq<Criterion>)
      returns (state: Judgment, failures: seq<Failure>)
      ensures (state, failures) == SemanticResult(evidence, criteria)
    {
      failures := [];
      if criteria == [] {
        return Pass, [];
      }
      if evidence.None? {
        return Uncertain, [SemanticEvidenceMissing];
      }
      state := Known(evidence.value.status);
      var overall := state;
      var anyFail := false;
      for i := 0 to |criteria|
        invariant failures == FailuresOf(evidence.value, criteria[..i])
        invariant anyFail == AnyFail(failures)
      {
        assert criteria[..i + 1][..i] == criteria[..i];
        var criterion := criteria[i];
        var results := evidence.value.results;
        var judgment := if criterion.kind in results then results[criterion.kind] else overall;
        judgment := Known(judgment);
        if judgment != Pass && criterion.critical {
          ghost var before := failures;
          failures := failures + [Semantic(judgment, criterion.kind)];
          AnyFailExtended(before, Semantic(judgment, criterion.kind));
          anyFail := anyFail || judgment == Fail;
        }
      }
      assert criteria[..|criteria|] == criteria;
      if failures != [] && state == Pass {
        state := if anyFail then Fail else Uncertain;
      }
    }

    method DeterministicEvaluation(plan: Option<Plan>, facts: Facts) returns (failures: seq<Failure>)
      ensures failures == DeterministicFailures(plan, facts)
    {
      failures := [];
      if !facts.artifact {
        failures := failures + [ArtifactMissing];
      }
      if facts.qa != Some(true) {
        failures := failures + [DeterministicQaFailed];
      }
      if plan.Some? && plan.value.coding {
        if !(plan.value.hasTestCommand && facts.exitCode == Some(0)) {
          failures := failures + [CodingTestEvidenceFailed];
        }
      }
    }

    method EvaluateExecution(id: nat, job: Job, facts: Facts) returns (e: Evaluation)
      modifies this
      ensures View() == AfterEvaluate(old(View()), id, job, hash, facts)
      ensures e == NewEvaluation(old(View()), job, hash, facts)
    {
      hide Compiled, DeterministicFailures, SemanticResult, SourceMaterial, SemanticOnly;
      var i := CompileContract(job);
      var contract := contracts[i];
      var failures := DeterministicEvaluation(job.plan, facts);
      var deterministic := failures == [];
      var state, semantic := SemanticEvaluation(facts.evidence, SemanticOnly(contract.criteria));
      failures := failures + semantic;
      assert failures + [] == failures;
      if contract.hash != hash(SourceMaterial(job)) || !contract.current {
        failures := failures + [ContractStale];
      }
      var ready := deterministic && state == Pass && failures == [];
      e := Evaluation(i, deterministic, state, ready, FirstOccurrences(failures));
      evaluations := evaluations[id := e];
    }

    method RequireSubmissionReady(id: nat, job: Job, facts: Facts) returns (r: Result<Evaluation, seq<Failure>>)
      modifies this
      ensures Gate(View(), r) == Required(old(View()), id, job, hash, facts)
    {
      hide Compiled, Evaluated, SourceMaterial;
      CurrentInRange(contracts);
      var found := CurrentIndex(contracts);
      var current;
      if found.None? {
        current := CompileContract(job);
      } else {
        current := found.value;
      }
      if contracts[current].hash != hash(SourceMaterial(job)) {
        var _ := CompileContract(job);
        return Err([ContractStale]);
      }
      var evaluation;
      if id in evaluations && evaluations[id].contract == current {
        evaluation := evaluations[id];
      } else {
        evaluation := EvaluateExecution(id, job, facts);
      }
      if !evaluation.ready {
        return Err(if evaluation.failures != [] then evaluation.failures else [SemanticState(evaluation.semantic)]);
      }
      r := Ok(evaluation);
    }
  }

  lemma AnyFailExtended(failures: seq<Failure>, f: Failure)
    requires f.Semantic?
    ensures AnyFail(failures + [f]) <==> AnyFail(failures) || f.judgment.Fail?
  {
    assert forall i :: 0 <= i < |failures| ==> (failures + [f])[i] == failures[i];
    if f.judgment.Fail? { assert (failures + [f])[|failures|].judgment.Fail?; }
    if i :| 0 <= i < |failures| && failures[i].Semantic? && failures[i].judgment.Fail? {
      assert (failures + [f])[i].judgment.Fail?;
    }
  }

  // ---------------------------------------------------------------- runs

  datatype Action =
    | Compile(job: Job)
    | Evaluate(id: nat, job: Job, facts: Facts)
    | Submit(id: nat, job: Job, facts: Facts)

  /**
   * The rows; for each evaluation row the sources and facts it was computed from; for each contract
   * the sources it was compiled from.
   */
  datatype History = History(rows: Rows, basis: map<nat, (Job, Facts)>, sources: seq<Job>)

  function WithRows(h: History, rows: Rows, job: Job): History {
    h.(rows := rows, sources := if |rows.contracts| > |h.rows.contracts| then h.sources + [job] else h.sources)
  }

  function Next(h: History, a: Action, hash: Hash): History {
    match a
    case Compile(job) => WithRows(h, AfterCompile(h.rows, job, hash), job)
    case Evaluate(id, job, facts) =>
      WithRows(h.(basis := h.basis[id := (job, facts)]), AfterEvaluate(h.rows, id, job, hash, facts), job)
    case Submit(id, job, facts) =>
      var rows := Required(h.rows, id, job, hash, facts).rows;
      var basis := if rows.evaluations == h.rows.evaluations then h.basis else h.basis[id := (job, facts)];
      WithRows(h.(basis := basis), rows, job)
  }

  function Play(actions: seq<Action>, hash: Hash): History {
    if actions == [] then History(Rows([], map[]), map[], [])
    else Next(Play(actions[..|actions| - 1], hash), actions[|actions| - 1], hash)
  }

  lemma PlayOneMore(actions: seq<Action>, a: Action, hash: Hash)
    ensures Play([], hash) == History(Rows([], map[]), map[], [])
    ensures Play(actions + [a], hash) == Next(Play(actions, hash), a, hash)
  {
    assert (actions + [a])[..|actions|] == actions;
  }

  ghost predicate RowJustified(contracts: seq<Contract>, e: Evaluation, basis: (Job, Facts), hash: Hash) {
    && e.contract < |contracts|
    && contracts[e.contract].hash == hash(SourceMaterial(basis.0))
    && (e.ready <==> Meets(basis.1, basis.0.plan, contracts[e.contract].criteria))
  }

  ghost predicate Justified(h: History, hash: Hash) {
    && Versioned(h.rows.contracts, hash)
    && (forall i :: 0 <= i < |h.rows.contracts| ==> h.rows.contracts[i].compiler == COMPILER_VERSION)
    && forall id :: id in h.rows.evaluations ==>
         id in h.basis && RowJustified(h.rows.contracts, h.rows.evaluations[id], h.basis[id], hash)
  }

  lemma CompileKeepsJustified(h: History, job: Job, hash: Hash)
    requires Justified(h, hash)
    ensures Justified(h.(rows := AfterCompile(h.rows, job, hash)), hash)
    ensures forall e, b: (Job, Facts) :: RowJustified(h.rows.contracts, e, b, hash) ==>
              RowJustified(AfterCompile(h.rows, job, hash).contracts, e, b, hash)
  {
    hide Meets, SourceMaterial, Criteria;
    CompileKeepsVersioned(h.rows.contracts, job, hash);
    var after := Compiled(h.rows.contracts, job, hash).0;
    assert forall k :: 0 <= k < |h.rows.contracts| ==> after[k].hash == h.rows.contracts[k].hash;
    hide Versioned;
  }

  lemma EvaluateKeepsJustified(h: History, id: nat, job: Job, facts: Facts, hash: Hash)
    requires Justified(h, hash)
    ensures Justified(h.(rows := AfterEvaluate(h.rows, id, job, hash, facts),
                         basis := h.basis[id := (job, facts)]), hash)
    ensures NewEvaluation(h.rows, job, hash, facts).contract ==
              |AfterEvaluate(h.rows, id, job, hash, facts).contracts| - 1
  {
    hide Meets, SourceMaterial, Versioned, RowJustified;
    CompileKeepsJustified(h, job, hash);
    NewRowJustified(h, job, facts, hash);
    hide NewEvaluation;
  }

  lemma NewRowJustified(h: History, job: Job, facts: Facts, hash: Hash)
    requires Versioned(h.rows.contracts, hash)
    ensures var e := NewEvaluation(h.rows, job, hash, facts);
            var contracts := Compiled(h.rows.contracts, job, hash).0;
            RowJustified(contracts, e, (job, facts), hash) && e.contract == |contracts| - 1
  {
    hide Meets, SourceMaterial, Versioned, SemanticResult, DeterministicFailures, FirstOccurrences, SemanticOnly;
    CompileKeepsVersioned(h.rows.contracts, job, hash);
    ReadyIff(h.rows.contracts, job, hash, facts);
    hide Compiled;
  }

  lemma SubmitKeepsJustified(h: History, id: nat, job: Job, facts: Facts, hash: Hash)
    requires Justified(h, hash)
    ensures Justified(Next(h, Submit(id, job, facts), hash), hash)
  {
    SubmittedRowsAreJustified(h, id, job, facts, hash);
    hide Justified, Required;
    var rows := Required(h.rows, id, job, hash, facts).rows;
    var basis := if rows.evaluations == h.rows.evaluations then h.basis else h.basis[id := (job, facts)];
    JustifiedIgnoresSources(h.(rows := rows, basis := basis), Next(h, Submit(id, job, facts), hash), hash);
  }

  lemma SubmittedRowsAreJustified(h: History, id: nat, job: Job, facts: Facts, hash: Hash)
    requires Justified(h, hash)
    ensures var rows := Required(h.rows, id, job, hash, facts).rows;
            var basis := if rows.evaluations == h.rows.evaluations then h.basis else h.basis[id := (job, facts)];
            Justified(h.(rows := rows, basis := basis), hash)
  {
    hide Compiled, NewEvaluation, Justified;
    var rows := h.rows;
    CurrentInRange(rows.contracts);
    var first := CurrentIndex(rows.contracts).None?;
    var g := if first then h.(rows := AfterCompile(rows, job, hash)) else h;
    if first { CompileKeepsJustified(h, job, hash); }
    CompileKeepsJustified(g, job, hash);
    EvaluateKeepsJustified(g, id, job, facts, hash);
    SameEvaluationKeepsJustified(g, id, job, facts, hash);
  }

  /** An evaluation row that comes out as it was is justified by either basis. */
  lemma SameEvaluationKeepsJustified(h: History, id: nat, job: Job, facts: Facts, hash: Hash)
    requires Justified(h, hash)
    ensures AfterEvaluate(h.rows, id, job, hash, facts).evaluations == h.rows.evaluations ==>
              Justified(h.(rows := AfterEvaluate(h.rows, id, job, hash, facts)), hash)
  {
    hide NewEvaluation, RowJustified, Compiled, Versioned;
    CompileKeepsJustified(h, job, hash);
  }

  lemma {:induction false} RunsAreJustified(actions: seq<Action>, hash: Hash)
    ensures Justified(Play(actions, hash), hash)
  {
    if actions != [] {
      var h, a := Play(actions[..|actions| - 1], hash), actions[|actions| - 1];
      RunsAreJustified(actions[..|actions| - 1], hash);
      hide Justified, Required, AfterCompile, AfterEvaluate;
      match a
      case Compile(job) =>
        CompileKeepsJustified(h, job, hash);
        JustifiedIgnoresSources(h.(rows := AfterCompile(h.rows, job, hash)), Next(h, a, hash), hash);
      case Evaluate(id, job, facts) =>
        EvaluateKeepsJustified(h, id, job, facts, hash);
        var g := h.(rows := AfterEvaluate(h.rows, id, job, hash, facts), basis := h.basis[id := (job, facts)]);
        JustifiedIgnoresSources(g, Next(h, a, hash), hash);
      case Submit(id, job, facts) => SubmitKeepsJustified(h, id, job, facts, hash);
    }
  }

  lemma JustifiedIgnoresSources(g: History, h: History, hash: Hash)
    requires Justified(g, hash) && h.rows == g.rows && h.basis == g.basis
    ensures Justified(h, hash)
  {
  }

  /** In every run the versions are 1..n and exactly the newest contract is current. */
  lemma VersionsAreConsecutive(actions: seq<Action>, hash: Hash, i: nat)
    ensures var contracts := Play(actions, hash).rows.contracts;
            i < |contracts| ==> contracts[i].version == i + 1 && (contracts[i].current <==> i == |contracts| - 1)
  {
    hide Play;
    RunsAreJustified(actions, hash);
  }

  /**
   * The gate lets an execution through only with a ready evaluation of the newest contract,
   * whose hash is that of the sources at that moment; and that execution had met the contract's
   * criteria, with sources of the same hash.
   */
  lemma GateRequiresReady(actions: seq<Action>, hash: Hash, id: nat, job: Job, facts: Facts)
    requires Required(Play(actions, hash).rows, id, job, hash, facts).result.Ok?
    ensures var g := Required(Play(actions, hash).rows, id, job, hash, facts);
            var h := Next(Play(actions, hash), Submit(id, job, facts), hash);
            var e, n := g.result.value, |g.rows.contracts|;
            && n > 0 && e.ready && e.contract == n - 1
            && id in g.rows.evaluations && g.rows.evaluations[id] == e
            && g.rows.contracts[n - 1].hash == hash(SourceMaterial(job))
            && id in h.basis && hash(SourceMaterial(h.basis[id].0)) == hash(SourceMaterial(job))
            && Meets(h.basis[id].1, h.basis[id].0.plan, g.rows.contracts[n - 1].criteria)
  {
    var before := Play(actions, hash);
    RunsAreJustified(actions, hash);
    SubmitKeepsJustified(before, id, job, facts, hash);
    GateIsOnNewest(before, id, job, facts, hash);
    hide Required, Play, Meets;
    var h := Next(before, Submit(id, job, facts), hash);
    assert RowJustified(h.rows.contracts, h.rows.evaluations[id], h.basis[id], hash);
  }

  lemma GateIsOnNewest(h: History, id: nat, job: Job, facts: Facts, hash: Hash)
    requires Justified(h, hash)
    ensures var g := Required(h.rows, id, job, hash, facts);
            g.result.Ok? ==>
              var e, n := g.result.value, |g.rows.contracts|;
              && n > 0 && e.ready && e.contract == n - 1
              && id in g.rows.evaluations && g.rows.evaluations[id] == e
              && g.rows.contracts[n - 1].hash == hash(SourceMaterial(job))
  {
    hide Compiled, NewEvaluation, SourceMaterial;
    var rows := h.rows;
    CurrentIsNewest(rows.contracts, hash);
    var g := if rows.contracts == [] then h.(rows := AfterCompile(rows, job, hash)) else h;
    CompileReturnsNewest(h, job, hash);
    CompileKeepsJustified(h, job, hash);
    CompileReturnsNewest(g, job, hash);
    EvaluateKeepsJustified(g, id, job, facts, hash);
  }

  lemma CompileReturnsNewest(h: History, job: Job, hash: Hash)
    requires Justified(h, hash)
    ensures var (after, i) := Compiled(h.rows.contracts, job, hash);
            i == |after| - 1 && after[i].hash == hash(SourceMaterial(job))
            && (h.rows.contracts != [] && h.rows.contracts[|h.rows.contracts| - 1].hash == hash(SourceMaterial(job)) ==>
                after == h.rows.contracts)
  {
  }

  /**
   * When the gate opens: with changed sources never; with an evaluation row of the newest contract
   * by the facts that row was computed from, not by today's; otherwise by today's facts.
   */
  lemma GateOpensIff(actions: seq<Action>, hash: Hash, id: nat, job: Job, facts: Facts)
    ensures var h := Play(actions, hash);
            var contracts, evaluations, n := h.rows.contracts, h.rows.evaluations, |h.rows.contracts|;
            var r := Required(h.rows, id, job, hash, facts).result;
            if n == 0 then r.Ok? <==> Meets(facts, job.plan, Criteria(job))
            else if contracts[n - 1].hash != hash(SourceMaterial(job)) then r == Err([ContractStale])
            else if id in evaluations && evaluations[id].contract == n - 1 then
              id in h.basis && (r.Ok? <==> Meets(h.basis[id].1, h.basis[id].0.plan, contracts[n - 1].criteria))
            else r.Ok? <==> Meets(facts, job.plan, contracts[n - 1].criteria)
  {
    RunsAreJustified(actions, hash);
    var h := Play(actions, hash);
    var g := h.(rows := AfterCompile(h.rows, job, hash));
    hide Play, Compiled, NewEvaluation, Meets, SourceMaterial, Criteria;
    CurrentIsNewest(h.rows.contracts, hash);
    CompileReturnsNewest(h, job, hash);
    CompileKeepsJustified(h, job, hash);
    CompileReturnsNewest(g, job, hash);
    NewRowJustified(h, job, facts, hash);
    NewRowJustified(g, job, facts, hash);
    FirstContract(h.rows.contracts, job, hash);
  }

  lemma FirstContract(contracts: seq<Contract>, job: Job, hash: Hash)
    ensures contracts == [] ==>
              |Compiled(contracts, job, hash).0| == 1 && Compiled(contracts, job, hash).0[0].criteria == Criteria(job)
  {
  }

  /**
   * With an injective hash the evaluated sources are the current ones, so the plan the execution
   * was judged by is the plan it is submitted under.
   */
  lemma SubmittedUnderJudgedPlan(actions: seq<Action>, hash: Hash, id: nat, job: Job, facts: Facts)
    requires forall a: Material, b: Material :: hash(a) == hash(b) ==> a == b
    requires Required(Play(actions, hash).rows, id, job, hash, facts).result.Ok?
    ensures var g := Required(Play(actions, hash).rows, id, job, hash, facts);
            var h := Next(Play(actions, hash), Submit(id, job, facts), hash);
            && id in h.basis && SourceMaterial(h.basis[id].0) == SourceMaterial(job)
            && g.rows.contracts[|g.rows.contracts| - 1].material == SourceMaterial(job)
            && Meets(h.basis[id].1, job.plan, g.rows.contracts[|g.rows.contracts| - 1].criteria)
  {
    GateRequiresReady(actions, hash, id, job, facts);
    RunsAreJustified(actions, hash);
    SubmitKeepsJustified(Play(actions, hash), id, job, facts, hash);
    hide Required, Play, Meets;
  }

  lemma CurrentIsNewest(contracts: seq<Contract>, hash: Hash)
    requires Versioned(contracts, hash)
    ensures CurrentIndex(contracts) == if contracts == [] then None else Some(|contracts| - 1)
  {
  }

  // ---------------------------------------------------------------- the job's own criteria

  /** Every contract asks for the criteria of the sources it was compiled from. */
  ghost predicate Sourced(h: History) {
    && |h.sources| == |h.rows.contracts|
    && forall i :: 0 <= i < |h.sources| ==>
         && h.rows.contracts[i].criteria == Criteria(h.sources[i])
         && h.rows.contracts[i].material == SourceMaterial(h.sources[i])
  }

  /** The contracts as they were, or with one more compiled from the job. */
  ghost predicate Grown(before: seq<Contract>, after: seq<Contract>, job: Job) {
    && |before| <= |after| <= |before| + 1
    && (forall i :: 0 <= i < |before| ==>
          after[i].criteria == before[i].criteria && after[i].material == before[i].material)
    && (|after| > |before| ==>
          after[|before|].criteria == Criteria(job) && after[|before|].material == SourceMaterial(job))
  }

  lemma CompileGrows(contracts: seq<Contract>, job: Job, hash: Hash)
    ensures Grown(contracts, Compiled(contracts, job, hash).0, job)
  {
    CurrentInRange(contracts);
    hide Criteria, SourceMaterial;
  }

  lemma SubmitGrows(rows: Rows, id: nat, job: Job, hash: Hash, facts: Facts)
    requires Versioned(rows.contracts, hash)
    ensures Grown(rows.contracts, Required(rows, id, job, hash, facts).rows.contracts, job)
  {
    CompileGrows(rows.contracts, job, hash);
    RecompilingIsNoOp(rows.contracts, job, hash);
    CurrentIsNewest(rows.contracts, hash);
    hide Compiled, NewEvaluation, Versioned, Criteria, SourceMaterial;
  }

  lemma {:induction false} RunsAreSourced(actions: seq<Action>, hash: Hash)
    ensures Sourced(Play(actions, hash))
  {
    if actions != [] {
      var h, a := Play(actions[..|actions| - 1], hash), actions[|actions| - 1];
      RunsAreSourced(actions[..|actions| - 1], hash);
      RunsAreJustified(actions[..|actions| - 1], hash);
      hide Sourced, Versioned, Next, RowJustified;
      NextKeepsSourced(h, a, hash);
    }
  }

  lemma NextKeepsSourced(h: History, a: Action, hash: Hash)
    requires Sourced(h) && Versioned(h.rows.contracts, hash)
    ensures Sourced(Next(h, a, hash))
  {
    hide Sourced, Versioned, Required, Compiled, NewEvaluation, Grown;
    CompileGrows(h.rows.contracts, a.job, hash);
    if a.Submit? { SubmitGrows(h.rows, a.id, a.job, hash, a.facts); }
    GrownKeepsSourced(h, Next(h, a, hash), a.job);
  }

  lemma GrownKeepsSourced(g: History, h: History, job: Job)
    requires Sourced(g) && Grown(g.rows.contracts, h.rows.contracts, job)
    requires h.sources == if |h.rows.contracts| > |g.rows.contracts| then g.sources + [job] else g.sources
    ensures Sourced(h)
  {
    hide Criteria, SourceMaterial;
  }

  /**
   * The gate never opens without the judged evidence when the contract was compiled from sources
   * that state a criterion: the evidence exists, says PASS, and has no other judgment of a criterion.
   */
  lemma GateDemandsEvidence(actions: seq<Action>, hash: Hash, id: nat, job: Job, facts: Facts)
    requires Required(Play(actions, hash).rows, id, job, hash, facts).result.Ok?
    ensures var h := Next(Play(actions, hash), Submit(id, job, facts), hash);
            && |h.sources| > 0 && id in h.basis
            && var texts := ExplicitAcceptance(h.sources[|h.sources| - 1]);
               |texts| > 0 ==>
                 && h.basis[id].1.evidence.Some?
                 && var evidence := h.basis[id].1.evidence.value;
                    && evidence.status == Pass
                    && forall k: nat :: 1 <= k <= |texts| && SourceCriterion(k) in evidence.results ==>
                         evidence.results[SourceCriterion(k)] == Pass
  {
    hide Required, Play, ExplicitAcceptance, Criteria, Meets, SourceMaterial;
    var g := Required(Play(actions, hash).rows, id, job, hash, facts);
    var h := Next(Play(actions, hash), Submit(id, job, facts), hash);
    assert h.rows == g.rows;
    PassedIsSourced(actions, hash, id, job, facts);
    GateRequiresReady(actions, hash, id, job, facts);
    hide *;
    var source := h.sources[|h.sources| - 1];
    if |ExplicitAcceptance(source)| > 0 { MeetsDemandsEvidence(h.basis[id].1, h.basis[id].0.plan, source); }
  }

  lemma PassedIsSourced(actions: seq<Action>, hash: Hash, id: nat, job: Job, facts: Facts)
    ensures var h := Next(Play(actions, hash), Submit(id, job, facts), hash);
            && |h.sources| == |h.rows.contracts|
            && forall i :: 0 <= i < |h.sources| ==>
                 && h.rows.contracts[i].criteria == Criteria(h.sources[i])
                 && h.rows.contracts[i].hash == hash(SourceMaterial(h.sources[i]))
  {
    var all := actions + [Submit(id, job, facts)];
    PlayOneMore(actions, Submit(id, job, facts), hash);
    RunsAreSourced(all, hash);
    RunsAreJustified(all, hash);
    hide Play, Next, Criteria, SourceMaterial;
  }

  lemma MeetsDemandsEvidence(facts: Facts, plan: Option<Plan>, source: Job)
    requires Meets(facts, plan, Criteria(source)) && |ExplicitAcceptance(source)| > 0
    ensures facts.evidence.Some? && facts.evidence.value.status == Pass
    ensures forall k: nat :: 1 <= k <= |ExplicitAcceptance(source)|
                             && SourceCriterion(k) in facts.evidence.value.results ==>
              facts.evidence.value.results[SourceCriterion(k)] == Pass
  {
    SemanticIffExplicit(source);
    hide Criteria, ExplicitAcceptance;
  }

  /**
   * The same for what the job states at the moment of submission, exactly up to shadowing: the hash
   * being injective, only a contract compiled while the texts were hidden can let it through without.
   */
  lemma GateDemandsEvidenceOfJob(actions: seq<Action>, hash: Hash, id: nat, job: Job, facts: Facts)
    requires forall a: Material, b: Material :: hash(a) == hash(b) ==> a == b
    requires WellFormed(job.snake) && WellFormed(job.camel) && |ExplicitAcceptance(job)| > 0
    requires Required(Play(actions, hash).rows, id, job, hash, facts).result.Ok?
    ensures var h := Next(Play(actions, hash), Submit(id, job, facts), hash);
            && |h.sources| > 0 && id in h.basis
            && (Shadowed(h.sources[|h.sources| - 1])
                || (ExplicitAcceptance(h.sources[|h.sources| - 1]) == ExplicitAcceptance(job)
                    && h.basis[id].1.evidence.Some? && h.basis[id].1.evidence.value.status == Pass))
  {
    var g := Required(Play(actions, hash).rows, id, job, hash, facts);
    var h := Next(Play(actions, hash), Submit(id, job, facts), hash);
    assert h.rows == g.rows;
    PassedIsSourced(actions, hash, id, job, facts);
    GateRequiresReady(actions, hash, id, job, facts);
    GateDemandsEvidence(actions, hash, id, job, facts);
    hide *;
    SameMaterialShowsTexts(h.sources[|h.sources| - 1], job);
  }

  lemma SameMaterialShowsTexts(a: Job, b: Job)
    requires SourceMaterial(a) == SourceMaterial(b) && WellFormed(b.snake) && WellFormed(b.camel)
    requires |ExplicitAcceptance(b)| > 0
    ensures Shadowed(a) || ExplicitAcceptance(a) == ExplicitAcceptance(b)
  {
  }

  /** Two versions of a job's payload with one hash: an empty snake-case key, then none. */
  const HIDING := Job(Some(Text("", true)), Some(List(["cites three sources"])), None, 0)
  const SHOWING := HIDING.(snake := None)
  const UNJUDGED := Facts(true, Some(true), None, None)

  /** That does happen: compiled while hidden, the contract lets a job through that states a criterion. */
  lemma ShadowedContractOpensGate(hash: Hash)
    ensures |ExplicitAcceptance(SHOWING)| == 1
    ensures Required(Play([Compile(HIDING)], hash).rows, 0, SHOWING, hash, UNJUDGED).result.Ok?
    ensures Required(Play([Compile(SHOWING)], hash).rows, 0, SHOWING, hash, UNJUDGED).result.Err?
  {
    HiddenTexts();
    CompiledOnce(HIDING, hash);
    CompiledOnce(SHOWING, hash);
    GateOpensIff([Compile(HIDING)], hash, 0, SHOWING, UNJUDGED);
    GateOpensIff([Compile(SHOWING)], hash, 0, SHOWING, UNJUDGED);
    SemanticIffExplicit(HIDING);
    SemanticIffExplicit(SHOWING);
    hide Play, Compiled, Criteria, SourceMaterial, ExplicitAcceptance, Required;
  }

  lemma HiddenTexts()
    ensures |ExplicitAcceptance(HIDING)| == 0 && |ExplicitAcceptance(SHOWING)| == 1
    ensures SourceMaterial(HIDING) == SourceMaterial(SHOWING)
  {
  }

  lemma CompiledOnce(job: Job, hash: Hash)
    ensures var rows := Play([Compile(job)], hash).rows;
            && rows.evaluations == map[] && |rows.contracts| == 1
            && rows.contracts[0].criteria == Criteria(job) && rows.contracts[0].hash == hash(SourceMaterial(job))
  {
    PlayOneMore([], Compile(job), hash);
    assert [] + [Compile(job)] == [Compile(job)];
    FirstContract([], job, hash);
    hide Criteria, SourceMaterial;
  }

  /**
   * What a refusal says: that the sources changed, or the failures of the evaluation row that was
   * looked at, or, when that row has none, the state of its semantic judgment. Never nothing.
   */
  lemma RefusalSays(actions: seq<Action>, hash: Hash, id: nat, job: Job, facts: Facts)
    requires Required(Play(actions, hash).rows, id, job, hash, facts).result.Err?
    ensures var contracts := Play(actions, hash).rows.contracts;
            var g := Required(Play(actions, hash).rows, id, job, hash, facts);
            if |contracts| > 0 && contracts[|contracts| - 1].hash != hash(SourceMaterial(job))
            then g.result.error == [ContractStale]
            else
              && id in g.rows.evaluations && !g.rows.evaluations[id].ready
              && g.rows.evaluations[id].contract == |g.rows.contracts| - 1
              && (|g.rows.evaluations[id].failures| > 0 ==> g.result.error == g.rows.evaluations[id].failures)
              && (|g.rows.evaluations[id].failures| == 0 ==>
                    g.result.error == [SemanticState(g.rows.evaluations[id].semantic)])
  {
    RunsAreJustified(actions, hash);
    var h := Play(actions, hash);
    var g := h.(rows := AfterCompile(h.rows, job, hash));
    hide Play, Compiled, NewEvaluation, SourceMaterial, Criteria;
    CurrentIsNewest(h.rows.contracts, hash);
    CompileReturnsNewest(h, job, hash);
    CompileKeepsJustified(h, job, hash);
    CompileReturnsNewest(g, job, hash);
    NewRowJustified(h, job, facts, hash);
    NewRowJustified(g, job, facts, hash);
  }
}

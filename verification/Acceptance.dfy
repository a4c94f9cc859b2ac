/**
 * Acceptance contracts and the submission gate (planning/acceptance.py, lines 34-42, 45-86 and
 * 93-265): versioned contracts compiled from the job's sources, evaluations of executions
 * against the current contract, and the gate in front of submission.
 *
 * One job. The SHA-256 of a JSON document is an uninterpreted function of the document; it is
 * assumed injective only where a lemma says so. Judgments are already upper-cased, and exit codes
 * are integers.
 */
module Acceptance {
  import opened Prelude

  // ---------------------------------------------------------------- sources

  /** One entry of a criteria object, in key order: its printed line, and whether its value is empty. */
  datatype Entry = Entry(line: string, blank: bool)

  /** A JSON value found under an acceptance key; strings are stripped, `blank` is the unstripped "". */
  datatype Value =
    | Null
    | Text(stripped: string, blank: bool)
    | List(items: seq<string>)
    | Object(entries: seq<Entry>)
    | OtherValue(id: nat)

  predicate Empty(v: Value) {
    v.Null? || (v.Text? && v.blank) || (v.List? && v.items == []) || (v.Object? && v.entries == [])
  }

  datatype Plan = Plan(coding: bool, hasTestCommand: bool, rest: nat)

  /** `rest` stands for the other sources: title, requirements, asset manifest, repository snapshot. */
  datatype Job = Job(snake: Option<Value>, camel: Option<Value>, plan: Option<Plan>, rest: nat)

  /** What is hashed: empty acceptance values are left out. */
  datatype Material = Material(snake: Option<Value>, camel: Option<Value>, plan: Option<Plan>, rest: nat)

  function Kept(v: Option<Value>): Option<Value> {
    if v.Some? && !Empty(v.value) then v else None
  }

  function SourceMaterial(job: Job): Material {
    Material(Kept(job.snake), Kept(job.camel), job.plan, job.rest)
  }

  function NonBlank(items: seq<string>): seq<string> {
    if items == [] then []
    else
      var last := items[|items| - 1];
      NonBlank(items[..|items| - 1]) + if last != "" then [last] else []
  }

  function Lines(entries: seq<Entry>): seq<string> {
    if entries == [] then []
    else
      var last := entries[|entries| - 1];
      Lines(entries[..|entries| - 1]) + if last.blank then [] else [last.line]
  }

  function CriteriaIn(v: Value): seq<string> {
    match v
    case Text(stripped, _) => if stripped != "" then [stripped] else []
    case List(items) => NonBlank(items)
    case Object(entries) => Lines(entries)
    case _ => []
  }

  /** The camel-case key counts only when the snake-case key is absent. */
  function ExplicitAcceptance(job: Job): seq<string> {
    CriteriaIn(if job.snake.Some? then job.snake.value else if job.camel.Some? then job.camel.value else Null)
  }

  /** Of a list, the items that are not empty once stripped, in order. */
  lemma {:induction false} NonBlankInOrder(items: seq<string>) returns (p: seq<nat>)
    ensures Enumerates(p, |items|, (k: nat) => k < |items| && |items[k]| > 0)
    ensures |p| == |NonBlank(items)| && forall i :: 0 <= i < |p| ==> p[i] < |items| && NonBlank(items)[i] == items[p[i]]
  {
    if items == [] {
      p := [];
    } else {
      var n := |items| - 1;
      p := NonBlankInOrder(items[..n]);
      if |items[n]| > 0 { p := p + [n]; }
    }
  }

  /** Of an object, the printed entries whose values are not empty, in key order. */
  lemma {:induction false} LinesInOrder(entries: seq<Entry>) returns (p: seq<nat>)
    ensures Enumerates(p, |entries|, (k: nat) => k < |entries| && !entries[k].blank)
    ensures |p| == |Lines(entries)|
    ensures forall i :: 0 <= i < |p| ==> p[i] < |entries| && Lines(entries)[i] == entries[p[i]].line
  {
    if entries == [] {
      p := [];
    } else {
      var n := |entries| - 1;
      p := LinesInOrder(entries[..n]);
      if !entries[n].blank { p := p + [n]; }
    }
  }

  /** The value under the acceptance keys, if there is one. */
  ghost predicate Stated(job: Job, v: Value) {
    job.snake == Some(v) || (job.snake == None && job.camel == Some(v))
  }

  /** Which texts are criteria, for each shape of the value; `p` says which items or entries they come from. */
  lemma TextsByShape(job: Job, v: Value) returns (p: seq<nat>)
    requires Stated(job, v)
    ensures var texts := ExplicitAcceptance(job);
            match v
            case Text(stripped, _) =>
              |texts| == (if |stripped| == 0 then 0 else 1) && forall t :: t in texts ==> t == stripped
            case List(items) =>
              && Enumerates(p, |items|, (k: nat) => k < |items| && |items[k]| > 0)
              && |p| == |texts| && forall i :: 0 <= i < |p| ==> p[i] < |items| && texts[i] == items[p[i]]
            case Object(entries) =>
              && Enumerates(p, |entries|, (k: nat) => k < |entries| && !entries[k].blank)
              && |p| == |texts| && forall i :: 0 <= i < |p| ==> p[i] < |entries| && texts[i] == entries[p[i]].line
            case Null => |texts| == 0
            case OtherValue(_) => |texts| == 0
  {
    match v
    case List(items) => p := NonBlankInOrder(items);
    case Object(entries) => p := LinesInOrder(entries);
    case _ => p := [];
  }

  /** Without either key there are no criteria, and a value that counts as empty gives none. */
  lemma NoTextsWithoutValue(job: Job)
    ensures job.snake.None? && job.camel.None? ==> |ExplicitAcceptance(job)| == 0
    ensures forall v :: Stated(job, v) && WellFormed(Some(v)) && Empty(v) ==> |ExplicitAcceptance(job)| == 0
  {
  }

  /** The hash leaves out exactly the values that are null, "", [] or {}. */
  lemma MaterialLeavesOutEmpty(job: Job, v: Value)
    requires Stated(job, v) && job.snake == Some(v)
    ensures SourceMaterial(job).snake == None <==>
              v == Null || (v.Text? && v.blank) || (v.List? && |v.items| == 0) || (v.Object? && |v.entries| == 0)
    ensures SourceMaterial(job).snake != None ==> SourceMaterial(job).snake == Some(v)
  {
  }

  /** An empty snake-case key hides criteria written under the camel-case key. */
  predicate Shadowed(job: Job) {
    job.snake.Some? && Empty(job.snake.value) && job.camel.Some? && CriteriaIn(job.camel.value) != []
  }

  predicate WellFormed(v: Option<Value>) {
    v.Some? && v.value.Text? && v.value.blank ==> v.value.stripped == ""
  }

  /**
   * The hash does not determine the criteria: jobs with the same material have the same criteria
   * exactly when both or neither hide camel-case criteria behind an empty snake-case key.
   */
  lemma MaterialDeterminesCriteriaIff(a: Job, b: Job)
    requires SourceMaterial(a) == SourceMaterial(b)
    requires WellFormed(a.snake) && WellFormed(b.snake) && WellFormed(a.camel) && WellFormed(b.camel)
    ensures ExplicitAcceptance(a) == ExplicitAcceptance(b) <==> (Shadowed(a) <==> Shadowed(b))
  {
  }

  // ---------------------------------------------------------------- contracts

  datatype Kind = ArtifactPresent | DeterministicQa | CodingTests | SourceCriterion(index: nat)

  datatype Criterion = Criterion(kind: Kind, text: string, critical: bool, semantic: bool)

  function SourceCriteria(texts: seq<string>): (r: seq<Criterion>)
    ensures |r| == |texts|
  {
    seq(|texts|, i requires 0 <= i < |texts| =>
      Criterion(SourceCriterion(i + 1), if |texts[i]| > 1000 then texts[i][..1000] else texts[i], true, true))
  }

  function Criteria(job: Job): seq<Criterion> {
    [Criterion(ArtifactPresent, "A persisted deliverable artifact exists", true, false),
     Criterion(DeterministicQa, "The registered deterministic QA profile passes", true, false)]
    + (if job.plan.Some? && job.plan.value.coding
       then [Criterion(CodingTests, "The explicit repository test command passes", true, false)] else [])
    + SourceCriteria(ExplicitAcceptance(job))
  }

  /**
   * What a contract asks for: the deterministic criteria, that of the test command exactly for
   * coding plans, and then every explicit text of the job, numbered from one and cut at 1000
   * characters. All are critical, and exactly the texts are judged semantically.
   */
  lemma CriteriaAre(job: Job)
    ensures var criteria, texts := Criteria(job), ExplicitAcceptance(job);
            var coding := job.plan.Some? && job.plan.value.coding;
            var base := if coding then 3 else 2;
            && |criteria| == base + |texts|
            && criteria[0].kind == ArtifactPresent && criteria[1].kind == DeterministicQa
            && (coding ==> criteria[2].kind == CodingTests)
            && (forall i :: 0 <= i < |criteria| ==> criteria[i].critical && (criteria[i].semantic <==> i >= base))
            && forall i :: 0 <= i < |texts| ==>
                 && criteria[base + i].kind == SourceCriterion(i + 1)
                 && criteria[base + i].text <= texts[i]
                 && |criteria[base + i].text| == Min(|texts[i]|, 1000)
  {
  }

  function Min(a: nat, b: nat): nat { if a < b then a else b }

  /** There is something to judge exactly if the job states a text. */
  lemma SemanticIffExplicit(job: Job)
    ensures (exists c :: c in Criteria(job) && c.semantic) <==> |ExplicitAcceptance(job)| > 0
    ensures forall k: nat :: 1 <= k <= |ExplicitAcceptance(job)| ==>
              exists c :: c in Criteria(job) && c.semantic && c.critical && c.kind == SourceCriterion(k)
    ensures forall c :: c in Criteria(job) && c.semantic ==>
              c.critical && exists k: nat :: 1 <= k <= |ExplicitAcceptance(job)| && c.kind == SourceCriterion(k)
  {
    CriteriaAre(job);
    hide Criteria, ExplicitAcceptance;
    var criteria, texts := Criteria(job), ExplicitAcceptance(job);
    var base := if job.plan.Some? && job.plan.value.coding then 3 else 2;
    forall k: nat | 1 <= k <= |texts|
      ensures exists c :: c in criteria && c.semantic && c.critical && c.kind == SourceCriterion(k)
    {
      var i, text := k - 1, texts[k - 1];
      assert criteria[base + i] in criteria && criteria[base + i].kind == SourceCriterion(k);
    }
    if |texts| > 0 { assert criteria[base + 0] in criteria; }
    forall c | c in criteria && c.semantic
      ensures c.critical && exists k: nat :: 1 <= k <= |texts| && c.kind == SourceCriterion(k)
    {
      var i :| 0 <= i < |criteria| && criteria[i] == c;
      var n, text := i - base, texts[i - base];
      assert criteria[base + n].kind == SourceCriterion(n + 1);
    }
  }

  const COMPILER_VERSION := "acceptance-compiler-v1"

  datatype Contract = Contract(version: int, current: bool, stale: bool, hash: string, compiler: string, changed: bool,
                               material: Material, criteria: seq<Criterion>)

  type Hash = Material -> string

  /** The newest contract marked current, as a position. */
  function CurrentIndex(contracts: seq<Contract>): Option<nat> {
    if contracts == [] then None
    else if contracts[|contracts| - 1].current then Some(|contracts| - 1)
    else CurrentIndex(contracts[..|contracts| - 1])
  }

  function MaxVersion(contracts: seq<Contract>): int {
    if contracts == [] then 0
    else
      var rest := MaxVersion(contracts[..|contracts| - 1]);
      var last := contracts[|contracts| - 1].version;
      if last > rest then last else rest
  }

  function Retired(c: Contract): Contract {
    c.(current := false, stale := true, changed := true)
  }

  predicate UpToDate(c: Contract, job: Job, hash: Hash) {
    c.hash == hash(SourceMaterial(job)) && c.compiler == COMPILER_VERSION
  }

  lemma {:induction false} CurrentInRange(contracts: seq<Contract>)
    ensures CurrentIndex(contracts).Some? ==> CurrentIndex(contracts).value < |contracts|
  {
    if contracts != [] { CurrentInRange(contracts[..|contracts| - 1]); }
  }

  function NewContract(contracts: seq<Contract>, job: Job, hash: Hash): Contract {
    Contract(MaxVersion(contracts) + 1, true, false, hash(SourceMaterial(job)), COMPILER_VERSION, false,
             SourceMaterial(job), Criteria(job))
  }

  /** The contracts after compiling, and the position of the contract that is returned. */
  function Compiled(contracts: seq<Contract>, job: Job, hash: Hash): (r: (seq<Contract>, nat))
    ensures r.1 < |r.0|
  {
    CurrentInRange(contracts);
    var current := CurrentIndex(contracts);
    if current.Some? && UpToDate(contracts[current.value], job, hash) then (contracts, current.value)
    else
      var retired := if current.Some? then contracts[current.value := Retired(contracts[current.value])] else contracts;
      (retired + [NewContract(retired, job, hash)], |contracts|)
  }

  /** Versions are 1..n and exactly the newest contract is current. */
  ghost predicate Versioned(contracts: seq<Contract>, hash: Hash) {
    && (forall i :: 0 <= i < |contracts| ==>
        contracts[i].version == i + 1 && contracts[i].hash == hash(contracts[i].material))
    && (forall i :: 0 <= i < |contracts| ==> (contracts[i].current <==> i == |contracts| - 1))
  }

  lemma {:induction false} VersionsCount(contracts: seq<Contract>)
    requires forall i :: 0 <= i < |contracts| ==> contracts[i].version == i + 1
    ensures MaxVersion(contracts) == |contracts|
  {
    if contracts != [] { VersionsCount(contracts[..|contracts| - 1]); }
  }

  lemma CompileKeepsVersioned(contracts: seq<Contract>, job: Job, hash: Hash)
    requires Versioned(contracts, hash)
    ensures var (after, i) := Compiled(contracts, job, hash);
            && Versioned(after, hash) && i == |after| - 1 && UpToDate(after[i], job, hash)
            && |contracts| <= |after| <= |contracts| + 1
            && forall k :: 0 <= k < |contracts| ==>
               after[k].criteria == contracts[k].criteria && after[k].material == contracts[k].material
  {
    var current := CurrentIndex(contracts);
    assert current == if contracts == [] then None else Some(|contracts| - 1);
    var retired := if current.Some? then contracts[current.value := Retired(contracts[current.value])] else contracts;
    VersionsCount(retired);
  }

  /**
   * When compiling makes a new contract: exactly if there is none yet, or the newest differs in hash
   * or compiler version. Then the newest is retired, marked stale with its reason, and otherwise
   * as it was; the new one is fresh and asks for the job's criteria.
   */
  lemma CompileAppendsIff(contracts: seq<Contract>, job: Job, hash: Hash)
    requires Versioned(contracts, hash)
    ensures var after, n := Compiled(contracts, job, hash).0, |contracts|;
            && (|after| == n <==>
                  && n > 0 && contracts[n - 1].hash == hash(SourceMaterial(job))
                  && contracts[n - 1].compiler == "acceptance-compiler-v1")
            && (|after| == n ==> after == contracts)
            && (|after| != n ==>
                  && |after| == n + 1
                  && after[n]
                     == Contract(n + 1, true, false, hash(SourceMaterial(job)), "acceptance-compiler-v1", false,
                                 SourceMaterial(job), Criteria(job))
                  && (forall k :: 0 <= k < n - 1 ==> after[k] == contracts[k])
                  && (n > 0 ==>
                        && !after[n - 1].current && after[n - 1].stale && after[n - 1].changed
                        && contracts[n - 1]
                           == after[n - 1].(current := true, stale := contracts[n - 1].stale,
                                            changed := contracts[n - 1].changed)))
  {
    var current := CurrentIndex(contracts);
    assert current == if contracts == [] then None else Some(|contracts| - 1);
    var retired := if current.Some? then contracts[current.value := Retired(contracts[current.value])] else contracts;
    VersionsCount(retired);
  }

  /** Compiling again from unchanged sources changes nothing and returns the same contract. */
  lemma RecompilingIsNoOp(contracts: seq<Contract>, job: Job, hash: Hash)
    requires Versioned(contracts, hash)
    ensures var first := Compiled(contracts, job, hash); Compiled(first.0, job, hash) == first
  {
  }

  // ---------------------------------------------------------------- evaluation

  datatype Judgment = Pass | Fail | Uncertain | Unknown

  datatype Evidence = Evidence(status: Judgment, results: map<Kind, Judgment>)

  /** What an execution has to show. */
  datatype Facts = Facts(artifact: bool, qa: Option<bool>, exitCode: Option<int>, evidence: Option<Evidence>)

  datatype Failure =
    | ArtifactMissing
    | DeterministicQaFailed
    | CodingTestEvidenceFailed
    | SemanticEvidenceMissing
    | Semantic(judgment: Judgment, criterion: Kind)
    | SemanticState(judgment: Judgment)
    | ContractStale

  function Known(j: Judgment): Judgment {
    if j.Unknown? then Uncertain else j
  }

  /** A criterion without a judgment of its own takes the overall one. */
  function JudgmentOf(evidence: Evidence, c: Criterion): Judgment {
    if c.kind in evidence.results then Known(evidence.results[c.kind]) else Known(evidence.status)
  }

  function FailuresOf(evidence: Evidence, criteria: seq<Criterion>): seq<Failure> {
    if criteria == [] then []
    else
      var last := criteria[|criteria| - 1];
      var judgment := JudgmentOf(evidence, last);
      FailuresOf(evidence, criteria[..|criteria| - 1])
      + if judgment != Pass && last.critical then [Semantic(judgment, last.kind)] else []
  }

  predicate AnyFail(failures: seq<Failure>) {
    exists i | 0 <= i < |failures| :: failures[i].Semantic? && failures[i].judgment.Fail?
  }

  function SemanticResult(evidence: Option<Evidence>, criteria: seq<Criterion>): (Judgment, seq<Failure>) {
    if criteria == [] then (Pass, [])
    else if evidence.None? then (Uncertain, [SemanticEvidenceMissing])
    else
      var state := Known(evidence.value.status);
      var failures := FailuresOf(evidence.value, criteria);
      (if failures != [] && state.Pass? then (if AnyFail(failures) then Fail else Uncertain) else state, failures)
  }

  function SemanticOnly(criteria: seq<Criterion>): seq<Criterion> {
    if criteria == [] then []
    else
      var last := criteria[|criteria| - 1];
      SemanticOnly(criteria[..|criteria| - 1]) + if last.semantic then [last] else []
  }

  predicate CodingPassed(plan: Option<Plan>, facts: Facts) {
    plan.Some? && plan.value.coding ==> plan.value.hasTestCommand && facts.exitCode == Some(0)
  }

  function DeterministicFailures(plan: Option<Plan>, facts: Facts): seq<Failure> {
    (if facts.artifact then [] else [ArtifactMissing])
    + (if facts.qa == Some(true) then [] else [DeterministicQaFailed])
    + (if CodingPassed(plan, facts) then [] else [CodingTestEvidenceFailed])
  }

  datatype Evaluation = Evaluation(contract: nat, deterministic: bool, semantic: Judgment, ready: bool,
                                   failures: seq<Failure>)

  /** The evaluation of an execution against the contract at position `i`. */
  function Evaluated(contracts: seq<Contract>, i: nat, job: Job, hash: Hash, facts: Facts): Evaluation
    requires i < |contracts|
  {
    var contract := contracts[i];
    var first := DeterministicFailures(job.plan, facts);
    var (state, semantic) := SemanticResult(facts.evidence, SemanticOnly(contract.criteria));
    var stale := contract.hash != hash(SourceMaterial(job)) || !contract.current;
    var failures := first + semantic + if stale then [ContractStale] else [];
    Evaluation(i, first == [], state, first == [] && state.Pass? && failures == [], FirstOccurrences(failures))
  }

  /** Said once, without the bookkeeping: what it takes to be ready. */
  ghost predicate Meets(facts: Facts, plan: Option<Plan>, criteria: seq<Criterion>) {
    && facts.artifact && facts.qa == Some(true)
    && (plan.Some? && plan.value.coding ==> plan.value.hasTestCommand && facts.exitCode == Some(0))
    && ((exists c :: c in criteria && c.semantic) ==>
          && facts.evidence.Some? && facts.evidence.value.status.Pass?
          && forall c :: c in criteria && c.semantic && c.critical && c.kind in facts.evidence.value.results ==>
               facts.evidence.value.results[c.kind].Pass?)
  }

  lemma {:induction false} SemanticMembers(criteria: seq<Criterion>)
    ensures forall c :: c in SemanticOnly(criteria) <==> c in criteria && c.semantic
  {
    if criteria != [] {
      SemanticMembers(criteria[..|criteria| - 1]);
      assert criteria == criteria[..|criteria| - 1] + [criteria[|criteria| - 1]];
    }
  }

  lemma {:induction false} NoFailuresIff(evidence: Evidence, criteria: seq<Criterion>)
    ensures FailuresOf(evidence, criteria) == [] <==>
              forall c :: c in criteria && c.critical ==> JudgmentOf(evidence, c).Pass?
  {
    hide JudgmentOf;
    if criteria != [] {
      var front, last := criteria[..|criteria| - 1], criteria[|criteria| - 1];
      NoFailuresIff(evidence, front);
      assert forall c :: c in criteria <==> c in front || c == last by { assert criteria == front + [last]; }
    }
  }

  /** Against the contract just compiled the staleness check never fires, and readiness is exactly `Meets`. */
  lemma ReadyIff(contracts: seq<Contract>, job: Job, hash: Hash, facts: Facts)
    requires Versioned(contracts, hash)
    ensures var (after, i) := Compiled(contracts, job, hash);
            var e := Evaluated(after, i, job, hash, facts);
            && (e.ready <==> Meets(facts, job.plan, after[i].criteria))
            && ContractStale !in e.failures
  {
    hide Evaluated, Meets;
    CompileKeepsVersioned(contracts, job, hash);
    var (after, i) := Compiled(contracts, job, hash);
    EvaluatedAgainstCurrent(after, i, job, hash, facts);
  }

  lemma EvaluatedAgainstCurrent(contracts: seq<Contract>, i: nat, job: Job, hash: Hash, facts: Facts)
    requires i < |contracts| && contracts[i].current && UpToDate(contracts[i], job, hash)
    ensures var e := Evaluated(contracts, i, job, hash, facts);
            && (e.ready <==> Meets(facts, job.plan, contracts[i].criteria))
            && ContractStale !in e.failures
  {
    var criteria := contracts[i].criteria;
    SemanticReadyIff(facts, criteria);
    SemanticFailureKinds(facts.evidence, SemanticOnly(criteria));
    hide SemanticResult, SemanticOnly, FirstOccurrences;
  }

  lemma SemanticReadyIff(facts: Facts, criteria: seq<Criterion>)
    ensures var (state, failures) := SemanticResult(facts.evidence, SemanticOnly(criteria));
            state.Pass? && failures == [] <==>
              ((exists c :: c in criteria && c.semantic) ==>
                && facts.evidence.Some? && facts.evidence.value.status.Pass?
                && forall c :: c in criteria && c.semantic && c.critical && c.kind in facts.evidence.value.results ==>
                     facts.evidence.value.results[c.kind].Pass?)
  {
    SemanticMembers(criteria);
    var semantic := SemanticOnly(criteria);
    if semantic != [] { assert semantic[0] in semantic; }
    if facts.evidence.Some? { NoFailuresIff(facts.evidence.value, semantic); }
  }

  lemma {:induction false} SemanticFailureKinds(evidence: Option<Evidence>, criteria: seq<Criterion>)
    ensures ContractStale !in SemanticResult(evidence, criteria).1
    ensures evidence.Some? ==> forall f :: f in FailuresOf(evidence.value, criteria) ==> f.Semantic?
  {
    if evidence.Some? && criteria != [] { SemanticFailureKinds(evidence, criteria[..|criteria| - 1]); }
  }

  /** A critical criterion is judged otherwise than PASS: by its own judgment, or else by the overall one. */
  ghost predicate FailsWith(evidence: Evidence, c: Criterion, j: Judgment) {
    && c.semantic && c.critical && j != Pass
    && var own := if c.kind in evidence.results then evidence.results[c.kind] else evidence.status;
       (own == j && j != Unknown) || (own == Unknown && j == Uncertain)
  }

  lemma {:induction false} FailuresOfAre(evidence: Evidence, criteria: seq<Criterion>)
    requires forall c :: c in criteria ==> c.semantic
    ensures forall j, k :: Semantic(j, k) in FailuresOf(evidence, criteria) <==>
              exists c :: c in criteria && c.kind == k && FailsWith(evidence, c, j)
    ensures forall f :: f in FailuresOf(evidence, criteria) ==> f.Semantic?
    ensures FailuresOf(evidence, criteria) == [] <==> !exists c, j :: c in criteria && FailsWith(evidence, c, j)
  {
    if criteria != [] {
      var front, last := criteria[..|criteria| - 1], criteria[|criteria| - 1];
      assert criteria == front + [last];
      FailuresOfAre(evidence, front);
      var judgment := JudgmentOf(evidence, last);
      assert last.critical && judgment != Pass ==> FailsWith(evidence, last, judgment);
      assert forall j :: FailsWith(evidence, last, j) ==> j == judgment;
      FailuresOfLast(evidence, criteria);
      hide FailuresOf, JudgmentOf, FailsWith;
    }
  }

  lemma FailuresOfLast(evidence: Evidence, criteria: seq<Criterion>)
    requires criteria != []
    ensures var front, last := criteria[..|criteria| - 1], criteria[|criteria| - 1];
            var judgment := JudgmentOf(evidence, last);
            var own := if judgment != Pass && last.critical then [Semantic(judgment, last.kind)] else [];
            FailuresOf(evidence, criteria) == FailuresOf(evidence, front) + own
  {
  }

  /** The state of the semantic judgment, by cases. */
  ghost predicate StateIs(evidence: Option<Evidence>, criteria: seq<Criterion>, state: Judgment) {
    if !exists c :: c in criteria && c.semantic then state == Pass
    else if evidence == None then state == Uncertain
    else if evidence.value.status == Unknown then state == Uncertain
    else if evidence.value.status != Pass then state == evidence.value.status
    else if exists c :: c in criteria && FailsWith(evidence.value, c, Fail) then state == Fail
    else if exists c, j :: c in criteria && FailsWith(evidence.value, c, j) then state == Uncertain
    else state == Pass
  }

  /**
   * What an evaluation says, failure by failure and without the computation: each is reported once,
   * and exactly in its case. First the deterministic ones.
   */
  lemma EvaluationSays(contracts: seq<Contract>, i: nat, job: Job, hash: Hash, facts: Facts)
    requires i < |contracts|
    ensures var e := Evaluated(contracts, i, job, hash, facts);
            && e.contract == i && NoDuplicates(e.failures)
            && (ArtifactMissing in e.failures <==> !facts.artifact)
            && (DeterministicQaFailed in e.failures <==> facts.qa != Some(true))
            && (CodingTestEvidenceFailed in e.failures <==>
                  && job.plan.Some? && job.plan.value.coding
                  && !(job.plan.value.hasTestCommand && facts.exitCode == Some(0)))
            && (ContractStale in e.failures <==>
                  !contracts[i].current || contracts[i].hash != hash(SourceMaterial(job)))
            && (e.deterministic <==>
                  && facts.artifact && facts.qa == Some(true)
                  && (job.plan.Some? && job.plan.value.coding ==>
                        job.plan.value.hasTestCommand && facts.exitCode == Some(0)))
            && (e.ready <==> e.failures == [] && e.semantic == Pass)
  {
    hide *;
    EvaluatedMerges(contracts, i, job, hash, facts);
    DeterministicSays(job.plan, facts);
    SemanticSays(facts.evidence, contracts[i].criteria);
  }

  /** Then the semantic ones. */
  lemma JudgmentSays(contracts: seq<Contract>, i: nat, job: Job, hash: Hash, facts: Facts)
    requires i < |contracts|
    ensures var e, criteria := Evaluated(contracts, i, job, hash, facts), contracts[i].criteria;
            && (SemanticEvidenceMissing in e.failures <==>
                  facts.evidence == None && exists c :: c in criteria && c.semantic)
            && (forall j, k :: Semantic(j, k) in e.failures <==>
                  && facts.evidence.Some?
                  && exists c :: c in criteria && c.kind == k && FailsWith(facts.evidence.value, c, j))
            && (forall j :: SemanticState(j) !in e.failures)
            && StateIs(facts.evidence, criteria, e.semantic)
  {
    hide *;
    EvaluatedMerges(contracts, i, job, hash, facts);
    DeterministicSays(job.plan, facts);
    SemanticSays(facts.evidence, contracts[i].criteria);
  }

  lemma DeterministicSays(plan: Option<Plan>, facts: Facts)
    ensures var failures := DeterministicFailures(plan, facts);
            && (ArtifactMissing in failures <==> !facts.artifact)
            && (DeterministicQaFailed in failures <==> facts.qa != Some(true))
            && (CodingTestEvidenceFailed in failures <==>
                  && plan.Some? && plan.value.coding && !(plan.value.hasTestCommand && facts.exitCode == Some(0)))
            && (forall f :: f in failures ==> f in {ArtifactMissing, DeterministicQaFailed, CodingTestEvidenceFailed})
            && ((forall f :: f !in failures) <==>
                  && facts.artifact && facts.qa == Some(true)
                  && (plan.Some? && plan.value.coding ==> plan.value.hasTestCommand && facts.exitCode == Some(0)))
  {
  }

  lemma EvaluatedMerges(contracts: seq<Contract>, i: nat, job: Job, hash: Hash, facts: Facts)
    requires i < |contracts|
    ensures var e, first := Evaluated(contracts, i, job, hash, facts), DeterministicFailures(job.plan, facts);
            var (state, failures) := SemanticResult(facts.evidence, SemanticOnly(contracts[i].criteria));
            && e.contract == i && e.semantic == state && NoDuplicates(e.failures)
            && (forall f :: f in e.failures <==>
                  || f in first || f in failures
                  || (f == ContractStale && (!contracts[i].current || contracts[i].hash != hash(SourceMaterial(job)))))
            && (e.deterministic <==> forall f :: f !in first)
            && (e.ready <==> e.failures == [] && e.semantic == Pass)
  {
    hide SemanticResult, SemanticOnly, FirstOccurrences, DeterministicFailures;
    var e, first := Evaluated(contracts, i, job, hash, facts), DeterministicFailures(job.plan, facts);
    var (state, failures) := SemanticResult(facts.evidence, SemanticOnly(contracts[i].criteria));
    var stale := contracts[i].hash != hash(SourceMaterial(job)) || !contracts[i].current;
    var all := first + failures + if stale then [ContractStale] else [];
    assert forall f :: f in all <==> f in first || f in failures || (stale && f == ContractStale);
    if all != [] { assert all[0] in e.failures; }
    if first != [] { assert first[0] in first; }
    if e.failures != [] { assert e.failures[0] in all; }
  }

  lemma SemanticSays(evidence: Option<Evidence>, criteria: seq<Criterion>)
    ensures var (state, failures) := SemanticResult(evidence, SemanticOnly(criteria));
            && StateIs(evidence, criteria, state)
            && (forall f :: f in failures ==> f == SemanticEvidenceMissing || f.Semantic?)
            && (SemanticEvidenceMissing in failures <==> evidence == None && exists c :: c in criteria && c.semantic)
            && (forall j, k :: Semantic(j, k) in failures <==>
                  evidence.Some? && exists c :: c in criteria && c.kind == k && FailsWith(evidence.value, c, j))
            && (state == Pass && evidence.Some? ==> failures == [])
  {
    hide FailuresOf, SemanticOnly, FailsWith, AnyFail;
    var semantic := SemanticOnly(criteria);
    SemanticMembers(criteria);
    if semantic != [] { assert semantic[0] in semantic; }
    if evidence.Some? {
      FailuresOfAre(evidence.value, semantic);
      FailIffAnyFail(evidence.value, semantic);
      assert forall c, j :: FailsWith(evidence.value, c, j) ==> c.semantic by { FailsWithIsSemantic(evidence.value); }
    }
  }

  lemma FailsWithIsSemantic(evidence: Evidence)
    ensures forall c, j :: FailsWith(evidence, c, j) ==> c.semantic
  {
  }

  lemma FailIffAnyFail(evidence: Evidence, criteria: seq<Criterion>)
    requires forall c :: c in criteria ==> c.semantic
    ensures AnyFail(FailuresOf(evidence, criteria)) <==> exists c :: c in criteria && FailsWith(evidence, c, Fail)
  {
    FailuresOfAre(evidence, criteria);
    hide FailuresOf, FailsWith;
    var failures := FailuresOf(evidence, criteria);
    if i :| 0 <= i < |failures| && failures[i].Semantic? && failures[i].judgment.Fail? {
      assert Semantic(Fail, failures[i].criterion) in failures;
    }
    if c :| c in criteria && FailsWith(evidence, c, Fail) {
      assert Semantic(Fail, c.kind) in failures;
    }
  }
}

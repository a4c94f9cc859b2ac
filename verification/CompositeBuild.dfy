/**
 * The builder of composite plans (planning/services.py, lines 382-464): from a raw step
 * list to step rows with dependency links, or to the reasons it is refused.
 */
module CompositeBuild {
  import opened Prelude
  import opened TopologicalSteps
  import opened OrderTheorems
  import P = CompositePlan

  datatype OperationSpec = OperationSpec(workerClass: string, needsInput: bool)

  /** The worker registry, the approved spellings of asset roles, and the job's assets by role. */
  datatype Context = Context(registry: map<string, OperationSpec>, roles: map<string, string>,
                             assets: map<string, seq<int>>)

  datatype Built =
    | Rejected(reasons: seq<Reason>)
    | DuplicateLink                     // the unique constraint on dependency links fails
    | Rows(rows: seq<P.StepRow>)

  function RoleComplaints(key: string, roles: seq<string>, ctx: Context): seq<Reason> {
    if roles == [] then []
    else
      var last := roles[|roles| - 1];
      RoleComplaints(key, roles[..|roles| - 1], ctx)
      + if last !in ctx.roles then [StepAssetRoleNotApproved(key)]
        else if ctx.roles[last] !in ctx.assets then [StepRequiredAssetRoleMissing(key, ctx.roles[last])]
        else []
  }

  /** Complaints about one step, in the order they are made; a fatal one ends the list. */
  function StepComplaints(step: PlannedStep, ctx: Context): seq<Reason> {
    var body := step.body;
    if body.operation !in ctx.registry then [StepOperationNotRegistered(step.key)]
    else if body.roles.RolesNotAList? then [StepAssetRolesInvalid(step.key)]
    else
      RoleComplaints(step.key, body.roles.names, ctx)
      + (if body.roles.names == [] && step.dependsOn == [] && ctx.registry[body.operation].needsInput
         then [StepInputNotDeclared(step.key)] else [])
      + (if !body.inputSpecIsDict then [StepInputSpecInvalid(step.key)]
         else if body.repairBound.None? then [StepCostOrRepairBoundInvalid(step.key)]
         else [])
  }

  function Complaints(ordered: seq<PlannedStep>, ctx: Context): seq<Reason> {
    if ordered == [] then []
    else Complaints(ordered[..|ordered| - 1], ctx) + StepComplaints(ordered[|ordered| - 1], ctx)
  }

  function Clamp(x: int, low: int, high: int): int
    requires low <= high
  {
    if x < low then low else if x > high then high else x
  }

  function PositionOf(ordered: seq<PlannedStep>, key: string): (r: nat)
    ensures r <= |ordered|
    ensures r < |ordered| ==> ordered[r].key == key
    ensures (exists p :: p in ordered && p.key == key) ==> r < |ordered|
  {
    if ordered == [] then 0
    else if ordered[0].key == key then 0
    else
      var r := PositionOf(ordered[1..], key);
      assert forall p :: p in ordered <==> p == ordered[0] || p in ordered[1..];
      1 + r
  }

  function Links(ordered: seq<PlannedStep>, names: seq<string>): set<nat> {
    set d | d in names :: PositionOf(ordered, d)
  }

  /** The row a step is created as, before its links are. */
  function Draft(step: PlannedStep): P.StepRow {
    P.StepRow(step.key, {}, P.StepBlocked, 0, 0,
              if step.body.repairBound.Some? then Clamp(step.body.repairBound.value, 0, 3) else 0,
              [], P.NoQa, {}, {}, if step.dependsOn != [] then [P.WaitingForUpstreamQa] else [])
  }

  function LinkedRow(ordered: seq<PlannedStep>, step: PlannedStep): P.StepRow {
    Draft(step).(dependsOn := Links(ordered, step.dependsOn))
  }

  /** The final row: linked, and ready at once when nothing is upstream. */
  function FinalRow(ordered: seq<PlannedStep>, step: PlannedStep): P.StepRow {
    var row := LinkedRow(ordered, step);
    if row.dependsOn == {} then row.(status := P.StepReady, reasons := []) else row
  }

  function FinalRows(ordered: seq<PlannedStep>): (r: seq<P.StepRow>)
    ensures |r| == |ordered|
    ensures forall i :: 0 <= i < |ordered| ==> r[i] == FinalRow(ordered, ordered[i])
  {
    seq(|ordered|, i requires 0 <= i < |ordered| => FinalRow(ordered, ordered[i]))
  }

  ghost predicate LinksAreUnique(ordered: seq<PlannedStep>) {
    forall p :: p in ordered ==> NoDuplicates(p.dependsOn)
  }

  ghost function BuildFrom(raw: seq<RawStep>, maximum: nat, ctx: Context): Built {
    if |raw| < 2 then Rejected([CompositeRequiresMultipleSteps])
    else if |raw| > maximum then Rejected([CompositeStepLimit])
    else
      var a := Accept(raw);
      var ordered := OrderFor(a);
      if ReasonsFor(a) != [] then Rejected(ReasonsFor(a))
      else if Complaints(ordered, ctx) != [] then Rejected(FirstOccurrences(Complaints(ordered, ctx)))
      else if !LinksAreUnique(ordered) then DuplicateLink
      else Rows(FinalRows(ordered))
  }

  /** Collects the complaints of every step, in stored order. */
  method InspectSteps(ordered: seq<PlannedStep>, ctx: Context) returns (reasons: seq<Reason>)
    ensures reasons == Complaints(ordered, ctx)
  {
    reasons := [];
    for i := 0 to |ordered|
      invariant reasons == Complaints(ordered[..i], ctx)
    {
      assert ordered[..i + 1][..i] == ordered[..i];
      reasons := reasons + StepComplaints(ordered[i], ctx);
    }
    assert ordered[..|ordered|] == ordered;
  }

  /** Creates the dependency links of one step; the second link to a step is refused. */
  method LinkStep(ordered: seq<PlannedStep>, names: seq<string>) returns (links: set<nat>, duplicate: bool)
    requires forall d :: d in names ==> PositionOf(ordered, d) < |ordered|
    ensures duplicate <==> !NoDuplicates(names)
    ensures !duplicate ==> links == Links(ordered, names)
  {
    links, duplicate := {}, false;
    for i := 0 to |names|
      invariant NoDuplicates(names[..i])
      invariant links == Links(ordered, names[..i])
    {
      TakeOneMore([], names, i);
      var position := PositionOf(ordered, names[i]);
      assert names[i] in names;
      if position in links {
        var d :| d in names[..i] && PositionOf(ordered, d) == position;
        assert d in names;
        var j :| 0 <= j < i && names[..i][j] == d;
        assert names[j] == names[i];
        duplicate := true;
        return;
      }
      assert names[i] !in names[..i];
      links := links + {position};
    }
    assert names[..|names|] == names;
  }

  /** Creates every row, then every link, then readies the rows without links. */
  method CreateRows(ordered: seq<PlannedStep>) returns (built: Built)
    requires forall p, d :: p in ordered && d in p.dependsOn ==> PositionOf(ordered, d) < |ordered|
    ensures built == if LinksAreUnique(ordered) then Rows(FinalRows(ordered)) else DuplicateLink
  {
    hide Draft, PositionOf, Links;
    var rows := CreateDrafts(ordered);
    for i := 0 to |ordered|
      invariant |rows| == |ordered|
      invariant forall j :: 0 <= j < i ==> rows[j] == LinkedRow(ordered, ordered[j])
      invariant forall j :: i <= j < |rows| ==> rows[j] == Draft(ordered[j])
      invariant forall j :: 0 <= j < i ==> NoDuplicates(ordered[j].dependsOn)
    {
      assert ordered[i] in ordered;
      var links, duplicate := LinkStep(ordered, ordered[i].dependsOn);
      if duplicate { return DuplicateLink; }
      rows := rows[i := rows[i].(dependsOn := links)];
    }
    rows := ReadyRoots(ordered, rows);
    built := Rows(rows);
  }

  method CreateDrafts(ordered: seq<PlannedStep>) returns (rows: seq<P.StepRow>)
    ensures |rows| == |ordered|
    ensures forall j :: 0 <= j < |rows| ==> rows[j] == Draft(ordered[j])
  {
    rows := [];
    for i := 0 to |ordered|
      invariant |rows| == i
      invariant forall j :: 0 <= j < i ==> rows[j] == Draft(ordered[j])
    {
      rows := rows + [Draft(ordered[i])];
    }
  }

  method ReadyRoots(ordered: seq<PlannedStep>, linked: seq<P.StepRow>) returns (rows: seq<P.StepRow>)
    requires |linked| == |ordered|
    requires forall j :: 0 <= j < |linked| ==> linked[j] == LinkedRow(ordered, ordered[j])
    ensures rows == FinalRows(ordered)
  {
    hide LinkedRow;
    rows := linked;
    for i := 0 to |rows|
      invariant |rows| == |ordered|
      invariant forall j :: 0 <= j < i ==> rows[j] == FinalRow(ordered, ordered[j])
      invariant forall j :: i <= j < |rows| ==> rows[j] == LinkedRow(ordered, ordered[j])
    {
      if rows[i].dependsOn == {} {
        rows := rows[i := rows[i].(status := P.StepReady, reasons := [])];
      }
    }
  }

  method BuildCompositePlan(raw: seq<RawStep>, maximum: nat, ctx: Context) returns (built: Built)
    ensures built == BuildFrom(raw, maximum, ctx)
  {
    hide Accept, OrderFor, ReasonsFor, Complaints, FinalRows, LinksAreUnique, FirstOccurrences, PositionOf;
    if |raw| < 2 { return Rejected([CompositeRequiresMultipleSteps]); }
    if |raw| > maximum { return Rejected([CompositeStepLimit]); }
    var ordered, reasons := OrderSteps(raw);
    if reasons != [] { return Rejected(reasons); }
    reasons := InspectSteps(ordered, ctx);
    if reasons != [] { return Rejected(FirstOccurrences(reasons)); }
    EveryDependencyIsPlanned(raw);
    built := CreateRows(ordered);
  }

  // ---------------------------------------------------------------- what a built plan is

  /** What an accepted list looks like to the builder: keys in canonical order, real dependencies. */
  lemma OrderedStepsOf(raw: seq<RawStep>, i: nat)
    requires ReasonsFor(Accept(raw)) == [] && i < |OrderFor(Accept(raw))|
    ensures !HasCycle(GraphOf(Accept(raw).byKey)) && Closed(GraphOf(Accept(raw).byKey))
    ensures |OrderFor(Accept(raw))| == |CanonicalOrder(GraphOf(Accept(raw).byKey))|
    ensures OrderFor(Accept(raw))[i].key == CanonicalOrder(GraphOf(Accept(raw).byKey))[i]
    ensures OrderFor(Accept(raw))[i].key in GraphOf(Accept(raw).byKey)
    ensures OrderFor(Accept(raw))[i].dependsOn == GraphOf(Accept(raw).byKey)[OrderFor(Accept(raw))[i].key]
  {
    hide ReasonsFor, HasCycle, CanonicalOrder, Accept, Closed;
    CycleReportedIffCycle(raw);
    GraphIsClosed(Accept(raw).byKey);
  }

  lemma EveryDependencyIsPlanned(raw: seq<RawStep>)
    requires ReasonsFor(Accept(raw)) == []
    ensures forall p, d :: p in OrderFor(Accept(raw)) && d in p.dependsOn ==>
              PositionOf(OrderFor(Accept(raw)), d) < |OrderFor(Accept(raw))|
  {
    var ordered := OrderFor(Accept(raw));
    forall p, d | p in ordered && d in p.dependsOn ensures PositionOf(ordered, d) < |ordered| {
      var i :| 0 <= i < |ordered| && ordered[i] == p;
      var j := UpstreamPosition(raw, i, d);
    }
  }

  /** In the stored order a dependency stands at one earlier position. */
  lemma UpstreamPosition(raw: seq<RawStep>, i: nat, d: string) returns (j: nat)
    requires ReasonsFor(Accept(raw)) == [] && i < |OrderFor(Accept(raw))|
    requires d in OrderFor(Accept(raw))[i].dependsOn
    ensures j < i && PositionOf(OrderFor(Accept(raw)), d) == j
  {
    hide OrderFor, Accept, ReasonsFor, CanonicalOrder, HasCycle, PositionOf;
    var ordered, g := OrderFor(Accept(raw)), GraphOf(Accept(raw).byKey);
    OrderedStepsOf(raw, i);
    j := DependenciesComeFirst(g, i, d);
    OrderedStepsOf(raw, j);
    assert ordered[j] in ordered && ordered[j].key == d;
    var m := PositionOf(ordered, d);
    OrderedStepsOf(raw, m);
    CanonicalKeysDistinct(g, j, m);
  }

  lemma CanonicalKeysDistinct(g: Graph, i: nat, j: nat)
    requires !HasCycle(g) && i < |CanonicalOrder(g)| && j < |CanonicalOrder(g)|
    requires CanonicalOrder(g)[i] == CanonicalOrder(g)[j]
    ensures i == j
  {
    CanonicalOrderIsLayered(g);
    if i < j { BeforeIsStrict(g, CanonicalOrder(g)[i], CanonicalOrder(g)[j]); }
    if j < i { BeforeIsStrict(g, CanonicalOrder(g)[j], CanonicalOrder(g)[i]); }
  }

  /**
   * A built plan is fresh: within the step limit, in canonical key order, its links are the
   * positions of the declared dependencies and all point backwards, and exactly the rows
   * without links are ready.
   */
  lemma BuiltPlanIsFresh(raw: seq<RawStep>, maximum: nat, ctx: Context)
    requires BuildFrom(raw, maximum, ctx).Rows?
    ensures 2 <= |raw| <= maximum
    ensures var rows := BuildFrom(raw, maximum, ctx).rows;
            P.Fresh(rows) && forall i :: 0 <= i < |rows| ==> LinkedAsDeclared(raw, rows, i)
  {
    hide OrderFor, Accept, ReasonsFor, Complaints, LinksAreUnique, PositionOf, FinalRow, P.FreshRow;
    var rows := BuildFrom(raw, maximum, ctx).rows;
    forall i | 0 <= i < |rows| ensures P.FreshRow(rows[i], i) && LinkedAsDeclared(raw, rows, i) {
      FinalRowIsFresh(raw, rows, i);
    }
  }

  /** Row `i` carries the `i`-th key of the order and links exactly the keys its step names. */
  ghost predicate LinkedAsDeclared(raw: seq<RawStep>, rows: seq<P.StepRow>, i: nat)
    requires i < |rows|
  {
    var ordered := OrderFor(Accept(raw));
    && |rows| == |ordered|
    && rows[i].key == ordered[i].key
    && (forall d :: d in ordered[i].dependsOn ==> exists k :: k in rows[i].dependsOn && k < |rows| && rows[k].key == d)
    && (forall k :: k in rows[i].dependsOn ==> k < |rows| && rows[k].key in ordered[i].dependsOn)
  }

  lemma FinalRowIsFresh(raw: seq<RawStep>, rows: seq<P.StepRow>, i: nat)
    requires ReasonsFor(Accept(raw)) == [] && rows == FinalRows(OrderFor(Accept(raw))) && i < |rows|
    ensures P.FreshRow(rows[i], i)
    ensures LinkedAsDeclared(raw, rows, i)
  {
    hide OrderFor, Accept, ReasonsFor, PositionOf, Links;
    var ordered := OrderFor(Accept(raw));
    assert rows[i] == FinalRow(ordered, ordered[i]);
    LinksPointBack(raw, i);
    LinksCoverNames(raw, i);
    RowKeys(ordered, rows);
  }

  lemma RowKeys(ordered: seq<PlannedStep>, rows: seq<P.StepRow>)
    requires rows == FinalRows(ordered)
    ensures forall k :: 0 <= k < |rows| ==> rows[k].key == ordered[k].key
  {
    hide Links;
  }

  lemma LinksPointBack(raw: seq<RawStep>, i: nat)
    requires ReasonsFor(Accept(raw)) == [] && i < |OrderFor(Accept(raw))|
    ensures var ordered := OrderFor(Accept(raw));
            forall k :: k in Links(ordered, ordered[i].dependsOn) ==> k < i && ordered[k].key in ordered[i].dependsOn
  {
    hide OrderFor, Accept, ReasonsFor;
    var ordered := OrderFor(Accept(raw));
    forall k | k in Links(ordered, ordered[i].dependsOn) ensures k < i && ordered[k].key in ordered[i].dependsOn {
      var d :| d in ordered[i].dependsOn && PositionOf(ordered, d) == k;
      var j := UpstreamPosition(raw, i, d);
    }
  }

  lemma LinksCoverNames(raw: seq<RawStep>, i: nat)
    requires ReasonsFor(Accept(raw)) == [] && i < |OrderFor(Accept(raw))|
    ensures var ordered := OrderFor(Accept(raw));
            forall d :: d in ordered[i].dependsOn ==>
              exists k :: k in Links(ordered, ordered[i].dependsOn) && k < |ordered| && ordered[k].key == d
  {
    hide OrderFor, Accept, ReasonsFor;
    var ordered := OrderFor(Accept(raw));
    forall d | d in ordered[i].dependsOn
      ensures exists k :: k in Links(ordered, ordered[i].dependsOn) && k < |ordered| && ordered[k].key == d
    {
      var j := UpstreamPosition(raw, i, d);
      assert j in Links(ordered, ordered[i].dependsOn) && ordered[j].key == d;
    }
  }

  ghost predicate NoRepeatedDependency(raw: seq<RawStep>) {
    forall x :: x in raw && x.Step? && x.dependsOn.Names? ==> NoDuplicates(x.dependsOn.names)
  }

  lemma {:induction false} UncomplainingListIsAccepted(raw: seq<RawStep>)
    requires Accept(raw).log == []
    ensures forall x :: x in raw ==> x.Step? && x.key in Accept(raw).byKey && Accept(raw).byKey[x.key] == x
  {
    if raw != [] {
      var front := raw[..|raw| - 1];
      assert raw == front + [raw[|raw| - 1]];
      UncomplainingListIsAccepted(front);
    }
  }

  lemma PlannedDependencies(raw: seq<RawStep>, i: nat)
    requires ReasonsFor(Accept(raw)) == [] && i < |OrderFor(Accept(raw))|
    ensures var p := OrderFor(Accept(raw))[i];
            exists x :: x in raw && x.Step? && x.dependsOn.Names? && x.dependsOn.names == p.dependsOn
  {
    OrderedStepsOf(raw, i);
    var key := OrderFor(Accept(raw))[i].key;
    hide OrderFor, Accept, ReasonsFor, HasCycle, CanonicalOrder;
    NoComplaintsMeansValid(raw);
    AcceptIsConsistent(raw);
    assert Accept(raw).byKey[key] in raw;
  }

  lemma PlannedFor(raw: seq<RawStep>, x: RawStep) returns (i: nat)
    requires ReasonsFor(Accept(raw)) == [] && x in raw
    ensures x.Step? && x.dependsOn.Names?
    ensures i < |OrderFor(Accept(raw))| && OrderFor(Accept(raw))[i].key == x.key
    ensures OrderFor(Accept(raw))[i].dependsOn == x.dependsOn.names
  {
    var g := GraphOf(Accept(raw).byKey);
    hide OrderFor, Accept, ReasonsFor, HasCycle, CanonicalOrder;
    NoComplaintsMeansValid(raw);
    UncomplainingListIsAccepted(raw);
    CanonicalOrderIsLayered(g);
    assert x.key in Members(CanonicalOrder(g));
    i :| 0 <= i < |CanonicalOrder(g)| && CanonicalOrder(g)[i] == x.key;
    OrderLength(raw);
    OrderedStepsOf(raw, i);
  }

  lemma OrderLength(raw: seq<RawStep>)
    ensures |OrderFor(Accept(raw))| == |CanonicalOrder(GraphOf(Accept(raw).byKey))|
  {
  }

  /**
   * A list the order accepts and no step complains about is still lost when some step names
   * a dependency twice: the build succeeds exactly when no dependency list repeats a name.
   */
  lemma BuildSucceedsIffNoRepeatedDependency(raw: seq<RawStep>, maximum: nat, ctx: Context)
    requires 2 <= |raw| <= maximum && ReasonsFor(Accept(raw)) == [] && Complaints(OrderFor(Accept(raw)), ctx) == []
    ensures BuildFrom(raw, maximum, ctx).Rows? <==> NoRepeatedDependency(raw)
    ensures BuildFrom(raw, maximum, ctx).Rows? || BuildFrom(raw, maximum, ctx).DuplicateLink?
  {
    hide OrderFor, Accept, ReasonsFor, FinalRows, Complaints;
    var ordered := OrderFor(Accept(raw));
    if NoRepeatedDependency(raw) {
      forall p | p in ordered ensures NoDuplicates(p.dependsOn) {
        var i :| 0 <= i < |ordered| && ordered[i] == p;
        PlannedDependencies(raw, i);
      }
    }
    if LinksAreUnique(ordered) {
      forall x | x in raw ensures x.Step? && x.dependsOn.Names? && NoDuplicates(x.dependsOn.names) {
        var i := PlannedFor(raw, x);
        assert ordered[i] in ordered;
      }
    }
  }

  // ---------------------------------------------------------------- which steps are refused

  /** When a step deserves a complaint: the case of each kind. */
  ghost predicate Deserves(x: PlannedStep, ctx: Context, reason: Reason) {
    var body := x.body;
    var known, listed := body.operation in ctx.registry, body.roles.Roles?;
    match reason
    case StepOperationNotRegistered(key) => key == x.key && !known
    case StepAssetRolesInvalid(key) => key == x.key && known && !listed
    case StepAssetRoleNotApproved(key) =>
      key == x.key && known && listed && exists role :: role in body.roles.names && role !in ctx.roles
    case StepRequiredAssetRoleMissing(key, role) =>
      && key == x.key && known && listed && role !in ctx.assets
      && exists spelling :: spelling in body.roles.names && spelling in ctx.roles && ctx.roles[spelling] == role
    case StepInputNotDeclared(key) =>
      && key == x.key && known && listed && |body.roles.names| == 0 && |x.dependsOn| == 0
      && ctx.registry[body.operation].needsInput
    case StepInputSpecInvalid(key) => key == x.key && known && listed && !body.inputSpecIsDict
    case StepCostOrRepairBoundInvalid(key) =>
      key == x.key && known && listed && body.inputSpecIsDict && body.repairBound == None
    case _ => false
  }

  lemma {:induction false} RoleComplaintsAre(key: string, roles: seq<string>, ctx: Context)
    ensures forall reason :: reason in RoleComplaints(key, roles, ctx) <==>
              || (reason == StepAssetRoleNotApproved(key) && exists role :: role in roles && role !in ctx.roles)
              || (reason.StepRequiredAssetRoleMissing? && reason.key == key && reason.role !in ctx.assets
                  && exists spelling ::
                       spelling in roles && spelling in ctx.roles && ctx.roles[spelling] == reason.role)
  {
    if roles != [] {
      var front, last := roles[..|roles| - 1], roles[|roles| - 1];
      assert roles == front + [last];
      RoleComplaintsAre(key, front, ctx);
    }
  }

  lemma StepComplaintsAre(step: PlannedStep, ctx: Context)
    ensures forall reason :: reason in StepComplaints(step, ctx) <==> Deserves(step, ctx, reason)
  {
    hide RoleComplaints;
    if step.body.roles.Roles? { RoleComplaintsAre(step.key, step.body.roles.names, ctx); }
  }

  /** Each kind of complaint is made exactly in its case. */
  lemma {:induction false} ComplaintsAre(ordered: seq<PlannedStep>, ctx: Context)
    ensures forall reason :: reason in Complaints(ordered, ctx) <==>
              exists x :: x in ordered && Deserves(x, ctx, reason)
  {
    if ordered != [] {
      var front, last := ordered[..|ordered| - 1], ordered[|ordered| - 1];
      assert ordered == front + [last];
      ComplaintsAre(front, ctx);
      StepComplaintsAre(last, ctx);
      hide Deserves, StepComplaints;
    }
  }

  /** What the builder asks of one step, said without the complaints. */
  ghost predicate Acceptable(x: RawStep, ctx: Context)
    requires x.Step? && x.dependsOn.Names?
  {
    var body := x.body;
    && body.operation in ctx.registry
    && body.roles.Roles?
    && (forall role :: role in body.roles.names ==> role in ctx.roles && ctx.roles[role] in ctx.assets)
    && body.inputSpecIsDict && body.repairBound.Some?
    && (ctx.registry[body.operation].needsInput ==> |body.roles.names| > 0 || |x.dependsOn.names| > 0)
  }

  /** The planned step of a raw one. */
  function PlannedOf(x: RawStep): PlannedStep
    requires x.Step? && x.dependsOn.Names?
  {
    PlannedStep(x.key, x.dependsOn.names, x.body)
  }

  lemma AcceptableIff(x: RawStep, ctx: Context)
    requires x.Step? && x.dependsOn.Names?
    ensures Acceptable(x, ctx) <==> forall reason :: !Deserves(PlannedOf(x), ctx, reason)
  {
    var p, body := PlannedOf(x), x.body;
    if forall reason :: !Deserves(p, ctx, reason) {
      assert !Deserves(p, ctx, StepOperationNotRegistered(x.key)) && !Deserves(p, ctx, StepAssetRolesInvalid(x.key));
      assert !Deserves(p, ctx, StepInputSpecInvalid(x.key)) && !Deserves(p, ctx, StepCostOrRepairBoundInvalid(x.key));
      assert !Deserves(p, ctx, StepAssetRoleNotApproved(x.key)) && !Deserves(p, ctx, StepInputNotDeclared(x.key));
      forall role | role in body.roles.names ensures role in ctx.roles && ctx.roles[role] in ctx.assets {
        assert role in ctx.roles;
        assert !Deserves(p, ctx, StepRequiredAssetRoleMissing(x.key, ctx.roles[role]));
      }
    }
  }

  /** The planned steps of a list without complaints about its order are those of its raw steps. */
  lemma PlannedAreGiven(raw: seq<RawStep>)
    requires ReasonsFor(Accept(raw)) == []
    ensures forall x :: x in raw ==> x.Step? && x.dependsOn.Names?
    ensures forall p :: p in OrderFor(Accept(raw)) <==>
              exists x :: x in raw && x.Step? && x.dependsOn.Names? && PlannedOf(x) == p
  {
    NoComplaintsMeansValid(raw);
    NoReasonsIffValid(raw);
    var ordered := OrderFor(Accept(raw));
    hide OrderFor, Accept, ReasonsFor, HasCycle;
    forall p | p in ordered ensures exists x :: x in raw && x.Step? && x.dependsOn.Names? && PlannedOf(x) == p {
      var i :| 0 <= i < |ordered| && ordered[i] == p;
      ReturnedStepsAreGiven(raw, i);
    }
    forall x | x in raw ensures PlannedOf(x) in ordered {
      var i := PlannedFor(raw, x);
      ReturnedStepsAreGiven(raw, i);
      PlannedForKey(raw, x, i);
    }
  }

  lemma PlannedForKey(raw: seq<RawStep>, x: RawStep, i: nat)
    requires ValidSteps(raw) && x in raw && i < |OrderFor(Accept(raw))| && OrderFor(Accept(raw))[i].key == x.key
    requires exists y :: y in raw && y.Step? && y.key == x.key && y.body == OrderFor(Accept(raw))[i].body
                         && y.dependsOn == Names(OrderFor(Accept(raw))[i].dependsOn)
    ensures PlannedOf(x) == OrderFor(Accept(raw))[i]
  {
    hide OrderFor, Accept;
    var y :| y in raw && y.Step? && y.key == x.key && y.body == OrderFor(Accept(raw))[i].body
             && y.dependsOn == Names(OrderFor(Accept(raw))[i].dependsOn);
    var m :| 0 <= m < |raw| && raw[m] == x;
    var n :| 0 <= n < |raw| && raw[n] == y;
    assert m == n;
  }

  /**
   * Exactly which lists become rows: those of a permitted length, with valid, distinct keys and known
   * dependencies, without a cycle or a repeated dependency, each step of which is acceptable.
   */
  lemma BuildSucceedsIff(raw: seq<RawStep>, maximum: nat, ctx: Context)
    ensures BuildFrom(raw, maximum, ctx).Rows? <==>
              && 2 <= |raw| <= maximum
              && ValidSteps(raw) && !HasCycle(GraphOf(Accept(raw).byKey))
              && NoRepeatedDependency(raw)
              && forall x :: x in raw ==> Acceptable(x, ctx)
  {
    NoReasonsIffValid(raw);
    hide OrderFor, Accept, ReasonsFor, HasCycle, FinalRows, Complaints, ValidSteps, Acceptable;
    if 2 <= |raw| <= maximum && ReasonsFor(Accept(raw)) == [] {
      NoComplaintsIffAcceptable(raw, ctx);
      if Complaints(OrderFor(Accept(raw)), ctx) == [] {
        BuildSucceedsIffNoRepeatedDependency(raw, maximum, ctx);
      }
    }
  }

  lemma NoComplaintsIffAcceptable(raw: seq<RawStep>, ctx: Context)
    requires ReasonsFor(Accept(raw)) == []
    ensures forall x :: x in raw ==> x.Step? && x.dependsOn.Names?
    ensures Complaints(OrderFor(Accept(raw)), ctx) == [] <==> forall x :: x in raw ==> Acceptable(x, ctx)
  {
    hide OrderFor, Accept, ReasonsFor, Complaints, Acceptable, Deserves;
    var ordered := OrderFor(Accept(raw));
    var complaints := Complaints(ordered, ctx);
    PlannedAreGiven(raw);
    ComplaintsAre(ordered, ctx);
    forall x | x in raw ensures Acceptable(x, ctx) <==> forall reason :: !Deserves(PlannedOf(x), ctx, reason) {
      AcceptableIff(x, ctx);
    }
    if complaints != [] { assert complaints[0] in complaints; }
    if complaints == [] {
      forall x | x in raw ensures Acceptable(x, ctx) {
        assert PlannedOf(x) in ordered;
        forall reason ensures !Deserves(PlannedOf(x), ctx, reason) { assert reason !in complaints; }
      }
    }
  }

  /** The complaints of a rejected list of permitted length and order: each once, and exactly the deserved ones. */
  lemma RejectedAsDeserved(raw: seq<RawStep>, maximum: nat, ctx: Context, reason: Reason)
    requires 2 <= |raw| <= maximum && ReasonsFor(Accept(raw)) == [] && BuildFrom(raw, maximum, ctx).Rejected?
    ensures var reasons := BuildFrom(raw, maximum, ctx).reasons;
            && NoDuplicates(reasons)
            && (forall x :: x in raw ==> x.Step? && x.dependsOn.Names?)
            && (reason in reasons <==> exists x :: x in raw && Deserves(PlannedOf(x), ctx, reason))
  {
    hide OrderFor, Accept, ReasonsFor, Complaints, Deserves, FirstOccurrences, LinksAreUnique, FinalRows;
    PlannedAreGiven(raw);
    ComplaintsAre(OrderFor(Accept(raw)), ctx);
  }

  /** Too few or too many steps, and complaints about the order, are all that is said then. */
  lemma RejectedBefore(raw: seq<RawStep>, maximum: nat, ctx: Context)
    ensures |raw| < 2 ==> BuildFrom(raw, maximum, ctx) == Rejected([CompositeRequiresMultipleSteps])
    ensures 2 <= |raw| && maximum < |raw| ==> BuildFrom(raw, maximum, ctx) == Rejected([CompositeStepLimit])
    ensures 2 <= |raw| <= maximum && ReasonsFor(Accept(raw)) != [] ==>
              BuildFrom(raw, maximum, ctx) == Rejected(ReasonsFor(Accept(raw)))
  {
    hide OrderFor, Accept, ReasonsFor, Complaints;
  }

  /**
   * What each built row carries, in terms of the step with its key: its links are the rows of the names
   * it depends on, its repair bound is the stated one between 0 and 3, and it waits exactly if it depends
   * on something.
   */
  lemma BuiltRowsCarry(raw: seq<RawStep>, maximum: nat, ctx: Context, i: nat) returns (x: RawStep)
    requires BuildFrom(raw, maximum, ctx).Rows? && i < |BuildFrom(raw, maximum, ctx).rows|
    ensures var rows := BuildFrom(raw, maximum, ctx).rows;
            && x in raw && x.Step? && x.dependsOn.Names? && x.key == rows[i].key && x.body.repairBound.Some?
            && (forall k: nat :: k in rows[i].dependsOn <==> k < |rows| && rows[k].key in x.dependsOn.names)
            && BoundedBy(rows[i].maxRepairAttempts, x.body.repairBound.value)
            && rows[i].reasons == (if |x.dependsOn.names| > 0 then [P.WaitingForUpstreamQa] else [])
  {
    hide *;
    BuiltRowsAreOrdered(raw, maximum, ctx);
    var ordered := OrderFor(Accept(raw));
    NoComplaintsMeansValid(raw);
    ReturnedStepsAreGiven(raw, i);
    x :| x in raw && x.Step? && x.key == ordered[i].key && x.body == ordered[i].body
         && x.dependsOn == Names(ordered[i].dependsOn);
    BuildSucceedsIff(raw, maximum, ctx);
    AcceptableHasBound(x, ctx);
    RowCarries(ordered, i);
    LinksAreExact(raw, maximum, ctx, i);
  }

  /** The stated number of repairs, between 0 and 3. */
  ghost predicate BoundedBy(repairs: nat, stated: int) {
    (stated < 0 && repairs == 0) || (stated > 3 && repairs == 3) || (0 <= stated <= 3 && repairs == stated)
  }

  lemma AcceptableHasBound(x: RawStep, ctx: Context)
    requires x.Step? && x.dependsOn.Names? && Acceptable(x, ctx)
    ensures x.body.repairBound.Some?
  {
  }

  lemma BuiltRowsAreOrdered(raw: seq<RawStep>, maximum: nat, ctx: Context)
    requires BuildFrom(raw, maximum, ctx).Rows?
    ensures var rows, ordered := BuildFrom(raw, maximum, ctx).rows, OrderFor(Accept(raw));
            && ReasonsFor(Accept(raw)) == [] && |rows| == |ordered|
            && forall i :: 0 <= i < |rows| ==> rows[i] == FinalRow(ordered, ordered[i]) && rows[i].key == ordered[i].key
  {
    hide OrderFor, Accept, ReasonsFor, Complaints, LinksAreUnique, PositionOf;
  }

  lemma LinksAreExact(raw: seq<RawStep>, maximum: nat, ctx: Context, i: nat)
    requires BuildFrom(raw, maximum, ctx).Rows? && i < |BuildFrom(raw, maximum, ctx).rows|
    requires |OrderFor(Accept(raw))| == |BuildFrom(raw, maximum, ctx).rows|
    ensures var rows := BuildFrom(raw, maximum, ctx).rows;
            forall k: nat :: k in rows[i].dependsOn <==>
              k < |rows| && rows[k].key in OrderFor(Accept(raw))[i].dependsOn
  {
    hide OrderFor, Accept, ReasonsFor, BuildFrom, FinalRow, P.Fresh;
    BuiltPlanIsFresh(raw, maximum, ctx);
    BuiltRowsAreOrdered(raw, maximum, ctx);
    var rows := BuildFrom(raw, maximum, ctx).rows;
    assert LinkedAsDeclared(raw, rows, i);
    forall k: nat | k < |rows| && rows[k].key in OrderFor(Accept(raw))[i].dependsOn ensures k in rows[i].dependsOn {
      var m :| m in rows[i].dependsOn && m < |rows| && rows[m].key == rows[k].key;
      KeysAreDistinct(raw, m, k);
    }
  }

  lemma RowCarries(ordered: seq<PlannedStep>, i: nat)
    requires i < |ordered|
    ensures var row, step := FinalRow(ordered, ordered[i]), ordered[i];
            && (step.body.repairBound.Some? ==> BoundedBy(row.maxRepairAttempts, step.body.repairBound.value))
            && row.reasons == (if |step.dependsOn| > 0 then [P.WaitingForUpstreamQa] else [])
  {
    if |ordered[i].dependsOn| > 0 {
      assert PositionOf(ordered, ordered[i].dependsOn[0]) in Links(ordered, ordered[i].dependsOn);
    }
  }

  lemma KeysAreDistinct(raw: seq<RawStep>, m: nat, k: nat)
    requires ReasonsFor(Accept(raw)) == [] && m < |OrderFor(Accept(raw))| && k < |OrderFor(Accept(raw))|
    requires OrderFor(Accept(raw))[m].key == OrderFor(Accept(raw))[k].key
    ensures m == k
  {
    NoComplaintsMeansValid(raw);
    CanonicalOrderIsLayered(GraphOf(Accept(raw).byKey));
    OrderedStepsOf(raw, m);
    OrderedStepsOf(raw, k);
    hide OrderFor, Accept, ReasonsFor, HasCycle, CanonicalOrder;
  }

  /** Complaints come in stored order: those of earlier steps before those of later ones. */
  lemma {:induction false} ComplaintsInOrder(a: seq<PlannedStep>, b: seq<PlannedStep>, ctx: Context)
    ensures Complaints(a + b, ctx) == Complaints(a, ctx) + Complaints(b, ctx)
  {
    if b == [] {
      assert a + b == a;
    } else {
      var front := b[..|b| - 1];
      assert (a + b)[..|a + b| - 1] == a + front && (a + b)[|a + b| - 1] == b[|b| - 1];
      ComplaintsInOrder(a, front, ctx);
    }
  }

  /** A harmless operation, and two steps, the second of which names the first twice. */
  const NOTE := StepBody("note", Roles([]), true, Some(0))
  const NOTES := Context(map["note" := OperationSpec("notes", false)], map[], map[])
  const REPEATING := [Step("a", Names([]), NOTE), Step("b", Names(["a", "a"]), NOTE)]

  lemma RepeatingIsValid()
    ensures ValidSteps(REPEATING) && Accept(REPEATING).byKey == map["a" := REPEATING[0], "b" := REPEATING[1]]
  {
    AcceptsAll(REPEATING);
    AcceptIsConsistent(REPEATING);
    assert REPEATING[0] in REPEATING && REPEATING[1] in REPEATING && REPEATING[0].key == "a" && REPEATING[1].key == "b";
    forall k | k in Accept(REPEATING).byKey ensures k in {"a", "b"} {
      assert Accept(REPEATING).byKey[k] in REPEATING;
    }
  }

  lemma RepeatingHasNoCycle(g: Graph)
    requires g == map["a" := [], "b" := ["a", "a"]]
    ensures !HasCycle(g)
  {
    forall p | IsWalk(g, p) && |p| >= 2 ensures p[0] != p[|p| - 1] {
      var n := |p| - 2;
      assert p[n] in g && p[n + 1] in g[p[n]] && p[0 + 1] in g[p[0]];
    }
  }

  /** Two steps that pass every check of the builder, whose second link fails all the same. */
  lemma RepeatedDependencyFailsToBuild(maximum: nat)
    requires maximum >= 2
    ensures ReasonsFor(Accept(REPEATING)) == [] && Complaints(OrderFor(Accept(REPEATING)), NOTES) == []
    ensures BuildFrom(REPEATING, maximum, NOTES) == DuplicateLink
  {
    hide *;
    RepeatingIsAccepted();
    RepeatingIsPlanned();
    NotesHaveNoComplaints(OrderFor(Accept(REPEATING)));
    RepeatingRepeats();
    BuildSucceedsIffNoRepeatedDependency(REPEATING, maximum, NOTES);
  }

  lemma RepeatingRepeats()
    ensures |REPEATING| == 2 && !NoRepeatedDependency(REPEATING)
  {
    var names := REPEATING[1].dependsOn.names;
    assert REPEATING[1] in REPEATING && names[0] == names[1];
  }

  lemma RepeatingIsAccepted()
    ensures ReasonsFor(Accept(REPEATING)) == []
  {
    RepeatingIsValid();
    hide Accept, ReasonsFor, HasCycle, ValidSteps;
    var g := GraphOf(Accept(REPEATING).byKey);
    assert g == map["a" := [], "b" := ["a", "a"]];
    RepeatingHasNoCycle(g);
    ValidStepsFailOnlyOnCycle(REPEATING);
  }

  lemma RepeatingIsPlanned()
    ensures forall p :: p in OrderFor(Accept(REPEATING)) ==> p.body == NOTE
  {
    RepeatingIsValid();
    var a := Accept(REPEATING);
    hide Accept, ReasonsFor, HasCycle, ValidSteps, CanonicalOrder;
    LayersHold(GraphOf(a.byKey), |GraphOf(a.byKey)|);
    forall p | p in OrderFor(a) ensures p.body == NOTE {
      var i :| 0 <= i < |OrderFor(a)| && OrderFor(a)[i] == p;
      var k := CanonicalOrder(GraphOf(a.byKey))[i];
      assert p == Planned(a.byKey, k);
    }
  }

  lemma {:induction false} NotesHaveNoComplaints(ordered: seq<PlannedStep>)
    requires forall p :: p in ordered ==> p.body == NOTE
    ensures Complaints(ordered, NOTES) == []
  {
    if ordered != [] { NotesHaveNoComplaints(ordered[..|ordered| - 1]); }
  }
}

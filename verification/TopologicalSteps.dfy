/**
 * The step compiler of composite work plans (planning/services.py, lines 350-379): it
 * validates a raw step list and lays the steps out in rounds, each round holding the
 * steps whose dependencies were all laid out before, in ascending key order.
 *
 * The reference notions (walks, cycles, depth) are defined on the dependency graph alone.
 */
module TopologicalSteps {
  import opened Prelude

  /** What a list of raw steps can be rejected for, here and by the plan builder. */
  datatype Reason =
    | CompositeStepInvalid
    | CompositeStepKeyInvalid
    | CompositeDependencyInvalid
    | CompositeDependencyCycle
    | CompositeRequiresMultipleSteps
    | CompositeStepLimit
    | StepOperationNotRegistered(key: string)
    | StepAssetRolesInvalid(key: string)
    | StepAssetRoleNotApproved(key: string)
    | StepRequiredAssetRoleMissing(key: string, role: string)
    | StepInputNotDeclared(key: string)
    | StepInputSpecInvalid(key: string)
    | StepCostOrRepairBoundInvalid(key: string)

  datatype RawDependencies = NotAList | Names(names: seq<string>)

  datatype RawRoles = RolesNotAList | Roles(names: seq<string>)

  /** The fields only the plan builder reads; `repairBound` is None when it does not parse. */
  datatype StepBody = StepBody(operation: string, roles: RawRoles, inputSpecIsDict: bool, repairBound: Option<int>)

  datatype RawStep = NotADict | Step(key: string, dependsOn: RawDependencies, body: StepBody)

  datatype PlannedStep = PlannedStep(key: string, dependsOn: seq<string>, body: StepBody)

  /** Dependency names of every accepted step. */
  type Graph = map<string, seq<string>>

  // ---------------------------------------------------------------- validation

  predicate LowerCase(c: char) { 'a' <= c <= 'z' }

  predicate ValidKey(k: string) {
    && 1 <= |k| <= 80
    && LowerCase(k[0])
    && forall i | 1 <= i < |k| :: LowerCase(k[i]) || '0' <= k[i] <= '9' || k[i] == '-'
  }

  /** A key is a letter followed by at most 79 letters, digits and hyphens. */
  lemma ValidKeyIff(k: string)
    ensures var letters, others := "abcdefghijklmnopqrstuvwxyz", "0123456789-";
            ValidKey(k) <==>
              && 0 < |k| < 81 && k[0] in letters
              && forall i :: 0 < i < |k| ==> k[i] in letters || k[i] in others
  {
    LettersAndDigits();
  }

  lemma LettersAndDigits()
    ensures forall c: char :: c in "abcdefghijklmnopqrstuvwxyz" <==> LowerCase(c)
    ensures forall c: char :: c in "0123456789-" <==> '0' <= c <= '9' || c == '-'
  {
    var letters, digits := "abcdefghijklmnopqrstuvwxyz", "0123456789-";
    forall c: char ensures c in letters <==> LowerCase(c) {
      if LowerCase(c) { assert letters[(c - 'a') as int] == c; }
    }
    forall c: char ensures c in digits <==> '0' <= c <= '9' || c == '-' {
      if '0' <= c <= '9' { assert digits[(c - '0') as int] == c; }
      if c == '-' { assert digits[10] == c; }
    }
  }

  datatype Accepted = Accepted(byKey: map<string, RawStep>, keys: seq<string>, log: seq<Reason>)

  /** One pass over the raw list: accepted steps, their keys in insertion order, complaints. */
  function Accept(raw: seq<RawStep>): (r: Accepted)
    ensures AllSteps(r.byKey)
  {
    if raw == [] then Accepted(map[], [], [])
    else
      var before := Accept(raw[..|raw| - 1]);
      var step := raw[|raw| - 1];
      if step.NotADict? then before.(log := before.log + [CompositeStepInvalid])
      else if !ValidKey(step.key) || step.key in before.byKey then
        before.(log := before.log + [CompositeStepKeyInvalid])
      else Accepted(before.byKey[step.key := step], before.keys + [step.key], before.log)
  }

  predicate DependenciesRejected(byKey: map<string, RawStep>, key: string)
    requires key in byKey
  {
    || byKey[key].NotADict?
    || byKey[key].dependsOn.NotAList?
    || exists d | d in byKey[key].dependsOn.names :: d !in byKey || d == key
  }

  function DependenciesOf(byKey: map<string, RawStep>, key: string): seq<string>
    requires key in byKey
  {
    if DependenciesRejected(byKey, key) then [] else byKey[key].dependsOn.names
  }

  function GraphOf(byKey: map<string, RawStep>): Graph {
    map k | k in byKey :: DependenciesOf(byKey, k)
  }

  function DependencyLog(byKey: map<string, RawStep>, keys: seq<string>): seq<Reason> {
    if keys == [] then []
    else
      var k := keys[|keys| - 1];
      DependencyLog(byKey, keys[..|keys| - 1])
      + if k in byKey && DependenciesRejected(byKey, k) then [CompositeDependencyInvalid] else []
  }

  // ---------------------------------------------------------------- graph notions

  /** A walk along dependency edges, from a step to what it depends on. */
  ghost predicate IsWalk(g: Graph, p: seq<string>) {
    && |p| > 0
    && (forall i :: 0 <= i < |p| ==> p[i] in g)
    && (forall i :: 0 <= i < |p| - 1 ==> p[i + 1] in g[p[i]])
  }

  ghost predicate HasCycle(g: Graph) {
    exists p {:trigger IsWalk(g, p)} :: IsWalk(g, p) && |p| >= 2 && p[0] == p[|p| - 1]
  }

  /** Every dependency of a step of the graph is a step of the graph. */
  ghost predicate Closed(g: Graph) {
    forall k, d :: k in g && d in g[k] ==> d in g
  }

  ghost function DependingOn(g: Graph, s: set<string>): set<string> {
    set k | k in g && exists d {:trigger d in g[k], d in s} :: d in g[k] && d in s
  }

  /** The steps from which a dependency chain of `n` edges starts. */
  ghost function Waiting(g: Graph, n: nat): set<string>
    decreases n
  {
    if n == 0 then g.Keys else DependingOn(g, Waiting(g, n - 1))
  }

  ghost predicate HasChain(g: Graph, k: string, n: nat) {
    k in Waiting(g, n)
  }

  /** `d` is the length of the longest dependency chain below `k`. */
  ghost predicate IsDepth(g: Graph, k: string, d: nat) {
    HasChain(g, k, d) && !HasChain(g, k, d + 1)
  }

  lemma {:induction false} ChainHasWalk(g: Graph, k: string, n: nat) returns (p: seq<string>)
    requires HasChain(g, k, n)
    ensures IsWalk(g, p) && |p| == n + 1 && p[0] == k
    decreases n
  {
    if n == 0 {
      p := [k];
    } else {
      var d :| d in g[k] && HasChain(g, d, n - 1);
      var q := ChainHasWalk(g, d, n - 1);
      p := [k] + q;
    }
  }

  lemma {:induction false} WalkHasChain(g: Graph, p: seq<string>)
    requires IsWalk(g, p)
    ensures HasChain(g, p[0], |p| - 1)
  {
    if |p| > 1 {
      assert IsWalk(g, p[1..]);
      WalkHasChain(g, p[1..]);
      assert p[1] in g[p[0]];
    }
  }

  /** `HasChain` counts exactly the walks of that many edges. */
  lemma ChainIffWalk(g: Graph, k: string, n: nat)
    ensures HasChain(g, k, n) <==> exists p :: IsWalk(g, p) && |p| == n + 1 && p[0] == k
  {
    if HasChain(g, k, n) {
      var p := ChainHasWalk(g, k, n);
    }
    forall p | IsWalk(g, p) && |p| == n + 1 && p[0] == k ensures HasChain(g, k, n) {
      WalkHasChain(g, p);
    }
  }

  lemma {:induction false} ShorterChain(g: Graph, k: string, m: nat, n: nat)
    requires m <= n && HasChain(g, k, n)
    ensures HasChain(g, k, m)
    decreases m
  {
    if m > 0 {
      var d :| d in g[k] && HasChain(g, d, n - 1);
      ShorterChain(g, d, m - 1, n - 1);
    }
  }

  lemma {:induction false} CycleChains(g: Graph, p: seq<string>, i: nat, n: nat)
    requires IsWalk(g, p) && |p| >= 2 && p[0] == p[|p| - 1] && i < |p|
    ensures HasChain(g, p[i], n)
    decreases n
  {
    if n > 0 {
      var j := if i < |p| - 1 then i else 0;
      assert p[j] == p[i] && p[j + 1] in g[p[j]];
      CycleChains(g, p, j + 1, n - 1);
    }
  }

  lemma RepeatInWalk(g: Graph, p: seq<string>) returns (i: nat, j: nat)
    requires IsWalk(g, p) && |p| > |g|
    ensures i < j < |p| && p[i] == p[j]
  {
    if NoDuplicates(p) {
      DistinctFitsInSet(p, g.Keys);
      assert false;
    }
    i, j :| 0 <= i < j < |p| && p[i] == p[j];
  }

  lemma SubWalk(g: Graph, p: seq<string>, i: nat, j: nat)
    requires IsWalk(g, p) && i < j < |p|
    ensures IsWalk(g, p[i..j + 1])
  {
  }

  lemma LongChainHasCycle(g: Graph, k: string)
    requires HasChain(g, k, |g|)
    ensures HasCycle(g)
  {
    var p := ChainHasWalk(g, k, |g|);
    var i, j := RepeatInWalk(g, p);
    SubWalk(g, p, i, j);
  }

  /** A graph has a cycle exactly when some step starts a chain as long as the graph is big. */
  lemma CycleIffLongChain(g: Graph)
    ensures HasCycle(g) <==> Waiting(g, |g|) != {}
  {
    if HasCycle(g) {
      var p :| IsWalk(g, p) && |p| >= 2 && p[0] == p[|p| - 1];
      CycleChains(g, p, 0, |g|);
    }
    if Waiting(g, |g|) != {} {
      var k :| k in Waiting(g, |g|);
      LongChainHasCycle(g, k);
    }
  }

  // ---------------------------------------------------------------- the order

  ghost function Layer(g: Graph, i: nat): set<string> {
    Waiting(g, i) - Waiting(g, i + 1)
  }

  /** The first `n` layers, each sorted by key. */
  ghost function Layers(g: Graph, n: nat): seq<string> {
    if n == 0 then [] else Layers(g, n - 1) + SortedKeys(Layer(g, n - 1))
  }

  ghost function CanonicalOrder(g: Graph): seq<string> {
    Layers(g, |g|)
  }

  /** The longest chain below `k` that is shorter than `n` edges. */
  ghost function DepthWithin(g: Graph, k: string, n: nat): nat {
    if n == 0 then 0 else if HasChain(g, k, n - 1) then n - 1 else DepthWithin(g, k, n - 1)
  }

  ghost function Depth(g: Graph, k: string): nat {
    DepthWithin(g, k, |g|)
  }

  /** Strictly before in the (depth, key) order. */
  ghost predicate Before(g: Graph, a: string, b: string) {
    Depth(g, a) < Depth(g, b) || (Depth(g, a) == Depth(g, b) && KeyLess(a, b))
  }

  ghost predicate InOrder(g: Graph, order: seq<string>) {
    forall i, j :: 0 <= i < j < |order| ==> Before(g, order[i], order[j])
  }

  ghost function Members(order: seq<string>): set<string> {
    set k | k in order
  }

  /** A permutation of the steps in ascending (depth, key) order. */
  ghost predicate IsLayered(g: Graph, order: seq<string>) {
    Members(order) == g.Keys && InOrder(g, order)
  }

  lemma {:induction false} DepthWithinIsDepth(g: Graph, k: string, n: nat)
    requires k in g && !HasChain(g, k, n)
    ensures IsDepth(g, k, DepthWithin(g, k, n)) && DepthWithin(g, k, n) < n
    decreases n
  {
    if !HasChain(g, k, n - 1) {
      DepthWithinIsDepth(g, k, n - 1);
    }
  }

  /** Without a cycle, `Depth` is the length of the longest chain below a step. */
  lemma DepthIsLongestChain(g: Graph, k: string)
    requires !HasCycle(g) && k in g
    ensures IsDepth(g, k, Depth(g, k))
  {
    CycleIffLongChain(g);
    DepthWithinIsDepth(g, k, |g|);
  }

  lemma DepthUnique(g: Graph, k: string, i: nat, j: nat)
    requires IsDepth(g, k, i) && IsDepth(g, k, j)
    ensures i == j
  {
    if i < j { ShorterChain(g, k, i + 1, j); }
    if j < i { ShorterChain(g, k, j + 1, i); }
  }

  lemma LayerDepth(g: Graph, i: nat, k: string)
    requires i < |g| && k in Layer(g, i)
    ensures Depth(g, k) == i
  {
    if HasChain(g, k, |g|) { ShorterChain(g, k, i + 1, |g|); }
    DepthWithinIsDepth(g, k, |g|);
    DepthUnique(g, k, i, Depth(g, k));
  }

  lemma WaitingInGraph(g: Graph, n: nat)
    ensures Waiting(g, n) <= g.Keys
  {
  }

  lemma WaitingShrinks(g: Graph, m: nat, n: nat)
    requires m <= n
    ensures Waiting(g, n) <= Waiting(g, m)
  {
  }

  lemma AppendMembers(front: seq<string>, all: set<string>, w1: set<string>, w2: set<string>)
    requires Members(front) == all - w1 && w2 <= w1 <= all
    ensures Members(front + SortedKeys(w1 - w2)) == all - w2
  {
    var back := SortedKeys(w1 - w2);
    assert forall k :: k in front + back <==> k in front || k in back;
    forall k ensures k in front <==> k in all - w1 { assert k in front <==> k in Members(front); }
  }

  lemma NothingLayered(g: Graph)
    ensures Members(Layers(g, 0)) == g.Keys - Waiting(g, 0)
  {
    assert forall k :: k in g.Keys ==> k in Waiting(g, 0);
  }

  /** The first `n` layers hold exactly the steps that are not waiting at round `n`. */
  lemma {:induction false} LayersHold(g: Graph, n: nat)
    ensures Members(Layers(g, n)) == g.Keys - Waiting(g, n)
  {
    hide Waiting, Members;
    if n == 0 {
      NothingLayered(g);
    } else {
      LayersHold(g, n - 1);
      WaitingShrinks(g, n - 1, n);
      WaitingInGraph(g, n - 1);
      AppendMembers(Layers(g, n - 1), g.Keys, Waiting(g, n - 1), Waiting(g, n));
    }
  }

  lemma {:induction false} LayersAreInOrder(g: Graph, n: nat)
    requires n <= |g|
    ensures InOrder(g, Layers(g, n))
    ensures forall k :: k in Layers(g, n) ==> Depth(g, k) < n
  {
    if n > 0 {
      LayersAreInOrder(g, n - 1);
      var layer := Layer(g, n - 1);
      LayerDepths(g, n - 1, SortedKeys(layer));
      AppendLayer(g, n - 1, Layers(g, n - 1), layer);
    }
  }

  lemma LayerDepths(g: Graph, i: nat, layer: seq<string>)
    requires i < |g| && forall k :: k in layer ==> k in Layer(g, i)
    ensures forall k :: k in layer ==> Depth(g, k) == i
  {
    forall k | k in layer ensures Depth(g, k) == i { LayerDepth(g, i, k); }
  }

  lemma AppendLayer(g: Graph, d: nat, front: seq<string>, layer: set<string>)
    requires InOrder(g, front)
    requires forall k :: k in front ==> Depth(g, k) < d
    requires forall k :: k in SortedKeys(layer) ==> Depth(g, k) == d
    ensures InOrder(g, front + SortedKeys(layer))
    ensures forall k :: k in front + SortedKeys(layer) ==> Depth(g, k) <= d
  {
    SortedKeysAreSorted(layer);
    AppendSorted(g, d, front, SortedKeys(layer));
  }

  lemma AppendSorted(g: Graph, d: nat, front: seq<string>, back: seq<string>)
    requires InOrder(g, front) && StrictlySorted(back)
    requires forall k :: k in front ==> Depth(g, k) < d
    requires forall k :: k in back ==> Depth(g, k) == d
    ensures InOrder(g, front + back)
    ensures forall k :: k in front + back ==> Depth(g, k) <= d
  {
  }

  /** Without a cycle the canonical order is the layered permutation of all steps. */
  lemma CanonicalOrderIsLayered(g: Graph)
    requires !HasCycle(g)
    ensures IsLayered(g, CanonicalOrder(g))
  {
    CycleIffLongChain(g);
    assert Waiting(g, |g|) == {};
    LayersHold(g, |g|);
    LayersAreInOrder(g, |g|);
  }

  lemma BeforeIsStrict(g: Graph, a: string, b: string)
    requires Before(g, a, b)
    ensures a != b && !Before(g, b, a)
  {
  }

  /** There is only one layered permutation: the order is fixed by the graph alone. */
  lemma {:induction false} LayeredOrderIsUnique(g: Graph, a: seq<string>, b: seq<string>)
    requires Members(a) == Members(b) && InOrder(g, a) && InOrder(g, b)
    ensures a == b
  {
    if a == [] {
      if b != [] { FirstIsFirst(g, b, a); }
    } else {
      FirstIsFirst(g, a, b);
      assert a == [a[0]] + a[1..] && b == [b[0]] + b[1..];
      TailMembers(g, a);
      TailMembers(g, b);
      LayeredOrderIsUnique(g, a[1..], b[1..]);
    }
  }

  lemma FirstIsFirst(g: Graph, a: seq<string>, b: seq<string>)
    requires Members(a) == Members(b) && InOrder(g, a) && InOrder(g, b)
    requires a != []
    ensures b != [] && a[0] == b[0]
  {
    assert a[0] in Members(b);
    var x :| 0 <= x < |b| && b[x] == a[0];
    assert b[0] in Members(a);
    var y :| 0 <= y < |a| && a[y] == b[0];
    if x > 0 && y > 0 {
      BeforeIsStrict(g, a[0], a[y]);
    }
  }

  lemma TailMembers(g: Graph, a: seq<string>)
    requires a != [] && InOrder(g, a)
    ensures Members(a[1..]) == Members(a) - {a[0]}
    ensures InOrder(g, a[1..])
  {
  }

  /** A step stands after everything it depends on: why the stored order can be executed. */
  lemma DependenciesComeFirst(g: Graph, i: nat, d: string) returns (j: nat)
    requires !HasCycle(g) && Closed(g)
    requires i < |CanonicalOrder(g)| && CanonicalOrder(g)[i] in g && d in g[CanonicalOrder(g)[i]]
    ensures j < i && CanonicalOrder(g)[j] == d
  {
    var order := CanonicalOrder(g);
    var k := order[i];
    CanonicalOrderIsLayered(g);
    assert d in Members(order);
    j :| 0 <= j < |order| && order[j] == d;
    DeeperThanDependency(g, k, d);
    if j >= i {
      if j > i { BeforeIsStrict(g, k, d); }
      assert false;
    }
  }

  lemma DeeperThanDependency(g: Graph, k: string, d: string)
    requires !HasCycle(g) && Closed(g) && k in g && d in g[k]
    ensures Depth(g, d) < Depth(g, k)
  {
    DepthIsLongestChain(g, k);
    DepthIsLongestChain(g, d);
    assert HasChain(g, k, Depth(g, d) + 1);
    if Depth(g, k) <= Depth(g, d) {
      ShorterChain(g, k, Depth(g, k) + 1, Depth(g, d) + 1);
      assert false;
    }
  }

  /** When a round lays out nothing, every step still waiting waits forever. */
  lemma {:induction false} StuckForever(g: Graph, r: nat, n: nat)
    requires r <= n && Waiting(g, r) <= Waiting(g, r + 1)
    ensures Waiting(g, n) == Waiting(g, r)
    ensures Layers(g, n) == Layers(g, r)
    decreases n
  {
    WaitingShrinks(g, r, r + 1);
    if n > r {
      StuckForever(g, r, n - 1);
      assert Layer(g, n - 1) == {};
    }
  }

  // ---------------------------------------------------------------- the procedure

  function Planned(byKey: map<string, RawStep>, key: string): PlannedStep
    requires key in byKey && byKey[key].Step?
  {
    PlannedStep(key, DependenciesOf(byKey, key), byKey[key].body)
  }

  ghost predicate AllSteps(byKey: map<string, RawStep>) {
    forall k :: k in byKey ==> byKey[k].Step? && byKey[k].key == k
  }

  /** The plan entry of every accepted step. */
  function EntriesOf(byKey: map<string, RawStep>): (r: map<string, PlannedStep>)
    requires AllSteps(byKey)
    ensures r.Keys == byKey.Keys && Keyed(r)
  {
    map k | k in byKey :: Planned(byKey, k)
  }

  ghost predicate Keyed(entries: map<string, PlannedStep>) {
    forall k :: k in entries ==> entries[k].key == k
  }

  ghost function PlanAll(entries: map<string, PlannedStep>, keys: seq<string>): (r: seq<PlannedStep>)
    requires Members(keys) <= entries.Keys
    ensures |r| == |keys|
    ensures forall i :: 0 <= i < |keys| ==> keys[i] in entries && r[i] == entries[keys[i]]
  {
    seq(|keys|, i requires 0 <= i < |keys| => assert keys[i] in Members(keys); entries[keys[i]])
  }

  /** What acceptance keeps: keys and steps agree and are listed once, in insertion order. */
  lemma {:induction false} AcceptIsConsistent(raw: seq<RawStep>)
    ensures Members(Accept(raw).keys) == Accept(raw).byKey.Keys
    ensures forall k :: k in Accept(raw).byKey ==> Accept(raw).byKey[k] in raw
  {
    if raw != [] {
      AcceptIsConsistent(raw[..|raw| - 1]);
    }
  }

  lemma GraphIsClosed(byKey: map<string, RawStep>)
    ensures Closed(GraphOf(byKey))
  {
  }

  /** The complaints of the three passes, each reported once. */
  ghost function ReasonsFor(a: Accepted): seq<Reason> {
    FirstOccurrences(a.log + DependencyLog(a.byKey, a.keys)
                     + if HasCycle(GraphOf(a.byKey)) then [CompositeDependencyCycle] else [])
  }

  ghost function OrderFor(a: Accepted): seq<PlannedStep>
    requires AllSteps(a.byKey)
  {
    LayersHold(GraphOf(a.byKey), |GraphOf(a.byKey)|);
    PlanAll(EntriesOf(a.byKey), CanonicalOrder(GraphOf(a.byKey)))
  }

  /**
   * The procedure itself. It terminates on every input; its complaints are exactly those
   * of the three passes, and what it lays out is the canonical order of the steps that
   * do not wait on a cycle.
   */
  method OrderSteps(raw: seq<RawStep>) returns (ordered: seq<PlannedStep>, reasons: seq<Reason>)
    ensures ordered == OrderFor(Accept(raw))
    ensures reasons == ReasonsFor(Accept(raw))
  {
    var accepted := AcceptSteps(raw);
    AcceptIsConsistent(raw);
    var dependencies, log := CollectDependencies(accepted);
    GraphIsClosed(accepted.byKey);
    var stuck;
    ordered, stuck := LayOut(EntriesOf(accepted.byKey), dependencies);
    reasons := FirstOccurrences(log + if stuck then [CompositeDependencyCycle] else []);
  }

  lemma DependencyLogAppend(byKey: map<string, RawStep>, keys: seq<string>, k: string)
    requires k in byKey
    ensures DependencyLog(byKey, keys + [k]) ==
            DependencyLog(byKey, keys) + if DependenciesRejected(byKey, k) then [CompositeDependencyInvalid] else []
  {
  }

  /** First pass: index the valid steps by key, in insertion order. */
  method AcceptSteps(raw: seq<RawStep>) returns (a: Accepted)
    ensures a == Accept(raw)
  {
    a := Accepted(map[], [], []);
    for i := 0 to |raw|
      invariant a == Accept(raw[..i])
    {
      var step := raw[i];
      assert raw[..i + 1][..i] == raw[..i];
      if step.NotADict? {
        a := a.(log := a.log + [CompositeStepInvalid]);
      } else if !ValidKey(step.key) || step.key in a.byKey {
        a := a.(log := a.log + [CompositeStepKeyInvalid]);
      } else {
        a := Accepted(a.byKey[step.key := step], a.keys + [step.key], a.log);
      }
    }
    assert raw[..|raw|] == raw;
  }

  /** Second pass: the dependency names of every accepted step. */
  method CollectDependencies(a: Accepted) returns (dependencies: Graph, log: seq<Reason>)
    requires Members(a.keys) == a.byKey.Keys
    ensures dependencies == GraphOf(a.byKey)
    ensures log == a.log + DependencyLog(a.byKey, a.keys)
  {
    dependencies, log := map[], a.log;
    for i := 0 to |a.keys|
      invariant dependencies.Keys == Members(a.keys[..i]) <= a.byKey.Keys
      invariant forall k :: k in dependencies ==> dependencies[k] == DependenciesOf(a.byKey, k)
      invariant log == a.log + DependencyLog(a.byKey, a.keys[..i])
    {
      var k := a.keys[i];
      assert k in Members(a.keys);
      TakeOneMore([], a.keys, i);
      MembersAppend(a.keys[..i], k);
      DependencyLogAppend(a.byKey, a.keys[..i], k);
      if DependenciesRejected(a.byKey, k) {
        log := log + [CompositeDependencyInvalid];
      }
      dependencies := dependencies[k := DependenciesOf(a.byKey, k)];
    }
    assert a.keys[..|a.keys|] == a.keys;
  }

  ghost function Restrict(g: Graph, s: set<string>): (r: Graph)
    ensures s <= g.Keys ==> r.Keys == s
  {
    map k | k in g && k in s :: g[k]
  }

  lemma RestrictLess(g: Graph, now: set<string>, next: set<string>)
    requires next <= now <= g.Keys
    ensures Restrict(g, now) - (now - next) == Restrict(g, next)
  {
  }

  /** The waiting steps whose dependencies were all laid out before this round. */
  function ReadyKeys(remaining: Graph, ordered: seq<PlannedStep>): set<string> {
    var done := set p | p in ordered :: p.key;
    set k | k in remaining && forall d | d in remaining[k] :: d in done
  }

  /** What holds between rounds: `before` is laid out, the steps of `waiting` are not. */
  ghost predicate RoundState(entries: map<string, PlannedStep>, g: Graph, before: seq<string>, waiting: set<string>,
                             ordered: seq<PlannedStep>, remaining: Graph)
  {
    && waiting <= g.Keys == entries.Keys
    && Members(before) == g.Keys - waiting
    && ordered == PlanAll(entries, before)
    && remaining == Restrict(g, waiting)
  }

  lemma RoundZero(entries: map<string, PlannedStep>, g: Graph)
    requires entries.Keys == g.Keys
    ensures RoundState(entries, g, [], g.Keys, [], g)
  {
  }

  /** The ready steps are the waiting ones that depend on no waiting step. */
  lemma ReadyKeysAreFree(entries: map<string, PlannedStep>, g: Graph, before: seq<string>, waiting: set<string>,
                         ordered: seq<PlannedStep>, remaining: Graph)
    requires Closed(g) && Keyed(entries) && RoundState(entries, g, before, waiting, ordered, remaining)
    ensures ReadyKeys(remaining, ordered) == waiting - DependingOn(g, waiting)
    ensures waiting - DependingOn(g, waiting) <= remaining.Keys
  {
    PlannedKeys(entries, before);
    ReadyIsNotDepending(g, waiting, ReadyKeys(remaining, ordered));
  }

  /** Appending the ready steps and taking them off the waiting list keeps the loop state. */
  lemma NextRound(entries: map<string, PlannedStep>, g: Graph, before: seq<string>, waiting: set<string>,
                  ready: seq<string>, next: set<string>, ordered: seq<PlannedStep>, remaining: Graph)
    requires waiting <= g.Keys == entries.Keys && Members(before) == g.Keys - waiting
    requires next <= waiting && Members(ready) == waiting - next
    requires Members(before + ready) <= entries.Keys && ordered == PlanAll(entries, before + ready)
    requires remaining == Restrict(g, waiting) - Members(ready)
    ensures RoundState(entries, g, before + ready, next, ordered, remaining)
  {
    MembersConcat(before, ready);
    RestrictLess(g, waiting, next);
  }

  lemma MembersConcat(a: seq<string>, b: seq<string>)
    ensures Members(a + b) == Members(a) + Members(b)
  {
  }

  lemma NoReadySteps(g: Graph, waiting: set<string>)
    requires DependingOn(g, waiting) <= waiting && SortedKeys(waiting - DependingOn(g, waiting)) == []
    ensures DependingOn(g, waiting) == waiting
  {
    SortedKeysAreDistinct(waiting - DependingOn(g, waiting));
    assert waiting - DependingOn(g, waiting) == {};
  }

  lemma FinalRound(g: Graph, r: nat)
    requires r <= |g| && (Waiting(g, r) == {} || DependingOn(g, Waiting(g, r)) == Waiting(g, r))
    ensures CanonicalOrder(g) == Layers(g, r) && (HasCycle(g) <==> Waiting(g, r) != {})
  {
    WaitingShrinks(g, r, r + 1);
    StuckForever(g, r, |g|);
    CycleIffLongChain(g);
  }

  /** The round loop: lays out every ready step until none remain or none is ready. */
  method LayOut(entries: map<string, PlannedStep>, dependencies: Graph) returns (ordered: seq<PlannedStep>, stuck: bool)
    requires Keyed(entries) && entries.Keys == dependencies.Keys && Closed(dependencies)
    ensures Members(CanonicalOrder(dependencies)) <= entries.Keys
    ensures ordered == PlanAll(entries, CanonicalOrder(dependencies))
    ensures stuck <==> HasCycle(dependencies)
  {
    hide DependingOn;
    ordered, stuck := [], false;
    var remaining := dependencies;
    ghost var r: nat, before, waiting := 0, [], dependencies.Keys;
    RoundZero(entries, dependencies);
    while remaining != map[]
      invariant before == Layers(dependencies, r) && waiting == Waiting(dependencies, r)
      invariant RoundState(entries, dependencies, before, waiting, ordered, remaining)
      invariant r + |remaining| <= |dependencies|
      decreases |remaining|
    {
      WaitingShrinks(dependencies, r, r + 1);
      var ready;
      ordered, remaining, ready := LayOutRound(entries, dependencies, before, waiting, ordered, remaining);
      if ready == [] {
        stuck := true;
        break;
      }
      r, before, waiting := r + 1, before + ready, DependingOn(dependencies, waiting);
    }
    FinalRound(dependencies, r);
  }

  /** One round: finds the ready steps and, if there are any, lays them out. */
  method LayOutRound(entries: map<string, PlannedStep>, ghost g: Graph, ghost before: seq<string>,
                     ghost waiting: set<string>, ordered0: seq<PlannedStep>, remaining0: Graph)
    returns (ordered: seq<PlannedStep>, remaining: Graph, ready: seq<string>)
    requires Keyed(entries) && Closed(g) && DependingOn(g, waiting) <= waiting
    requires RoundState(entries, g, before, waiting, ordered0, remaining0)
    ensures ready == SortedKeys(waiting - DependingOn(g, waiting))
    ensures ready == [] ==> DependingOn(g, waiting) == waiting && ordered == ordered0 && remaining == remaining0
    ensures RoundState(entries, g, before + ready, DependingOn(g, waiting), ordered, remaining)
    ensures |remaining| == |remaining0| - |ready|
  {
    hide DependingOn;
    ready := SortedKeys(ReadyKeys(remaining0, ordered0));
    ReadyKeysAreFree(entries, g, before, waiting, ordered0, remaining0);
    SortedKeysAreDistinct(ReadyKeys(remaining0, ordered0));
    if ready == [] { NoReadySteps(g, waiting); }
    ordered, remaining := AppendRound(entries, before, ordered0, ready, remaining0);
    NextRound(entries, g, before, waiting, ready, DependingOn(g, waiting), ordered, remaining);
  }

  /** The inner loop of a round: appends the ready steps and takes them off the waiting list. */
  method AppendRound(entries: map<string, PlannedStep>, ghost before: seq<string>, ordered0: seq<PlannedStep>,
                     ready: seq<string>, remaining0: Graph)
    returns (ordered: seq<PlannedStep>, remaining: Graph)
    requires Members(before) <= entries.Keys && Members(ready) <= remaining0.Keys <= entries.Keys
    requires NoDuplicates(ready)
    requires ordered0 == PlanAll(entries, before)
    ensures Members(before + ready) <= entries.Keys
    ensures ordered == PlanAll(entries, before + ready)
    ensures remaining == remaining0 - Members(ready)
    ensures |remaining| == |remaining0| - |ready|
    ensures ready == [] ==> ordered == ordered0 && remaining == remaining0
  {
    hide Members, PlanAll, NoDuplicates;
    ordered, remaining := ordered0, remaining0;
    assert before + ready[..0] == before;
    NothingRemoved(remaining0);
    for i := 0 to |ready|
      invariant remaining == remaining0 - Members(ready[..i])
      invariant |remaining| == |remaining0| - i
      invariant Members(before + ready[..i]) <= entries.Keys
      invariant ordered == PlanAll(entries, before + ready[..i])
    {
      var key := ready[i];
      ReadyMember(ready, i);
      TakeOneMore(before, ready, i);
      PlanAllAppend(entries, before + ready[..i], key);
      MembersAppend(before + ready[..i], key);
      ordered := ordered + [entries[key]];
      RemoveKey(remaining0, Members(ready[..i]), key);
      MembersAppend(ready[..i], key);
      remaining := remaining - {key};
    }
    assert ready[..|ready|] == ready;
  }

  lemma NothingRemoved(g: Graph)
    ensures Members([]) == {} && g - Members([]) == g
  {
  }

  lemma ReadyMember(ready: seq<string>, i: nat)
    requires i < |ready| && NoDuplicates(ready)
    ensures ready[i] in Members(ready) && ready[i] !in Members(ready[..i])
  {
  }

  lemma MembersAppend(s: seq<string>, k: string)
    ensures Members(s + [k]) == Members(s) + {k}
  {
  }

  lemma RemoveKey(g: Graph, gone: set<string>, k: string)
    requires k in g && k !in gone
    ensures g - gone - {k} == g - (gone + {k})
    ensures |g - gone - {k}| == |g - gone| - 1
  {
  }

  lemma PlanAllAppend(entries: map<string, PlannedStep>, keys: seq<string>, k: string)
    requires Members(keys) <= entries.Keys && k in entries
    ensures Members(keys + [k]) <= entries.Keys
    ensures PlanAll(entries, keys + [k]) == PlanAll(entries, keys) + [entries[k]]
  {
  }

  lemma PlannedKeys(entries: map<string, PlannedStep>, keys: seq<string>)
    requires Keyed(entries) && Members(keys) <= entries.Keys
    ensures (set p | p in PlanAll(entries, keys) :: p.key) == Members(keys)
  {
  }

  lemma ReadyIsNotDepending(g: Graph, waiting: set<string>, readySet: set<string>)
    requires Closed(g) && waiting <= g.Keys
    requires readySet == set k | k in waiting && forall d | d in g[k] :: d in g.Keys - waiting
    ensures readySet == waiting - DependingOn(g, waiting)
  {
  }

  lemma {:induction false} DependencyLogHasOneReason(byKey: map<string, RawStep>, keys: seq<string>)
    ensures forall x :: x in DependencyLog(byKey, keys) ==> x == CompositeDependencyInvalid
    ensures CompositeDependencyInvalid in DependencyLog(byKey, keys) <==>
            exists k :: k in keys && k in byKey && DependenciesRejected(byKey, k)
  {
    if keys != [] {
      var front, last := keys[..|keys| - 1], keys[|keys| - 1];
      assert keys == front + [last];
      DependencyLogHasOneReason(byKey, front);
    }
  }

  lemma {:induction false} AcceptLogIsLocal(raw: seq<RawStep>)
    ensures forall x :: x in Accept(raw).log ==> x == CompositeStepInvalid || x == CompositeStepKeyInvalid
  {
    if raw != [] {
      AcceptLogIsLocal(raw[..|raw| - 1]);
    }
  }
}

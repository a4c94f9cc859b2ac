/** What the order of a composite plan depends on (planning/services.py, lines 350-379). */
module OrderTheorems {
  import opened Prelude
  import opened TopologicalSteps

  /** Well-formed steps with distinct keys, no dependency on a missing step or on itself. */
  ghost predicate ValidSteps(raw: seq<RawStep>) {
    && (forall x :: x in raw ==> x.Step? && ValidKey(x.key) && x.dependsOn.Names?)
    && (forall i, j :: 0 <= i < j < |raw| ==> raw[i].key != raw[j].key)
    && (forall x, d :: x in raw && d in x.dependsOn.names ==> d != x.key && exists y :: y in raw && y.key == d)
  }

  /** Valid steps are all accepted, each under its own key. */
  lemma {:induction false} AcceptsAll(raw: seq<RawStep>)
    requires forall x :: x in raw ==> x.Step? && ValidKey(x.key)
    requires forall i, j :: 0 <= i < j < |raw| ==> raw[i].key != raw[j].key
    ensures Accept(raw).log == []
    ensures forall x :: x in raw ==> x.key in Accept(raw).byKey && Accept(raw).byKey[x.key] == x
  {
    if raw != [] {
      var front, last := raw[..|raw| - 1], raw[|raw| - 1];
      assert raw == front + [last];
      AcceptsAll(front);
      AcceptIsConsistent(front);
    }
  }

  lemma ValidDependenciesAccepted(raw: seq<RawStep>)
    requires ValidSteps(raw)
    ensures forall k :: k in Accept(raw).byKey ==> !DependenciesRejected(Accept(raw).byKey, k)
  {
    AcceptsAll(raw);
    AcceptIsConsistent(raw);
  }

  /** The cycle complaint is exact, whatever else is wrong with the list. */
  lemma CycleReportedIffCycle(raw: seq<RawStep>)
    ensures CompositeDependencyCycle in ReasonsFor(Accept(raw)) <==> HasCycle(GraphOf(Accept(raw).byKey))
  {
    AcceptLogIsLocal(raw);
    DependencyLogHasOneReason(Accept(raw).byKey, Accept(raw).keys);
  }

  lemma {:induction false} NoDependencyComplaints(byKey: map<string, RawStep>, keys: seq<string>)
    requires forall k :: k in byKey ==> !DependenciesRejected(byKey, k)
    ensures DependencyLog(byKey, keys) == []
  {
    if keys != [] { NoDependencyComplaints(byKey, keys[..|keys| - 1]); }
  }

  lemma ReasonsWithoutLogs(a: Accepted)
    requires a.log == [] && DependencyLog(a.byKey, a.keys) == []
    ensures ReasonsFor(a) == if HasCycle(GraphOf(a.byKey)) then [CompositeDependencyCycle] else []
  {
    hide HasCycle, GraphOf, FirstOccurrences;
    FirstOccurrencesOfFew(CompositeDependencyCycle);
    assert a.log + DependencyLog(a.byKey, a.keys) + [CompositeDependencyCycle] == [CompositeDependencyCycle];
    assert a.log + DependencyLog(a.byKey, a.keys) + [] == [];
  }

  /** A valid list is rejected exactly for having a cycle, and for nothing else. */
  lemma ValidStepsFailOnlyOnCycle(raw: seq<RawStep>)
    requires ValidSteps(raw)
    ensures ReasonsFor(Accept(raw)) == if HasCycle(GraphOf(Accept(raw).byKey)) then [CompositeDependencyCycle] else []
  {
    var a := Accept(raw);
    AcceptsAll(raw);
    ValidDependenciesAccepted(raw);
    NoDependencyComplaints(a.byKey, a.keys);
    hide *;
    ReasonsWithoutLogs(a);
  }

  ghost function KeysOf(plan: seq<PlannedStep>): seq<string> {
    seq(|plan|, i requires 0 <= i < |plan| => plan[i].key)
  }

  /**
   * Without a cycle the result is a permutation of the accepted steps in ascending
   * (depth, key) order, depth being the length of the longest dependency chain.
   */
  lemma OrderIsLayered(raw: seq<RawStep>)
    requires !HasCycle(GraphOf(Accept(raw).byKey))
    ensures IsLayered(GraphOf(Accept(raw).byKey), KeysOf(OrderFor(Accept(raw))))
    ensures forall k :: k in Accept(raw).byKey ==>
              IsDepth(GraphOf(Accept(raw).byKey), k, Depth(GraphOf(Accept(raw).byKey), k))
  {
    var a := Accept(raw);
    var g := GraphOf(a.byKey);
    hide Depth, InOrder, Layers, HasCycle;
    CanonicalOrderIsLayered(g);
    LayersHold(g, |g|);
    KeysOfPlan(EntriesOf(a.byKey), CanonicalOrder(g));
    AllDepths(g);
  }

  lemma KeysOfPlan(entries: map<string, PlannedStep>, keys: seq<string>)
    requires Keyed(entries) && Members(keys) <= entries.Keys
    ensures KeysOf(PlanAll(entries, keys)) == keys
  {
  }

  lemma AllDepths(g: Graph)
    requires !HasCycle(g)
    ensures forall k :: k in g ==> IsDepth(g, k, Depth(g, k))
  {
    forall k | k in g ensures IsDepth(g, k, Depth(g, k)) { DepthIsLongestChain(g, k); }
  }

  lemma RepeatHasMultiplicity<T>(s: seq<T>, i: nat, j: nat)
    requires i < j < |s| && s[i] == s[j]
    ensures multiset(s)[s[i]] >= 2
  {
    assert s == s[..j] + s[j..];
    assert s[..j][i] == s[i] && s[j..][0] == s[i];
  }

  lemma {:induction false} MultiplicityHasRepeat<T>(s: seq<T>, x: T) returns (i: nat, j: nat)
    requires multiset(s)[x] >= 2
    ensures i < j < |s| && s[i] == x == s[j]
  {
    var front := s[..|s| - 1];
    assert s == front + [s[|s| - 1]];
    if s[|s| - 1] == x {
      assert x in multiset(front);
      i :| 0 <= i < |front| && front[i] == x;
      j := |s| - 1;
    } else {
      i, j := MultiplicityHasRepeat(front, x);
    }
  }

  lemma PermutedStepsValid(a: seq<RawStep>, b: seq<RawStep>)
    requires ValidSteps(a) && multiset(a) == multiset(b)
    ensures ValidSteps(b)
    ensures forall x :: x in a <==> x in b
  {
    forall x ensures x in a <==> x in b { assert x in multiset(a) <==> x in multiset(b); }
    forall i, j | 0 <= i < j < |b| ensures b[i].key != b[j].key {
      assert b[i] in a && b[j] in a;
      if b[i].key == b[j].key {
        var m :| 0 <= m < |a| && a[m] == b[i];
        var n :| 0 <= n < |a| && a[n] == b[j];
        assert m == n;
        RepeatHasMultiplicity(b, i, j);
        var p, q := MultiplicityHasRepeat(a, b[i]);
        assert false;
      }
    }
  }

  /** Permuting a valid step list changes neither the order nor the complaints. */
  lemma PermutingStepsChangesNothing(a: seq<RawStep>, b: seq<RawStep>)
    requires ValidSteps(a) && multiset(a) == multiset(b)
    ensures OrderFor(Accept(a)) == OrderFor(Accept(b))
    ensures ReasonsFor(Accept(a)) == ReasonsFor(Accept(b))
  {
    PermutedStepsValid(a, b);
    AcceptsAll(a);
    AcceptsAll(b);
    AcceptIsConsistent(a);
    AcceptIsConsistent(b);
    assert Accept(a).byKey == Accept(b).byKey;
    ValidStepsFailOnlyOnCycle(a);
    ValidStepsFailOnlyOnCycle(b);
  }

  /** A list without complaints has no invalid step, no rejected dependency and no cycle. */
  lemma NoComplaintsMeansValid(raw: seq<RawStep>)
    requires ReasonsFor(Accept(raw)) == []
    ensures Accept(raw).log == [] && !HasCycle(GraphOf(Accept(raw).byKey))
    ensures forall k :: k in Accept(raw).byKey ==> !DependenciesRejected(Accept(raw).byKey, k)
  {
    var a := Accept(raw);
    var cycle := if HasCycle(GraphOf(a.byKey)) then [CompositeDependencyCycle] else [];
    hide HasCycle, Accept, DependencyLog;
    EmptyWhenNoFirst(a.log + DependencyLog(a.byKey, a.keys) + cycle);
    AcceptIsConsistent(raw);
    DependencyLogHasOneReason(a.byKey, a.keys);
    forall k | k in a.byKey ensures !DependenciesRejected(a.byKey, k) { assert k in Members(a.keys); }
  }

  lemma EmptyWhenNoFirst<T(!new)>(s: seq<T>)
    requires FirstOccurrences(s) == []
    ensures s == []
  {
  }

  /** An accepted list without complaints has distinct keys and valid names. */
  lemma {:induction false} EmptyLogMeansDistinct(raw: seq<RawStep>)
    requires Accept(raw).log == []
    ensures forall x :: x in raw ==>
              x.Step? && ValidKey(x.key) && x.key in Accept(raw).byKey && Accept(raw).byKey[x.key] == x
    ensures forall i, j :: 0 <= i < j < |raw| ==> raw[i].key != raw[j].key
  {
    if raw != [] {
      var front, last := raw[..|raw| - 1], raw[|raw| - 1];
      assert raw == front + [last];
      EmptyLogMeansDistinct(front);
      assert forall i :: 0 <= i < |front| ==> front[i] in front;
    }
  }

  /** No complaints about the order exactly for valid steps without a cycle. */
  lemma NoReasonsIffValid(raw: seq<RawStep>)
    ensures ReasonsFor(Accept(raw)) == [] <==> ValidSteps(raw) && !HasCycle(GraphOf(Accept(raw).byKey))
  {
    hide HasCycle, ReasonsFor, GraphOf;
    if ReasonsFor(Accept(raw)) == [] {
      NoComplaintsMeansValid(raw);
      EmptyLogMeansDistinct(raw);
      AcceptIsConsistent(raw);
      UnrejectedAreValid(raw);
    }
    if ValidSteps(raw) {
      ValidStepsFailOnlyOnCycle(raw);
    }
  }

  lemma UnrejectedAreValid(raw: seq<RawStep>)
    requires forall x :: x in raw ==>
               x.Step? && ValidKey(x.key) && x.key in Accept(raw).byKey && Accept(raw).byKey[x.key] == x
    requires forall i, j :: 0 <= i < j < |raw| ==> raw[i].key != raw[j].key
    requires forall k :: k in Accept(raw).byKey ==>
               Accept(raw).byKey[k] in raw && !DependenciesRejected(Accept(raw).byKey, k)
    ensures ValidSteps(raw)
  {
    hide Accept;
    var byKey := Accept(raw).byKey;
    forall x | x in raw ensures x.dependsOn.Names? { assert !DependenciesRejected(byKey, x.key); }
    forall x, d | x in raw && d in x.dependsOn.names ensures d != x.key && exists y :: y in raw && y.key == d {
      assert !DependenciesRejected(byKey, x.key);
      assert byKey[d] in raw && byKey[d].key == d;
    }
  }

  /** The steps that come back are the given ones: each with the operation, roles and bounds under its key. */
  lemma ReturnedStepsAreGiven(raw: seq<RawStep>, i: nat)
    requires !HasCycle(GraphOf(Accept(raw).byKey)) && i < |OrderFor(Accept(raw))|
    ensures var p := OrderFor(Accept(raw))[i];
            exists x :: x in raw && x.Step? && x.key == p.key && x.body == p.body
                        && (ReasonsFor(Accept(raw)) == [] ==> x.dependsOn == Names(p.dependsOn))
  {
    var a := Accept(raw);
    var g := GraphOf(a.byKey);
    AcceptIsConsistent(raw);
    LayersHold(g, |g|);
    if ReasonsFor(a) == [] { NoComplaintsMeansValid(raw); }
    hide HasCycle, ReasonsFor, CanonicalOrder, Accept;
    var k := CanonicalOrder(g)[i];
    assert OrderFor(a)[i] == Planned(a.byKey, k) && a.byKey[k] in raw;
  }
}

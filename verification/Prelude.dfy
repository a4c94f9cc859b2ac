/** Datatypes and sequence facts shared by every component of the model. */
module Prelude {

  datatype Option<+T> = None | Some(value: T)

  /** A call either returns a value or raises. */
  datatype Result<+T, +E> = Ok(value: T) | Err(error: E)

  ghost predicate NoDuplicates<T>(s: seq<T>) {
    forall i, j :: 0 <= i < j < |s| ==> s[i] != s[j]
  }

  /** Order-preserving removal of repeats: Python's `list(dict.fromkeys(s))`. */
  function FirstOccurrences<T(==, !new)>(s: seq<T>): (r: seq<T>)
    ensures NoDuplicates(r)
    ensures forall x :: x in r <==> x in s
  {
    if s == [] then []
    else
      var front := FirstOccurrences(s[..|s| - 1]);
      var last := s[|s| - 1];
      assert s == s[..|s| - 1] + [last];
      if last in front then front else front + [last]
  }

  /** `p` lists the positions below `n` that are kept, in ascending order. */
  ghost predicate Enumerates(p: seq<nat>, n: nat, keep: nat -> bool) {
    && (forall i, j :: 0 <= i < j < |p| ==> p[i] < p[j])
    && (forall k: nat :: k in p <==> k < n && keep(k))
  }

  lemma EnumeratesOneMore(p: seq<nat>, n: nat, before: nat -> bool, after: nat -> bool)
    requires Enumerates(p, n, before) && forall k: nat :: k < n ==> before(k) == after(k)
    ensures Enumerates(if after(n) then p + [n] else p, n + 1, after)
  {
    assert forall k: nat :: k in p + [n] <==> k in p || k == n;
    assert forall i :: 0 <= i < |p| ==> p[i] in p;
  }

  /** What is kept of a sequence in order-preserving removal of repeats: the first occurrences, in order. */
  lemma {:induction false} FirstOccurrencesInOrder<T(!new)>(s: seq<T>) returns (p: seq<nat>)
    ensures Enumerates(p, |s|, (k: nat) => k < |s| && s[k] !in s[..k])
    ensures |p| == |FirstOccurrences(s)| && forall i :: 0 <= i < |p| ==> p[i] < |s| && FirstOccurrences(s)[i] == s[p[i]]
  {
    if s == [] {
      p := [];
    } else {
      var n := |s| - 1;
      p := FirstOccurrencesInOrder(s[..n]);
      assert forall k: nat :: k < n ==> s[..n][..k] == s[..k];
      if s[n] !in s[..n] { p := p + [n]; }
    }
  }

  lemma FirstOccurrencesOfFew<T(!new)>(x: T)
    ensures FirstOccurrences<T>([]) == [] && FirstOccurrences([x]) == [x]
  {
  }

  /** A duplicate-free sequence of members of a finite set is no longer than the set. */
  lemma {:induction false} DistinctFitsInSet<T>(s: seq<T>, domain: set<T>)
    requires NoDuplicates(s)
    requires forall i :: 0 <= i < |s| ==> s[i] in domain
    ensures |s| <= |domain|
  {
    if s != [] {
      var last := s[|s| - 1];
      DistinctFitsInSet(s[..|s| - 1], domain - {last});
    }
  }

  // Lexicographic order on strings: the order Python's `sorted` uses.

  /** The strings agree on their first `n` characters, and there `a` ends or is smaller. */
  predicate SmallerAt(a: string, b: string, n: nat) {
    n <= |a| && n < |b| && a[..n] == b[..n] && (n == |a| || a[n] < b[n])
  }

  predicate KeyLess(a: string, b: string) {
    exists n | 0 <= n < |b| :: SmallerAt(a, b, n)
  }

  lemma KeyLessTransitive(a: string, b: string, c: string)
    requires KeyLess(a, b) && KeyLess(b, c)
    ensures KeyLess(a, c)
  {
    var m :| 0 <= m < |b| && SmallerAt(a, b, m);
    var n :| 0 <= n < |c| && SmallerAt(b, c, n);
    var x := if m < n then m else n;
    assert b[..m][..x] == b[..x] && a[..m][..x] == a[..x] && b[..n][..x] == b[..x] && c[..n][..x] == c[..x];
    assert SmallerAt(a, c, x) by {
      if m < n { assert c[m] == c[..n][m] == b[..n][m]; }
      if n < m { assert a[n] == a[..m][n] == b[..m][n]; }
    }
  }

  lemma KeyLessTotal(a: string, b: string)
    ensures a == b || KeyLess(a, b) || KeyLess(b, a)
  {
    var n := CommonPrefix(a, b, 0);
    if n == |a| && n == |b| {
      assert a == a[..n] && b == b[..n];
    } else if n < |b| && (n == |a| || a[n] < b[n]) {
      assert SmallerAt(a, b, n);
    } else {
      assert SmallerAt(b, a, n);
    }
  }

  lemma {:induction false} CommonPrefix(a: string, b: string, i: nat) returns (n: nat)
    requires i <= |a| && i <= |b| && a[..i] == b[..i]
    ensures n <= |a| && n <= |b| && a[..n] == b[..n]
    ensures n == |a| || n == |b| || a[n] != b[n]
    decreases |a| - i
  {
    if i < |a| && i < |b| && a[i] == b[i] {
      assert a[..i + 1] == a[..i] + [a[i]] && b[..i + 1] == b[..i] + [b[i]];
      n := CommonPrefix(a, b, i + 1);
    } else {
      n := i;
    }
  }

  ghost predicate StrictlySorted(s: seq<string>) {
    forall i, j :: 0 <= i < j < |s| ==> KeyLess(s[i], s[j])
  }

  predicate IsLeast(s: set<string>, k: string) {
    k in s && forall x | x in s && x != k :: KeyLess(k, x)
  }

  lemma {:induction false} LeastExists(s: set<string>)
    requires s != {}
    ensures exists k :: IsLeast(s, k)
  {
    var x :| x in s;
    if s - {x} == {} {
      assert s == {x};
      assert IsLeast(s, x);
    } else {
      LeastExists(s - {x});
      var y :| IsLeast(s - {x}, y);
      KeyLessTotal(x, y);
      if KeyLess(x, y) {
        forall z | z in s && z != x ensures KeyLess(x, z) {
          if z != y { KeyLessTransitive(x, y, z); }
        }
        assert IsLeast(s, x);
      } else {
        assert IsLeast(s, y);
      }
    }
  }

  lemma LeastUnique(s: set<string>, a: string, b: string)
    requires IsLeast(s, a) && IsLeast(s, b)
    ensures a == b
  {
  }

  function Least(s: set<string>): (k: string)
    requires s != {}
    ensures IsLeast(s, k)
  {
    LeastExists(s);
    assert forall a, b :: IsLeast(s, a) && IsLeast(s, b) ==> a == b by {
      forall a, b | IsLeast(s, a) && IsLeast(s, b) ensures a == b { LeastUnique(s, a, b); }
    }
    var k :| k in s && IsLeast(s, k);
    k
  }

  /** The members of a set of keys in ascending order: Python's `sorted(s)`. */
  function SortedKeys(s: set<string>): (r: seq<string>)
    ensures forall k :: k in r <==> k in s
  {
    if s == {} then []
    else
      var k := Least(s);
      [k] + SortedKeys(s - {k})
  }

  lemma {:induction false} SortedKeysAreSorted(s: set<string>)
    ensures StrictlySorted(SortedKeys(s)) && |SortedKeys(s)| == |s|
  {
    if s != {} {
      var k := Least(s);
      SortedKeysAreSorted(s - {k});
      var tail := SortedKeys(s - {k});
      forall j | 0 <= j < |tail| ensures KeyLess(k, tail[j]) { assert tail[j] in tail; }
      assert SortedKeys(s) == [k] + tail;
    }
  }

  lemma SortedKeysAreDistinct(s: set<string>)
    ensures NoDuplicates(SortedKeys(s)) && |SortedKeys(s)| == |s|
  {
  }

  lemma TakeOneMore<T>(a: seq<T>, b: seq<T>, i: nat)
    requires i < |b|
    ensures b[..i + 1] == b[..i] + [b[i]]
    ensures a + b[..i + 1] == a + b[..i] + [b[i]]
  {
  }
}

// Stable sorting by a caller's comparison, as sort.SliceStable provides it, and
// the fact that makes it a function: there is only one stably sorted order.
module Sorting {
  import opened Counting

  // What Go's sort asks of a comparison.
  ghost predicate WeakOrder<T(!new)>(less: (T, T) -> bool) {
    && (forall x, y :: less(x, y) ==> !less(y, x))
    && (forall x, y, z :: less(x, z) ==> less(x, y) || less(y, z))
  }

  // Position i of s belongs before position j: smaller, or tied and earlier.
  predicate Before<T>(s: seq<T>, less: (T, T) -> bool, i: nat, j: nat)
    requires i < |s| && j < |s|
  {
    less(s[i], s[j]) || (!less(s[j], s[i]) && i < j)
  }

  // r lists the elements of s in that order; p says where each came from.
  ghost predicate Ranks<T>(s: seq<T>, less: (T, T) -> bool, r: seq<T>, p: seq<nat>) {
    && |r| == |p| == |s|
    && (forall k | 0 <= k < |p| :: p[k] < |s| && r[k] == s[p[k]])
    && Increasing(s, less, p)
  }

  ghost predicate Increasing<T>(s: seq<T>, less: (T, T) -> bool, p: seq<nat>) {
    && (forall k | 0 <= k < |p| :: p[k] < |s|)
    && (forall a, b | 0 <= a < b < |p| :: Before(s, less, p[a], p[b]))
  }

  lemma BeforeIsTotal<T(!new)>(s: seq<T>, less: (T, T) -> bool, i: nat, j: nat)
    requires WeakOrder(less) && i < |s| && j < |s|
    ensures i != j ==> (Before(s, less, i, j) <==> !Before(s, less, j, i))
    ensures !Before(s, less, i, i)
  {
  }

  lemma BeforeIsTransitive<T(!new)>(s: seq<T>, less: (T, T) -> bool, i: nat, j: nat, k: nat)
    requires WeakOrder(less) && i < |s| && j < |s| && k < |s|
    requires Before(s, less, i, j) && Before(s, less, j, k)
    ensures Before(s, less, i, k)
  {
  }

  lemma RanksAreInjective<T(!new)>(s: seq<T>, less: (T, T) -> bool, p: seq<nat>)
    requires WeakOrder(less) && Increasing(s, less, p)
    ensures Injective(p)
  {
    forall a, b | 0 <= a < b < |p| ensures p[a] != p[b] {
      BeforeIsTotal(s, less, p[a], p[b]);
    }
  }

  // Every position of s is ranked somewhere.
  lemma RankOf<T(!new)>(s: seq<T>, less: (T, T) -> bool, p: seq<nat>, i: nat) returns (k: nat)
    requires WeakOrder(less) && Increasing(s, less, p) && |p| == |s| && i < |s|
    ensures k < |p| && p[k] == i
  {
    RanksAreInjective(s, less, p);
    Pigeonhole(p, |s|);
    assert i in p;
    k :| 0 <= k < |p| && p[k] == i;
  }

  // Two complete rankings agree position by position.
  lemma {:induction false} OneRanking<T(!new)>(s: seq<T>, less: (T, T) -> bool, p: seq<nat>, q: seq<nat>, k: nat)
    requires WeakOrder(less) && Increasing(s, less, p) && Increasing(s, less, q) && |p| == |q| == |s| && k <= |s|
    ensures forall m | 0 <= m < k :: p[m] == q[m]
  {
    if k > 0 {
      OneRanking(s, less, p, q, k - 1);
      var i, j := p[k - 1], q[k - 1];
      RanksAreInjective(s, less, p);
      RanksAreInjective(s, less, q);
      var x := RankOf(s, less, q, i);
      var y := RankOf(s, less, p, j);
      BeforeIsTotal(s, less, i, j);
      assert x >= k - 1 && y >= k - 1;
    }
  }

  // Stably sorting is a function of the list.
  lemma StableSortIsUnique<T(!new)>(s: seq<T>, less: (T, T) -> bool, r: seq<T>, p: seq<nat>, r': seq<T>, q: seq<nat>)
    requires WeakOrder(less) && Ranks(s, less, r, p) && Ranks(s, less, r', q)
    ensures p == q && r == r'
  {
    OneRanking(s, less, p, q, |s|);
  }

  ghost predicate Sorted<T>(s: seq<T>, less: (T, T) -> bool) {
    forall i, j | 0 <= i < j < |s| :: !less(s[j], s[i])
  }

  lemma RankedIsSorted<T(!new)>(s: seq<T>, less: (T, T) -> bool, r: seq<T>, p: seq<nat>)
    requires WeakOrder(less) && Ranks(s, less, r, p)
    ensures Sorted(r, less)
  {
    forall i, j | 0 <= i < j < |r| ensures !less(r[j], r[i]) {
      assert Before(s, less, p[i], p[j]);
    }
  }

  function Identity(n: nat): (p: seq<nat>)
    ensures |p| == n && forall k | 0 <= k < n :: p[k] == k
  {
    seq(n, k => k)
  }

  // What is already in order is its own stable sort.
  lemma SortedIsItsOwnSort<T(!new)>(s: seq<T>, less: (T, T) -> bool)
    requires Sorted(s, less)
    ensures Ranks(s, less, s, Identity(|s|))
  {
  }

  // a[..i] is sorted; its i-th element, now at j, sinks to its place.
  ghost predicate Sinking<T>(s: seq<T>, less: (T, T) -> bool, p: seq<nat>, i: nat, j: nat) {
    && j <= i < |p| == |s| && p[j] == i
    && (forall k | 0 <= k < |p| :: p[k] < |s|)
    && (forall k | 0 <= k <= i && k != j :: p[k] < i)
    && (forall k | i < k < |p| :: p[k] == k)
    && (forall a, b | 0 <= a < b <= i && a != j && b != j :: Before(s, less, p[a], p[b]))
    && (forall b | j < b <= i :: Before(s, less, i, p[b]))
  }

  lemma SinkStep<T(!new)>(s: seq<T>, less: (T, T) -> bool, p: seq<nat>, i: nat, j: nat)
    requires WeakOrder(less) && Sinking(s, less, p, i, j) && j > 0 && less(s[i], s[p[j - 1]])
    ensures Sinking(s, less, p[j - 1 := i][j := p[j - 1]], i, j - 1)
  {
    var q := p[j - 1 := i][j := p[j - 1]];
    forall a, b | 0 <= a < b <= i && a != j - 1 && b != j - 1 ensures Before(s, less, q[a], q[b]) {
      if b == j {
        assert Before(s, less, p[a], p[j - 1]);
      } else if a == j {
        assert Before(s, less, p[j - 1], p[b]);
      } else {
        assert Before(s, less, p[a], p[b]);
      }
    }
  }

  // The first i elements are sorted, the rest untouched.
  ghost predicate Placed<T>(s: seq<T>, less: (T, T) -> bool, p: seq<nat>, i: nat) {
    && i <= |p| == |s|
    && (forall k | 0 <= k < |p| :: p[k] < |s|)
    && (forall k | 0 <= k < i :: p[k] < i)
    && (forall k | i <= k < |p| :: p[k] == k)
    && (forall a, b | 0 <= a < b < i :: Before(s, less, p[a], p[b]))
  }

  lemma SinkEnds<T(!new)>(s: seq<T>, less: (T, T) -> bool, p: seq<nat>, i: nat, j: nat)
    requires WeakOrder(less) && Sinking(s, less, p, i, j) && (j == 0 || !less(s[i], s[p[j - 1]]))
    ensures Placed(s, less, p, i + 1)
  {
    forall a, b | 0 <= a < b <= i ensures Before(s, less, p[a], p[b]) {
      if b == j {
        assert Before(s, less, p[j - 1], i);
        if a < j - 1 {
          assert Before(s, less, p[a], p[j - 1]);
          BeforeIsTransitive(s, less, p[a], p[j - 1], i);
        }
      } else if a != j {
        assert Before(s, less, p[a], p[b]);
      }
    }
  }

  // Moves element i down to its place among the first i.
  method Sink<T(!new)>(a: array<T>, less: (T, T) -> bool, i: nat, ghost s: seq<T>, ghost p: seq<nat>)
    returns (ghost q: seq<nat>)
    requires WeakOrder(less) && i < a.Length == |s| && Placed(s, less, p, i)
    requires forall k | 0 <= k < |s| :: a[k] == s[p[k]]
    modifies a
    ensures Placed(s, less, q, i + 1)
    ensures forall k | 0 <= k < |s| :: a[k] == s[q[k]]
  {
    q := p;
    var j := i;
    while j > 0 && less(a[j], a[j - 1])
      invariant 0 <= j <= i
      invariant Sinking(s, less, q, i, j)
      invariant forall k | 0 <= k < |s| :: a[k] == s[q[k]]
    {
      SinkStep(s, less, q, i, j);
      a[j - 1], a[j] := a[j], a[j - 1];
      q := q[j - 1 := i][j := q[j - 1]];
      j := j - 1;
    }
    SinkEnds(s, less, q, i, j);
  }

  // sort.SliceStable; p reports where each element came from.
  method SortStable<T(!new)>(a: array<T>, less: (T, T) -> bool) returns (ghost p: seq<nat>)
    requires WeakOrder(less)
    modifies a
    ensures Ranks(old(a[..]), less, a[..], p)
  {
    ghost var s := a[..];
    p := Identity(a.Length);
    for i := 0 to a.Length
      invariant |s| == a.Length && Placed(s, less, p, i)
      invariant forall k | 0 <= k < |s| :: a[k] == s[p[k]]
    {
      p := Sink(a, less, i, s, p);
    }
  }
}

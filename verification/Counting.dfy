// Sizes of finite sets.
module Counting {

  lemma SubsetHasFewer<A>(a: set<A>, b: set<A>)
    requires a <= b
    ensures |a| <= |b| && (|a| == |b| ==> a == b)
  {
    assert b == a + (b - a);
    assert |b| == |a| + |b - a|;
  }

  function Below(n: nat): (all: set<nat>)
    ensures |all| == n && forall d: nat :: d in all <==> d < n
  {
    if n == 0 then {} else Below(n - 1) + {n - 1}
  }

  function Pairs<A, B>(a: set<A>, b: set<B>): set<(A, B)> { set x, y | x in a && y in b :: (x, y) }

  lemma PairsCount<A, B>(a: set<A>, b: set<B>)
    ensures |Pairs(a, b)| == |a| * |b|
  {
    PairsProduct(a, b);
    hide Pairs;
  }

  function Product(n: nat, m: nat): nat { n * m }

  lemma ProductGrows(n: nat, m: nat)
    ensures Product(0, m) == 0 && Product(n + 1, m) == Product(n, m) + m
  {
  }

  lemma {:induction false} PairsProduct<A, B>(a: set<A>, b: set<B>)
    ensures |Pairs(a, b)| == Product(|a|, |b|)
    decreases a
  {
    hide Product;
    ProductGrows(0, |b|);
    if a == {} {
      assert Pairs(a, b) == {};
    } else {
      var x0 :| x0 in a;
      var rest := a - {x0};
      PairsProduct(rest, b);
      ProductGrows(|rest|, |b|);
      SliceCount(x0, b);
      PairsSplit(a, b, x0);
    }
  }

  lemma PairsSplit<A, B>(a: set<A>, b: set<B>, x0: A)
    requires x0 in a
    ensures var these := set y | y in b :: (x0, y);
            |Pairs(a, b)| == |these| + |Pairs(a - {x0}, b)| && |a| == |a - {x0}| + 1
  {
    var these := set y | y in b :: (x0, y);
    assert Pairs(a, b) == these + Pairs(a - {x0}, b);
    assert a == (a - {x0}) + {x0};
  }

  lemma {:induction false} SliceCount<A, B>(x: A, b: set<B>)
    ensures |set y | y in b :: (x, y)| == |b|
    decreases b
  {
    var all := set y | y in b :: (x, y);
    if b == {} {
      assert all == {};
    } else {
      var y0 :| y0 in b;
      SliceCount(x, b - {y0});
      assert all == {(x, y0)} + (set y | y in b - {y0} :: (x, y));
    }
  }

  function UpTo(n: nat): (all: set<nat>)
    ensures |all| == n && forall d: nat :: d in all <==> 1 <= d <= n
  {
    if n == 0 then {} else UpTo(n - 1) + {n}
  }

  function Image<A, B>(a: set<A>, f: A -> B): set<B> { set x | x in a :: f(x) }

  lemma {:induction false} ImageIsSmaller<A, B>(a: set<A>, f: A -> B)
    ensures |Image(a, f)| <= |a|
    decreases a
  {
    if a == {} {
      assert Image(a, f) == {};
    } else {
      var x0 :| x0 in a;
      ImageIsSmaller(a - {x0}, f);
      assert Image(a, f) == Image(a - {x0}, f) + {f(x0)};
    }
  }

  // ---- pigeonhole ----

  predicate Injective(p: seq<nat>) { forall a, b | 0 <= a < b < |p| :: p[a] != p[b] }

  lemma Elements(p: seq<nat>) returns (image: set<nat>)
    requires Injective(p)
    ensures |image| == |p| && forall x :: x in image <==> x in p
  {
    image := {};
    for k := 0 to |p|
      invariant |image| == k && forall x :: x in image <==> x in p[..k]
    {
      assert p[k] !in image;
      image := image + {p[k]};
    }
  }

  // Distinct numbers below n are at most n, and exactly n only if all are there.
  lemma Pigeonhole(p: seq<nat>, n: nat)
    requires Injective(p) && forall k | 0 <= k < |p| :: p[k] < n
    ensures |p| <= n && (|p| == n ==> forall x: nat | x < n :: x in p)
  {
    var image := Elements(p);
    assert forall x | x in image :: x < n;
    SubsetHasFewer(image, Below(n));
  }
}

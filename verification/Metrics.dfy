// Agreement of an approximate ranking with exact ground truth: recall, graded
// nDCG and Kendall's tau.
module Metrics {
  import opened Arithmetic

  type Id = int

  predicate Distinct(s: seq<Id>) { forall i, j | 0 <= i < j < |s| :: s[i] != s[j] }

  // 1/log2(i+2) in the source; any positive strictly decreasing discount serves.
  ghost predicate IsDiscount(discount: nat -> real) {
    && (forall i :: discount(i) > 0.0)
    && (forall i, j :: i < j ==> discount(i) > discount(j))
  }

  // Position in the exact list, the last one if it repeats; -1 when absent.
  function RankIn(exact: seq<Id>, id: Id): (r: int)
    ensures -1 <= r < |exact| && (r >= 0 ==> exact[r] == id) && (r == -1 <==> id !in exact)
  {
    if exact == [] then -1
    else if exact[|exact| - 1] == id then |exact| - 1
    else RankIn(exact[..|exact| - 1], id)
  }

  // |exact| for the best item, 1 for the last, 0 for a stranger.
  function GainOf(exact: seq<Id>, id: Id): nat {
    var r := RankIn(exact, id);
    if r >= 0 then |exact| - r else 0
  }

  function Gain(approx: seq<Id>, exact: seq<Id>, i: nat): nat {
    if i < |approx| then GainOf(exact, approx[i]) else 0
  }

  function Ideal(n: nat, i: nat): nat { if i < n then n - i else 0 }

  // Discounted sums over the first k places.
  function Dcg(approx: seq<Id>, exact: seq<Id>, discount: nat -> real, k: nat): real {
    if k == 0 then 0.0
    else Dcg(approx, exact, discount, k - 1) + Gain(approx, exact, k - 1) as real * discount(k - 1)
  }

  function Idcg(n: nat, discount: nat -> real, k: nat): real {
    if k == 0 then 0.0 else Idcg(n, discount, k - 1) + Ideal(n, k - 1) as real * discount(k - 1)
  }

  // ---- no k distinct gains sum to more than the k largest ----

  function Sum(s: seq<nat>): nat { if s == [] then 0 else Sum(s[..|s| - 1]) + s[|s| - 1] }

  // n + (n-1) + ... over k terms.
  function Largest(n: nat, k: nat): nat { if n == 0 || k == 0 then 0 else n + Largest(n - 1, k - 1) }

  predicate Spread(s: seq<nat>, n: nat) {
    && (forall i | 0 <= i < |s| :: s[i] <= n)
    && (forall i, j | 0 <= i < j < |s| :: s[i] == s[j] ==> s[i] == 0)
  }

  lemma {:induction false} SumWithout(s: seq<nat>, p: nat)
    requires p < |s|
    ensures Sum(s) == s[p] + Sum(s[..p] + s[p + 1..])
  {
    var last := |s| - 1;
    var rest := s[..p] + s[p + 1..];
    if p == last {
      assert rest == s[..last];
    } else {
      SumWithout(s[..last], p);
      assert rest[..|rest| - 1] == s[..last][..p] + s[..last][p + 1..];
      assert rest[|rest| - 1] == s[last];
    }
  }

  lemma {:induction false} LargestGrows(n: nat, k: nat)
    ensures Largest(n, k) <= Largest(n + 1, k)
  {
    if n > 0 && k > 0 {
      LargestGrows(n - 1, k - 1);
    }
  }

  lemma {:induction false} LargestNext(n: nat, k: nat)
    ensures Largest(n, k + 1) == Largest(n, k) + Ideal(n, k)
  {
    if n > 0 && k > 0 {
      LargestNext(n - 1, k - 1);
    }
  }

  lemma {:induction false} SpreadSum(s: seq<nat>, n: nat)
    requires Spread(s, n)
    ensures Sum(s) <= Largest(n, |s|)
    decreases n
  {
    if n == 0 {
      ZeroSum(s);
    } else if p: nat :| p < |s| && s[p] == n {
      var rest := s[..p] + s[p + 1..];
      SumWithout(s, p);
      forall i | 0 <= i < |rest| ensures rest[i] <= n - 1 {
        assert rest[i] == if i < p then s[i] else s[i + 1];
      }
      forall i, j | 0 <= i < j < |rest| && rest[i] == rest[j] ensures rest[i] == 0 {
        assert rest[i] == if i < p then s[i] else s[i + 1];
        assert rest[j] == if j < p then s[j] else s[j + 1];
      }
      SpreadSum(rest, n - 1);
    } else {
      SpreadSum(s, n - 1);
      LargestGrows(n - 1, |s|);
    }
  }

  lemma {:induction false} ZeroSum(s: seq<nat>)
    requires forall i | 0 <= i < |s| :: s[i] == 0
    ensures Sum(s) == 0
  {
    if s != [] {
      ZeroSum(s[..|s| - 1]);
    }
  }

  function Gains(approx: seq<Id>, exact: seq<Id>, k: nat): (g: seq<nat>)
    ensures |g| == k && forall i | 0 <= i < k :: g[i] == Gain(approx, exact, i)
  {
    seq(k, i requires 0 <= i < k => Gain(approx, exact, i))
  }

  lemma GainNamesTheItem(exact: seq<Id>, a: Id, b: Id)
    ensures GainOf(exact, a) == GainOf(exact, b) > 0 ==> a == b
  {
    var r := RankIn(exact, a);
    assert r >= 0 ==> exact[r] == a;
  }

  lemma GainsAreSpread(approx: seq<Id>, exact: seq<Id>, k: nat)
    requires Distinct(approx)
    ensures Spread(Gains(approx, exact, k), |exact|)
  {
    var g := Gains(approx, exact, k);
    forall i, j | 0 <= i < j < k ensures g[i] == g[j] ==> g[i] == 0 {
      if j < |approx| {
        GainNamesTheItem(exact, approx[i], approx[j]);
      }
    }
  }

  // How far the first k gains fall short of the k best.
  function Short(approx: seq<Id>, exact: seq<Id>, k: nat): int {
    Largest(|exact|, k) - Sum(Gains(approx, exact, k))
  }

  lemma ShortStep(approx: seq<Id>, exact: seq<Id>, k: nat)
    requires Distinct(approx)
    ensures Short(approx, exact, k) >= 0
    ensures Short(approx, exact, k + 1) == Short(approx, exact, k) + Ideal(|exact|, k) - Gain(approx, exact, k)
  {
    GainsAreSpread(approx, exact, k);
    SpreadSum(Gains(approx, exact, k), |exact|);
    LargestNext(|exact|, k);
    assert Gains(approx, exact, k + 1)[..k] == Gains(approx, exact, k);
  }

  // ---- DCG against IDCG ----

  function Gap(approx: seq<Id>, exact: seq<Id>, discount: nat -> real, k: nat): real {
    Idcg(|exact|, discount, k) - Dcg(approx, exact, discount, k)
  }

  // Relations between a gap, a shortfall and a discount, named so that the
  // induction below does no arithmetic.
  predicate Covers(gap: real, short: real, d: real) { gap >= short * d }
  predicate Meets(gap: real, short: real, d: real) { gap == short * d }
  predicate Adds(gap: real, gap': real, short: real, short': real, h: real, g: real, d: real) {
    gap' == gap + (h * d - g * d) && short' == short + h - g
  }

  lemma ByParts(gap: real, gap': real, s: real, s': real, c: real, d: real, h: real, g: real)
    requires Covers(gap, s, c) && s >= 0.0 && c > d && Adds(gap, gap', s, s', h, g, d)
    ensures Covers(gap', s', d)
    ensures Meets(gap', s', d) ==> s == 0.0 && Meets(gap, s, c)
  {
    assert s' * d == s * d + (h * d - g * d);
    MulMonotone(s, d, c);
    if s > 0.0 {
      MulPositive(s, c - d);
      assert s * (c - d) == s * c - s * d;
    }
  }

  lemma GapAdds(approx: seq<Id>, exact: seq<Id>, discount: nat -> real, k: nat)
    requires Distinct(approx)
    ensures Adds(Gap(approx, exact, discount, k), Gap(approx, exact, discount, k + 1),
                 Short(approx, exact, k) as real, Short(approx, exact, k + 1) as real,
                 Ideal(|exact|, k) as real, Gain(approx, exact, k) as real, discount(k))
    ensures Short(approx, exact, k) >= 0
  {
    ShortStep(approx, exact, k);
  }

  // Summation by parts: the gap after k places is at least the shortfall at the
  // last discount, and only that when every earlier shortfall is nil.
  lemma {:induction false} GapCoversShortfall(approx: seq<Id>, exact: seq<Id>, discount: nat -> real, k: nat)
    requires Distinct(approx) && IsDiscount(discount) && k > 0
    ensures Covers(Gap(approx, exact, discount, k), Short(approx, exact, k) as real, discount(k - 1))
    ensures Meets(Gap(approx, exact, discount, k), Short(approx, exact, k) as real, discount(k - 1)) ==>
              forall j | 0 < j < k :: Short(approx, exact, j) == 0
  {
    hide Covers, Meets, Adds, Gap, Short;
    var h, g := Ideal(|exact|, k - 1) as real, Gain(approx, exact, k - 1) as real;
    var gap, gap' := Gap(approx, exact, discount, k - 1), Gap(approx, exact, discount, k);
    var s, s' := Short(approx, exact, k - 1) as real, Short(approx, exact, k) as real;
    GapAdds(approx, exact, discount, k - 1);
    var c := if k == 1 then discount(0) + 1.0 else discount(k - 2);
    if k == 1 {
      NothingShortYet(approx, exact, discount, c);
    } else {
      GapCoversShortfall(approx, exact, discount, k - 1);
    }
    ByParts(gap, gap', s, s', c, discount(k - 1), h, g);
  }

  lemma NothingShortYet(approx: seq<Id>, exact: seq<Id>, discount: nat -> real, d: real)
    ensures Short(approx, exact, 0) == 0 && Covers(Gap(approx, exact, discount, 0), 0.0, d)
  {
    assert Gains(approx, exact, 0) == [];
  }

  lemma {:induction false} DcgBeyond(approx: seq<Id>, exact: seq<Id>, discount: nat -> real, k: nat)
    requires k >= |approx|
    ensures Dcg(approx, exact, discount, k) == Dcg(approx, exact, discount, |approx|)
  {
    if k > |approx| {
      DcgBeyond(approx, exact, discount, k - 1);
    }
  }

  lemma {:induction false} IdcgBeyond(n: nat, discount: nat -> real, k: nat)
    requires k >= n
    ensures Idcg(n, discount, k) == Idcg(n, discount, n)
  {
    if k > n {
      IdcgBeyond(n, discount, k - 1);
    }
  }

  lemma {:induction false} SameGainsSameDcg(approx: seq<Id>, exact: seq<Id>, discount: nat -> real, k: nat)
    requires forall i | 0 <= i < k :: Gain(approx, exact, i) == Ideal(|exact|, i)
    ensures Dcg(approx, exact, discount, k) == Idcg(|exact|, discount, k)
  {
    if k > 0 {
      SameGainsSameDcg(approx, exact, discount, k - 1);
    }
  }

  lemma NoShortfallIsIdeal(approx: seq<Id>, exact: seq<Id>, k: nat)
    requires Distinct(approx) && forall j | 0 <= j <= k :: Short(approx, exact, j) == 0
    ensures forall i | 0 <= i < k :: Gain(approx, exact, i) == Ideal(|exact|, i)
  {
    forall i | 0 <= i < k ensures Gain(approx, exact, i) == Ideal(|exact|, i) {
      ShortStep(approx, exact, i);
      assert Short(approx, exact, i) == 0 && Short(approx, exact, i + 1) == 0;
    }
  }

  lemma IdealGainIsTheItem(approx: seq<Id>, exact: seq<Id>, i: nat)
    requires Distinct(exact) && i < |exact|
    ensures Gain(approx, exact, i) == Ideal(|exact|, i) <==> i < |approx| && approx[i] == exact[i]
  {
    if i < |approx| && approx[i] == exact[i] {
      assert exact[RankIn(exact, approx[i])] == exact[i];
    }
  }

  lemma CoveredGap(gap: real, short: real, d: real)
    requires Covers(gap, short, d) && short >= 0.0 && d > 0.0
    ensures gap >= 0.0
    ensures gap == 0.0 ==> short == 0.0 && Meets(gap, short, d)
  {
    MulNonNegative(short, d);
    if short > 0.0 {
      MulPositive(short, d);
    }
  }

  lemma GapIsNonNegative(approx: seq<Id>, exact: seq<Id>, discount: nat -> real, k: nat)
    requires Distinct(approx) && IsDiscount(discount) && k > 0
    ensures Gap(approx, exact, discount, k) >= 0.0
    ensures Gap(approx, exact, discount, k) == 0.0 ==> forall i | 0 <= i < k :: Gain(approx, exact, i) == Ideal(|exact|, i)
  {
    hide Covers, Meets, Gap, Short;
    GapCoversShortfall(approx, exact, discount, k);
    GapAdds(approx, exact, discount, k);
    CoveredGap(Gap(approx, exact, discount, k), Short(approx, exact, k) as real, discount(k - 1));
    if Gap(approx, exact, discount, k) == 0.0 {
      NothingShortYet(approx, exact, discount, 1.0);
      NoShortfallIsIdeal(approx, exact, k);
    }
  }

  // DCG never exceeds the ideal, and meets it exactly when the approximate
  // ranking opens with the exact one.
  lemma NdcgIsNormalized(approx: seq<Id>, exact: seq<Id>, discount: nat -> real)
    requires Distinct(approx) && Distinct(exact) && IsDiscount(discount)
    ensures Dcg(approx, exact, discount, |approx|) <= Idcg(|exact|, discount, |exact|)
    ensures Dcg(approx, exact, discount, |approx|) == Idcg(|exact|, discount, |exact|) <==> exact <= approx
  {
    var m := if |approx| > |exact| then |approx| else |exact|;
    DcgBeyond(approx, exact, discount, m);
    IdcgBeyond(|exact|, discount, m);
    if m > 0 {
      GapIsNonNegative(approx, exact, discount, m);
      if Gap(approx, exact, discount, m) == 0.0 {
        IdealIsPrefix(approx, exact);
      }
    }
    if exact <= approx {
      PrefixIsIdeal(approx, exact, m);
      SameGainsSameDcg(approx, exact, discount, m);
    }
  }

  lemma IdealIsPrefix(approx: seq<Id>, exact: seq<Id>)
    requires Distinct(exact) && forall i | 0 <= i < |exact| :: Gain(approx, exact, i) == Ideal(|exact|, i)
    ensures exact <= approx
  {
    forall i | 0 <= i < |exact| ensures i < |approx| && approx[i] == exact[i] {
      IdealGainIsTheItem(approx, exact, i);
    }
    if exact != [] {
      IdealGainIsTheItem(approx, exact, |exact| - 1);
    }
  }

  lemma PrefixIsIdeal(approx: seq<Id>, exact: seq<Id>, k: nat)
    requires Distinct(approx) && Distinct(exact) && exact <= approx
    ensures forall i | 0 <= i < k :: Gain(approx, exact, i) == Ideal(|exact|, i)
  {
    forall i | 0 <= i < k ensures Gain(approx, exact, i) == Ideal(|exact|, i) {
      if i < |exact| {
        IdealGainIsTheItem(approx, exact, i);
      } else if i < |approx| {
        assert forall j | 0 <= j < |exact| :: exact[j] == approx[j] && approx[j] != approx[i];
      }
    }
  }

  // ---- Kendall's tau ----

  function Above(x: int, s: seq<int>): nat { if s == [] then 0 else (if x < s[0] then 1 else 0) + Above(x, s[1..]) }
  function Beneath(x: int, s: seq<int>): nat { if s == [] then 0 else (if x > s[0] then 1 else 0) + Beneath(x, s[1..]) }

  // Pairs in order, and pairs out of order.
  function Concordant(s: seq<int>): nat { if s == [] then 0 else Above(s[0], s[1..]) + Concordant(s[1..]) }
  function Discordant(s: seq<int>): nat { if s == [] then 0 else Beneath(s[0], s[1..]) + Discordant(s[1..]) }

  predicate Ascending(s: seq<int>) { forall i, j | 0 <= i < j < |s| :: s[i] < s[j] }

  lemma {:induction false} BeneathNone(x: int, s: seq<int>)
    ensures Beneath(x, s) == 0 <==> forall i | 0 <= i < |s| :: x <= s[i]
    ensures (forall i | 0 <= i < |s| :: x != s[i]) ==> Above(x, s) + Beneath(x, s) == |s|
  {
    if s != [] {
      BeneathNone(x, s[1..]);
      assert forall i | 0 < i < |s| :: s[i] == s[1..][i - 1];
    }
  }

  lemma {:induction false} NoInversions(s: seq<int>)
    requires Distinct(s)
    ensures Discordant(s) == 0 <==> Ascending(s)
    ensures |s| > 1 ==> Concordant(s) + Discordant(s) > 0
  {
    if s != [] {
      BeneathNone(s[0], s[1..]);
      NoInversions(s[1..]);
      assert forall i | 0 < i < |s| :: s[i] == s[1..][i - 1];
    }
  }

  // The ranks of the common items, in approximate order.
  function Common(approx: seq<Id>, exact: seq<Id>): seq<int> {
    if approx == [] then []
    else
      var r := RankIn(exact, approx[|approx| - 1]);
      Common(approx[..|approx| - 1], exact) + if r >= 0 then [r] else []
  }

  lemma {:induction false} CommonRanks(approx: seq<Id>, exact: seq<Id>)
    ensures forall i | 0 <= i < |Common(approx, exact)| ::
              0 <= Common(approx, exact)[i] < |exact| && exact[Common(approx, exact)[i]] in approx
    ensures Distinct(approx) ==> Distinct(Common(approx, exact))
  {
    if approx != [] {
      var init, last := approx[..|approx| - 1], approx[|approx| - 1];
      CommonRanks(init, exact);
      var c := Common(init, exact);
      if Distinct(approx) && RankIn(exact, last) >= 0 {
        forall i | 0 <= i < |c| ensures c[i] != RankIn(exact, last) {
          assert exact[c[i]] in init;
          var j :| 0 <= j < |init| && init[j] == exact[c[i]];
          assert approx[j] == init[j];
        }
      }
    }
  }

  function Tau(s: seq<int>): real {
    var c: int, d: int := Concordant(s), Discordant(s);
    if |s| < 2 || c + d == 0 then 0.0 else (c - d) as real / (c + d) as real
  }

  // Tau stays within [-1, 1]; with two or more common items it is 1 exactly
  // when they stand in exact order.
  lemma TauIsACorrelation(approx: seq<Id>, exact: seq<Id>)
    requires Distinct(approx)
    ensures var s := Common(approx, exact);
            && -1.0 <= Tau(s) <= 1.0
            && (|s| >= 2 ==> (Tau(s) == 1.0 <==> Ascending(s)))
  {
    var s := Common(approx, exact);
    CommonRanks(approx, exact);
    NoInversions(s);
    var c: int, d: int := Concordant(s), Discordant(s);
    if |s| >= 2 {
      RatioBounds((c - d) as real, (c + d) as real);
    }
  }

  lemma RatioBounds(x: real, y: real)
    requires y > 0.0 && -y <= x <= y
    ensures -1.0 <= x / y <= 1.0 && (x / y == 1.0 <==> x == y)
  {
    var q := x / y;
    assert y * q == x;
    MulOrder(y, q, 1.0);
    MulOrder(y, 1.0, q);
    MulOrder(y, -1.0, q);
  }

  method KendallTau(approx: seq<Id>, exact: seq<Id>) returns (tau: real)
    ensures tau == Tau(Common(approx, exact))
  {
    var common: seq<int> := [];
    for i := 0 to |approx|
      invariant common == Common(approx[..i], exact)
    {
      var r := RankIn(exact, approx[i]);
      assert approx[..i + 1][..i] == approx[..i];
      if r >= 0 {
        common := common + [r];
      }
    }
    assert approx[..|approx|] == approx;
    if |common| < 2 {
      return 0.0;
    }
    var concordant, discordant := 0, 0;
    for i := 0 to |common|
      invariant concordant >= 0 && discordant >= 0
      invariant concordant + Concordant(common[i..]) == Concordant(common)
      invariant discordant + Discordant(common[i..]) == Discordant(common)
    {
      assert common[i..][1..] == common[i + 1..];
      for j := i + 1 to |common|
        invariant concordant >= 0 && discordant >= 0
        invariant concordant + Above(common[i], common[j..]) + Concordant(common[i + 1..]) == Concordant(common)
        invariant discordant + Beneath(common[i], common[j..]) + Discordant(common[i + 1..]) == Discordant(common)
      {
        assert common[j..][1..] == common[j + 1..];
        if common[i] < common[j] {
          concordant := concordant + 1;
        } else if common[i] > common[j] {
          discordant := discordant + 1;
        }
      }
    }
    var total := concordant + discordant;
    if total == 0 {
      return 0.0;
    }
    tau := (concordant - discordant) as real / total as real;
  }

  // ---- Agree ----

  function Hits(approx: seq<Id>, exact: seq<Id>): nat {
    if approx == [] then 0
    else Hits(approx[..|approx| - 1], exact) + if approx[|approx| - 1] in exact then 1 else 0
  }

  function Found(approx: seq<Id>, exact: seq<Id>): set<Id> { set x | x in approx && x in exact }

  lemma FoundStep(init: seq<Id>, last: Id, exact: seq<Id>)
    ensures Found(init + [last], exact) == Found(init, exact) + if last in exact then {last} else {}
  {
  }

  lemma {:induction false} HitsCount(approx: seq<Id>, exact: seq<Id>)
    requires Distinct(approx)
    ensures Hits(approx, exact) == |Found(approx, exact)|
  {
    if approx != [] {
      var init, last := approx[..|approx| - 1], approx[|approx| - 1];
      HitsCount(init, exact);
      FoundStep(init, last, exact);
      assert init + [last] == approx;
      assert last !in init;
    }
  }

  lemma {:induction false} AllHit(s: seq<Id>, exact: seq<Id>)
    requires forall i | 0 <= i < |s| :: s[i] in exact
    ensures Hits(s, exact) == |s|
  {
    if s != [] {
      AllHit(s[..|s| - 1], exact);
    }
  }

  // Every hit is a different exact item, so recall never exceeds 1 and is 1
  // exactly when nothing was missed.
  lemma RecallIsAFraction(approx: seq<Id>, exact: seq<Id>)
    requires Distinct(approx) && Distinct(exact)
    ensures Hits(approx, exact) <= |exact|
    ensures Hits(approx, exact) == |exact| <==> forall x | x in exact :: x in approx
  {
    var found, all := Found(approx, exact), Found(exact, exact);
    HitsCount(approx, exact);
    HitsCount(exact, exact);
    AllHit(exact, exact);
    assert all == found + (all - found);
    assert |all| == |found| + |all - found|;
    if |found| == |all| {
      assert all - found == {};
      assert forall x | x in exact :: x in all;
    }
    if forall x | x in exact :: x in approx {
      assert found == all;
    }
  }

  datatype Agreement = Agreement(recall: real, ndcg: real, kendall: real)

  function Truncate(s: seq<Id>, k: nat): seq<Id> { if k > |s| then s else s[..k] }

  method CountHits(a: seq<Id>, e: seq<Id>) returns (hits: nat)
    ensures hits == Hits(a, e)
  {
    hits := 0;
    for i := 0 to |a|
      invariant hits == Hits(a[..i], e)
    {
      assert a[..i + 1][..i] == a[..i];
      if RankIn(e, a[i]) >= 0 {
        hits := hits + 1;
      }
    }
    assert a[..|a|] == a;
  }

  method Discounted(a: seq<Id>, e: seq<Id>, discount: nat -> real) returns (dcg: real)
    ensures dcg == Dcg(a, e, discount, |a|)
  {
    dcg := 0.0;
    for i := 0 to |a|
      invariant dcg == Dcg(a, e, discount, i)
    {
      var r := RankIn(e, a[i]);
      if r < 0 {
        continue;
      }
      dcg := dcg + (|e| - r) as real * discount(i);
    }
  }

  method IdealDiscounted(n: nat, discount: nat -> real) returns (idcg: real)
    requires IsDiscount(discount)
    ensures idcg == Idcg(n, discount, n) && (n > 0 ==> idcg > 0.0)
  {
    idcg := 0.0;
    for i := 0 to n
      invariant idcg == Idcg(n, discount, i) && (i > 0 ==> idcg > 0.0)
    {
      MulPositive((n - i) as real, discount(i));
      idcg := idcg + (n - i) as real * discount(i);
    }
  }

  method Agree(approx: seq<Id>, exact: seq<Id>, k: nat, discount: nat -> real) returns (out: Agreement)
    requires IsDiscount(discount)
    ensures var a, e := if k < |approx| then approx[..k] else approx, if k < |exact| then exact[..k] else exact;
            if e == [] then out == Agreement(0.0, 0.0, 0.0)
            else
              && Idcg(|e|, discount, |e|) > 0.0
              && out == Agreement(Hits(a, e) as real / |e| as real,
                                  Dcg(a, e, discount, |a|) / Idcg(|e|, discount, |e|),
                                  Tau(Common(a, e)))
  {
    hide Dcg, Idcg, Tau, Common, Hits;
    var a, e := Truncate(approx, k), Truncate(exact, k);
    assert approx[..|approx|] == approx && exact[..|exact|] == exact;
    if |e| == 0 {
      return Agreement(0.0, 0.0, 0.0);
    }
    var hits := CountHits(a, e);
    var dcg := Discounted(a, e, discount);
    var idcg := IdealDiscounted(|e|, discount);
    var ndcg := 0.0;
    if idcg > 0.0 {
      ndcg := dcg / idcg;
    }
    var kendall := KendallTau(a, e);
    out := Agreement(hits as real / |e| as real, ndcg, kendall);
  }
}

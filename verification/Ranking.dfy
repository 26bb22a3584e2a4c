// The score rewrites after fusion: multiplicative priors, then the per-note
// diversity penalty, then the cut.
module Ranking {
  import opened Arithmetic
  import opened Counting
  import opened Sorting
  import opened Fusion

  function Higher<T>(): (Scored<T>, Scored<T>) -> bool {
    (x: Scored<T>, y: Scored<T>) => x.score > y.score
  }

  lemma HigherOrders<T(!new)>()
    ensures WeakOrder(Higher<T>())
  {
  }

  ghost predicate ByDescendingScore<T>(s: seq<Scored<T>>) {
    forall i, j | 0 <= i < j < |s| :: s[i].score >= s[j].score
  }

  ghost predicate NonNegative<T>(s: seq<Scored<T>>) { forall i | 0 <= i < |s| :: s[i].score >= 0.0 }

  // r is s stably sorted by descending score; p says where each entry came from.
  ghost predicate SortedFrom<T>(s: seq<Scored<T>>, r: seq<Scored<T>>, p: seq<nat>) {
    Ranks(s, Higher(), r, p)
  }

  lemma SortedDescends<T(!new)>(s: seq<Scored<T>>, r: seq<Scored<T>>, p: seq<nat>)
    requires SortedFrom(s, r, p)
    ensures ByDescendingScore(r) && (NonNegative(s) ==> NonNegative(r))
  {
    HigherOrders<T>();
    RankedIsSorted(s, Higher(), r, p);
  }

  // ---- rescore ----

  function Rescored<T>(s: seq<Scored<T>>, factor: T -> real): (r: seq<Scored<T>>)
    ensures |r| == |s| && forall i | 0 <= i < |s| :: r[i] == Scored(s[i].item, s[i].score * factor(s[i].item))
  {
    seq(|s|, i requires 0 <= i < |s| => Scored(s[i].item, s[i].score * factor(s[i].item)))
  }

  // Sorts only when some factor is not 1. On a list already in score order that
  // cannot be told from sorting always.
  method Rescore<T(!new)>(fused: array<Scored<T>>, factor: T -> real) returns (ghost p: seq<nat>)
    modifies fused
    ensures ByDescendingScore(old(fused[..])) || (exists i | 0 <= i < fused.Length :: factor(old(fused[i]).item) != 1.0) ==>
              SortedFrom(Rescored(old(fused[..]), factor), fused[..], p)
    ensures (forall i | 0 <= i < fused.Length :: factor(old(fused[i]).item) == 1.0) ==> fused[..] == old(fused[..])
  {
    ghost var s := fused[..];
    var changed := false;
    for i := 0 to fused.Length
      invariant forall k | 0 <= k < i :: fused[k] == Rescored(s, factor)[k]
      invariant forall k | i <= k < fused.Length :: fused[k] == s[k]
      invariant changed <==> exists k | 0 <= k < i :: factor(s[k].item) != 1.0
    {
      var f := factor(fused[i].item);
      if f != 1.0 {
        fused[i] := fused[i].(score := fused[i].score * f);
        changed := true;
      }
    }
    assert fused[..] == Rescored(s, factor);
    HigherOrders<T>();
    if changed {
      p := SortStable(fused, Higher());
    } else {
      assert Rescored(s, factor) == s;
      p := Identity(|s|);
      if ByDescendingScore(s) {
        SortedIsItsOwnSort(s, Higher());
      }
    }
  }

  // ---- the diversity penalty ----

  // How many earlier entries belong to the same note as entry i.
  function Earlier<T, N(==)>(s: seq<Scored<T>>, note: T -> N, id: N, i: nat): nat
    requires i <= |s|
  {
    if i == 0 then 0 else Earlier(s, note, id, i - 1) + if note(s[i - 1].item) == id then 1 else 0
  }

  function Scaled<T>(x: Scored<T>, factor: real): Scored<T> { x.(score := x.score * factor) }

  function Penalty<T, N(==)>(s: seq<Scored<T>>, note: T -> N, decay: real, i: nat): Scored<T>
    requires i < |s|
  {
    Scaled(s[i], Power(decay, Earlier(s, note, note(s[i].item), i)))
  }

  function Penalized<T, N(==)>(s: seq<Scored<T>>, note: T -> N, decay: real): (r: seq<Scored<T>>)
    ensures |r| == |s| && forall i | 0 <= i < |s| :: r[i] == Penalty(s, note, decay, i)
  {
    seq(|s|, i requires 0 <= i < |s| => Penalty(s, note, decay, i))
  }

  // Walks in score order, scaling a note's n-th chunk by decay^n.
  method Demote<T(!new), N(==, !new)>(fused: array<Scored<T>>, note: T -> N, decay: real)
    modifies fused
    ensures fused[..] == Penalized(old(fused[..]), note, decay)
  {
    ghost var s := fused[..];
    var seen: map<N, nat> := map[];
    hide Penalty, Power, Scaled;
    for i := 0 to fused.Length
      invariant forall k | 0 <= k < i :: fused[k] == Penalty(s, note, decay, k)
      invariant forall k | i <= k < fused.Length :: fused[k] == s[k]
      invariant forall id :: Count(seen, id) == Earlier(s, note, id, i)
    {
      var id := note(fused[i].item);
      var c := Count(seen, id);
      PenaltyBy(s, note, decay, i, c);
      if c > 0 {
        fused[i] := Scaled(fused[i], Power(decay, c));
      }
      assert fused[i] == Penalty(s, note, decay, i);
      seen := seen[id := c + 1];
    }
    assert fused[..] == Penalized(s, note, decay);
  }

  lemma PenaltyBy<T, N>(s: seq<Scored<T>>, note: T -> N, decay: real, i: nat, c: nat)
    requires i < |s| && c == Earlier(s, note, note(s[i].item), i)
    ensures Penalty(s, note, decay, i) == if c > 0 then Scaled(s[i], Power(decay, c)) else s[i]
  {
    assert s[i].score * Power(decay, 0) == s[i].score * 1.0 == s[i].score;
  }

  function Count<N>(seen: map<N, nat>, id: N): nat { if id in seen then seen[id] else 0 }

  // sort.SliceStable by descending score, after the walk; a decay of 1 or more
  // switches the penalty off.
  method ApplyDiversityPenalty<T(!new), N(==, !new)>(fused: array<Scored<T>>, note: T -> N, decay: real)
    returns (ghost p: seq<nat>)
    modifies fused
    ensures decay < 1.0 ==> SortedFrom(Penalized(old(fused[..]), note, decay), fused[..], p)
    ensures decay >= 1.0 ==> fused[..] == old(fused[..])
  {
    HigherOrders<T>();
    p := [];
    if decay >= 1.0 || fused.Length == 0 {
      return;
    }
    Demote(fused, note, decay);
    p := SortStable(fused, Higher());
  }

  lemma {:induction false} EarlierGrows<T, N>(s: seq<Scored<T>>, note: T -> N, id: N, i: nat, j: nat)
    requires i <= j <= |s|
    ensures Earlier(s, note, id, i) <= Earlier(s, note, id, j)
  {
    if i < j {
      EarlierGrows(s, note, id, i, j - 1);
    }
  }

  // The places before i that belong to a note.
  function Places<T, N(==)>(s: seq<Scored<T>>, note: T -> N, id: N, i: nat): set<nat>
    requires i <= |s|
  {
    set j: nat | j < i && note(s[j].item) == id
  }

  // The chunks of the same note that come before entry i.
  function Siblings<T, N(==)>(s: seq<Scored<T>>, note: T -> N, i: nat): set<nat>
    requires i < |s|
  {
    Places(s, note, note(s[i].item), i)
  }

  lemma OnePlace<T, N>(s: seq<Scored<T>>, note: T -> N, id: N, i: nat)
    requires 0 < i <= |s|
    ensures |Places(s, note, id, i)| == |Places(s, note, id, i - 1)| + if note(s[i - 1].item) == id then 1 else 0
  {
    var last: set<nat> := if note(s[i - 1].item) == id then {i - 1} else {};
    assert Places(s, note, id, i) == Places(s, note, id, i - 1) + last;
  }

  lemma {:induction false} EarlierCounts<T, N>(s: seq<Scored<T>>, note: T -> N, id: N, i: nat)
    requires i <= |s|
    ensures Earlier(s, note, id, i) == |Places(s, note, id, i)|
  {
    if i == 0 {
      assert Places(s, note, id, 0) == {};
    } else {
      EarlierCounts(s, note, id, i - 1);
      OnePlace(s, note, id, i);
      hide Places;
    }
  }

  // What the penalty buys: a chunk that was ahead of another loses its place to
  // it exactly when decay, once for each chunk of the same note that comes
  // before, takes its score below the other's.
  lemma PassesIff<T(!new), N>(s: seq<Scored<T>>, note: T -> N, decay: real, r: seq<Scored<T>>, p: seq<nat>, a: nat, b: nat)
    requires SortedFrom(Penalized(s, note, decay), r, p)
    requires a < |r| && b < |r| && p[a] < p[b] < |s|
    ensures b < a <==>
            s[p[b]].score * Power(decay, |Siblings(s, note, p[b])|) > s[p[a]].score * Power(decay, |Siblings(s, note, p[a])|)
  {
    var pen := Penalized(s, note, decay);
    EarlierCounts(s, note, note(s[p[a]].item), p[a]);
    EarlierCounts(s, note, note(s[p[b]].item), p[b]);
    assert pen[p[a]].score == s[p[a]].score * Power(decay, |Siblings(s, note, p[a])|);
    assert pen[p[b]].score == s[p[b]].score * Power(decay, |Siblings(s, note, p[b])|);
    HigherOrders<T>();
    BeforeIsTotal(pen, Higher(), p[a], p[b]);
    if a < b {
      assert Before(pen, Higher(), p[a], p[b]);
    } else {
      assert Before(pen, Higher(), p[b], p[a]);
    }
  }

  // The penalty only lowers a score, and spares a note's best chunk.
  lemma PenaltyLowers<T, N>(s: seq<Scored<T>>, note: T -> N, decay: real, i: nat)
    requires i < |s| && NonNegative(s) && 0.0 <= decay <= 1.0
    ensures 0.0 <= Penalty(s, note, decay, i).score <= s[i].score
    ensures Best(s, note, i) ==> Penalty(s, note, decay, i).score == s[i].score
  {
    var c := Earlier(s, note, note(s[i].item), i);
    PowerInUnit(decay, c);
    MulNonNegative(s[i].score, Power(decay, c));
    MulMonotone(s[i].score, Power(decay, c), 1.0);
  }

  // Entry i is its note's highest-ranked chunk.
  predicate Best<T, N(==)>(s: seq<Scored<T>>, note: T -> N, i: nat)
    requires i < |s|
  {
    Earlier(s, note, note(s[i].item), i) == 0
  }

  lemma SiblingsFallInOrder<T, N>(s: seq<Scored<T>>, note: T -> N, decay: real, i: nat, j: nat)
    requires ByDescendingScore(s) && NonNegative(s) && 0.0 <= decay <= 1.0
    requires i < j < |s| && note(s[i].item) == note(s[j].item)
    ensures Penalty(s, note, decay, j).score <= Penalty(s, note, decay, i).score
  {
    var id := note(s[i].item);
    EarlierGrows(s, note, id, i, j);
    PowerFalls(decay, Earlier(s, note, id, i), Earlier(s, note, id, j));
    ProductOrder(s[j].score, s[i].score, Power(decay, Earlier(s, note, id, j)), Power(decay, Earlier(s, note, id, i)));
  }

  // A note's chunks keep their order among themselves.
  lemma SiblingsKeepTheirOrder<T(!new), N>(s: seq<Scored<T>>, note: T -> N, decay: real, r: seq<Scored<T>>, p: seq<nat>,
                                           a: nat, b: nat)
    requires ByDescendingScore(s) && NonNegative(s) && 0.0 <= decay <= 1.0
    requires SortedFrom(Penalized(s, note, decay), r, p)
    requires a < |r| && b < |r| && note(r[a].item) == note(r[b].item) && p[a] < p[b]
    ensures a < b
  {
    var pen := Penalized(s, note, decay);
    HigherOrders<T>();
    SiblingsFallInOrder(s, note, decay, p[a], p[b]);
    BeforeIsTotal(pen, Higher(), p[a], p[b]);
    assert Before(pen, Higher(), p[a], p[b]);
  }

  // A note's best chunk never loses ground: whatever ends up ahead of it was
  // ahead of it before.
  lemma BestNeverSinks<T(!new), N>(s: seq<Scored<T>>, note: T -> N, decay: real, r: seq<Scored<T>>, p: seq<nat>, k: nat)
    requires ByDescendingScore(s) && NonNegative(s) && 0.0 <= decay <= 1.0
    requires SortedFrom(Penalized(s, note, decay), r, p)
    requires k < |p| && Best(s, note, p[k])
    ensures k <= p[k]
  {
    var pen, i := Penalized(s, note, decay), p[k];
    HigherOrders<T>();
    forall x | 0 <= x < k ensures p[x] < i {
      assert Before(pen, Higher(), p[x], i);
      PenaltyLowers(s, note, decay, p[x]);
      PenaltyLowers(s, note, decay, i);
      assert pen[p[x]] == Penalty(s, note, decay, p[x]) && pen[i] == Penalty(s, note, decay, i);
      BeforeIsTotal(pen, Higher(), p[x], i);
    }
    RanksAreInjective(pen, Higher(), p);
    Pigeonhole(p[..k], i);
  }

  ghost predicate HasNote<T, N>(s: seq<Scored<T>>, note: T -> N, k: nat, id: N)
    requires k <= |s|
  {
    exists i | 0 <= i < k :: note(s[i].item) == id
  }

  lemma {:induction false} BestOf<T, N>(s: seq<Scored<T>>, note: T -> N, id: N, k: nat) returns (i: nat)
    requires k <= |s| && HasNote(s, note, k, id)
    ensures i < k && note(s[i].item) == id && Best(s, note, i)
  {
    var j :| 0 <= j < k && note(s[j].item) == id;
    if HasNote(s, note, j, id) {
      i := BestOf(s, note, id, j);
    } else {
      i := j;
      NoneEarlier(s, note, id, j, j);
    }
  }

  lemma {:induction false} NoneEarlier<T, N>(s: seq<Scored<T>>, note: T -> N, id: N, j: nat, k: nat)
    requires k <= j <= |s| && !HasNote(s, note, j, id)
    ensures Earlier(s, note, id, k) == 0
  {
    if k > 0 {
      NoneEarlier(s, note, id, j, k - 1);
    }
  }

  // For every cutoff K, each note in the old top K is still in the new one.
  lemma NoNoteIsPushedOut<T(!new), N>(s: seq<Scored<T>>, note: T -> N, decay: real, r: seq<Scored<T>>, p: seq<nat>,
                                      k: nat, id: N)
    requires ByDescendingScore(s) && NonNegative(s) && 0.0 <= decay <= 1.0
    requires SortedFrom(Penalized(s, note, decay), r, p)
    requires k <= |s| && HasNote(s, note, k, id)
    ensures HasNote(r, note, k, id)
  {
    var i := BestOf(s, note, id, k);
    HigherOrders<T>();
    var x := RankOf(Penalized(s, note, decay), Higher(), p, i);
    BestNeverSinks(s, note, decay, r, p, x);
    assert note(r[x].item) == id;
  }

  // ---- counting sources ----

  // The notes behind the first k entries.
  function Notes<T, N(==)>(s: seq<Scored<T>>, note: T -> N, k: nat): set<N>
    requires k <= |s|
  {
    set i | 0 <= i < k :: note(s[i].item)
  }

  method CountSources<T, N(==)>(s: seq<Scored<T>>, note: T -> N) returns (n: nat)
    ensures n == |Notes(s, note, |s|)|
  {
    var seen: set<N> := {};
    for i := 0 to |s|
      invariant seen == Notes(s, note, i)
    {
      seen := seen + {note(s[i].item)};
    }
    n := |seen|;
  }

  ghost predicate Sooner<T, N>(s: seq<Scored<T>>, note: T -> N, a: N, b: N) {
    exists x | 0 <= x < |s| :: note(s[x].item) == a && !HasNote(s, note, x + 1, b)
  }

  lemma SoonerThanNew<T, N>(s: seq<Scored<T>>, note: T -> N, i: nat, a: N, b: N)
    requires i < |s| && HasNote(s, note, i, a) && !HasNote(s, note, i, b)
    ensures Sooner(s, note, a, b)
  {
    var x :| 0 <= x < i && note(s[x].item) == a;
    assert !HasNote(s, note, x + 1, b);
  }

  // The batch of note ids for a store lookup: each once, in first-seen order.
  method DistinctNoteIDs<T, N(==, !new)>(s: seq<Scored<T>>, note: T -> N) returns (out: seq<N>)
    ensures forall id :: id in out <==> id in Notes(s, note, |s|)
    ensures forall a, b | 0 <= a < b < |out| :: out[a] != out[b] && Sooner(s, note, out[a], out[b])
  {
    var seen: set<N> := {};
    out := [];
    for i := 0 to |s|
      invariant seen == Notes(s, note, i)
      invariant forall id :: id in out <==> id in seen
      invariant forall a, b | 0 <= a < b < |out| :: out[a] != out[b] && Sooner(s, note, out[a], out[b])
    {
      var id := note(s[i].item);
      if id !in seen {
        forall a | 0 <= a < |out| ensures out[a] != id && Sooner(s, note, out[a], id) {
          assert out[a] in out && out[a] in Notes(s, note, i) && id !in Notes(s, note, i);
          SoonerThanNew(s, note, i, out[a], id);
        }
        seen := seen + {id};
        out := out + [id];
      }
    }
  }

  // So the answer never covers fewer notes than it would have without the
  // penalty, whatever the cutoff.
  lemma DiversityNeverShrinks<T(!new), N(!new)>(s: seq<Scored<T>>, note: T -> N, decay: real, r: seq<Scored<T>>,
                                                p: seq<nat>, k: nat)
    requires ByDescendingScore(s) && NonNegative(s) && 0.0 <= decay <= 1.0
    requires SortedFrom(Penalized(s, note, decay), r, p)
    requires k <= |s|
    ensures Notes(s, note, k) <= Notes(r, note, k) && |Notes(s, note, k)| <= |Notes(r, note, k)|
    ensures Notes(s, note, |s|) == Notes(r, note, |s|)
  {
    forall id | id in Notes(s, note, k) ensures id in Notes(r, note, k) {
      NoNoteIsPushedOut(s, note, decay, r, p, k, id);
    }
    forall id | id in Notes(s, note, |s|) ensures id in Notes(r, note, |s|) {
      NoNoteIsPushedOut(s, note, decay, r, p, |s|, id);
    }
    forall i | 0 <= i < |r| ensures note(r[i].item) in Notes(s, note, |s|) {
      assert r[i].item == s[p[i]].item;
    }
    SubsetHasFewer(Notes(s, note, k), Notes(r, note, k));
  }

  // ---- from legs to answer ----

  lemma {:induction false} VotesAreNonNegative<T>(k: nat, legs: seq<Leg<T>>)
    requires forall l | 0 <= l < |legs| :: legs[l].weight >= 0.0
    ensures forall i | 0 <= i < |Votes(k, legs)| :: Votes(k, legs)[i].gain >= 0.0
  {
    if legs != [] {
      var leg := legs[|legs| - 1];
      VotesAreNonNegative(k, legs[..|legs| - 1]);
      forall i | 0 <= i < |leg.items| ensures VotesOf(k, leg)[i].gain >= 0.0 {
        GainIsNonNegative(k, leg.weight, i + 1);
      }
    }
  }

  lemma {:induction false} TotalIsNonNegative<T, K>(votes: seq<Vote<T>>, key: T -> K, id: K)
    requires forall i | 0 <= i < |votes| :: votes[i].gain >= 0.0
    ensures Total(votes, key, id) >= 0.0
  {
    if votes != [] {
      TotalIsNonNegative(votes[..|votes| - 1], key, id);
    }
  }

  lemma FusedDescends<T, K(!new)>(k: nat, legs: seq<Leg<T>>, key: T -> K, r: seq<Scored<T>>)
    requires Fused(r, Votes(k, legs), key)
    ensures ByDescendingScore(r) && (Weighted(legs) ==> NonNegative(r))
  {
    var votes := Votes(k, legs);
    forall i | 0 <= i < |r| ensures r[i].score == Total(votes, key, key(r[i].item))
        && (Weighted(legs) ==> r[i].score >= 0.0) {
      assert Holds(r, votes, key, i);
      if Weighted(legs) {
        VotesAreNonNegative(k, legs);
        TotalIsNonNegative(votes, key, key(r[i].item));
      }
    }
    forall i, j | 0 <= i < j < |r| ensures r[i].score >= r[j].score {
      assert Ahead(votes, key, key(r[i].item), key(r[j].item));
    }
  }

  // A prior keeps the list score-sorted, so that the next pass may skip its sort.
  method ApplyPrior<T(!new)>(fused: array<Scored<T>>, factor: T -> real) returns (ghost p: seq<nat>)
    requires ByDescendingScore(fused[..])
    modifies fused
    ensures ByDescendingScore(fused[..])
    ensures SortedFrom(Rescored(old(fused[..]), factor), fused[..], p)
  {
    ghost var s := fused[..];
    p := Rescore(fused, factor);
    SortedDescends(Rescored(s, factor), fused[..], p);
  }

  lemma PriorKeepsOrder<T(!new)>(s: seq<Scored<T>>, factor: T -> real, r: seq<Scored<T>>, p: seq<nat>)
    requires NonNegative(s) && (forall x: T :: factor(x) >= 0.0) && SortedFrom(Rescored(s, factor), r, p)
    ensures ByDescendingScore(r) && NonNegative(r)
  {
    forall i | 0 <= i < |s| ensures Rescored(s, factor)[i].score >= 0.0 {
      MulNonNegative(s[i].score, factor(s[i].item));
    }
    SortedDescends(Rescored(s, factor), r, p);
  }

  ghost predicate PriorApplied<T(!new)>(before: seq<Scored<T>>, factor: T -> real, r: seq<Scored<T>>) {
    exists p: seq<nat> :: SortedFrom(Rescored(before, factor), r, p)
  }

  // One prior after another, each a stable sort of the rescored list.
  ghost predicate Reranked<T(!new)>(fused: seq<Scored<T>>, priors: seq<T -> real>, r: seq<Scored<T>>)
    decreases |priors|, 0
  {
    if priors == [] then r == fused
    else RerankedThen(fused, priors[..|priors| - 1], priors[|priors| - 1], r)
  }

  ghost predicate RerankedThen<T(!new)>(fused: seq<Scored<T>>, init: seq<T -> real>, last: T -> real, r: seq<Scored<T>>)
    decreases |init|, 1
  {
    exists before :: Reranked(fused, init, before) && PriorApplied(before, last, r)
  }

  // The ranking as it stands before diversification.
  ghost predicate Plain<T(!new), K(!new)>(k: nat, key: T -> K, legs: seq<Leg<T>>, priors: seq<T -> real>,
                                          plain: seq<Scored<T>>) {
    exists fused :: Fused(fused, Votes(k, legs), key) && Reranked(fused, priors, plain)
  }

  ghost predicate Diversified<T(!new), N>(plain: seq<Scored<T>>, note: T -> N, decay: real, all: seq<Scored<T>>) {
    if decay < 1.0 then exists p: seq<nat> :: SortedFrom(Penalized(plain, note, decay), all, p) else all == plain
  }

  function Top<T>(all: seq<Scored<T>>, topK: nat): seq<Scored<T>> { if |all| > topK then all[..topK] else all }

  predicate Weighted<T>(legs: seq<Leg<T>>) { forall l | 0 <= l < |legs| :: legs[l].weight >= 0.0 }

  ghost predicate Factors<T(!new)>(priors: seq<T -> real>) { forall f, x | 0 <= f < |priors| :: priors[f](x) >= 0.0 }

  lemma {:induction false} RerankedDescends<T(!new)>(fused: seq<Scored<T>>, priors: seq<T -> real>, r: seq<Scored<T>>)
    requires ByDescendingScore(fused) && NonNegative(fused) && Factors(priors) && Reranked(fused, priors, r)
    ensures ByDescendingScore(r) && NonNegative(r)
    decreases |priors|
  {
    if priors != [] {
      var init, last := priors[..|priors| - 1], priors[|priors| - 1];
      var before :| Reranked(fused, init, before) && PriorApplied(before, last, r);
      var p: seq<nat> :| SortedFrom(Rescored(before, last), r, p);
      RerankedDescends(fused, init, before);
      PriorKeepsOrder(before, last, r, p);
    }
  }

  lemma PlainDescends<T(!new), K(!new)>(k: nat, key: T -> K, legs: seq<Leg<T>>, priors: seq<T -> real>, plain: seq<Scored<T>>)
    requires Weighted(legs) && Factors(priors) && Plain(k, key, legs, priors, plain)
    ensures ByDescendingScore(plain) && NonNegative(plain)
  {
    var fused :| Fused(fused, Votes(k, legs), key) && Reranked(fused, priors, plain);
    FusedDescends(k, legs, key, fused);
    RerankedDescends(fused, priors, plain);
  }

  lemma TopNotes<T, N>(all: seq<Scored<T>>, note: T -> N, topK: nat)
    ensures Notes(Top(all, topK), note, |Top(all, topK)|) == Notes(all, note, |Top(all, topK)|)
  {
  }

  // Whatever the cutoff, diversification keeps every note the plain ranking
  // would have shown, and the notes of the whole list.
  lemma AnswerCovers<T(!new), K(!new), N(!new)>(k: nat, key: T -> K, legs: seq<Leg<T>>, note: T -> N,
                                                priors: seq<T -> real>, decay: real,
                                                plain: seq<Scored<T>>, all: seq<Scored<T>>, topK: nat)
    requires Weighted(legs) && Factors(priors) && decay >= 0.0
    requires Plain(k, key, legs, priors, plain) && Diversified(plain, note, decay, all)
    ensures |all| == |plain| && Notes(all, note, |all|) == Notes(plain, note, |plain|)
    ensures Notes(Top(plain, topK), note, |Top(plain, topK)|) <= Notes(Top(all, topK), note, |Top(all, topK)|)
  {
    PlainDescends(k, key, legs, priors, plain);
    TopNotes(plain, note, topK);
    TopNotes(all, note, topK);
    if decay < 1.0 {
      var p: seq<nat> :| SortedFrom(Penalized(plain, note, decay), all, p);
      DiversityNeverShrinks(plain, note, decay, all, p, |Top(plain, topK)|);
    }
    hide Notes, Plain, Penalized;
  }

  ghost predicate IsAnswer<T(!new), K(!new), N>(k: nat, key: T -> K, legs: seq<Leg<T>>, note: T -> N,
                                                priors: seq<T -> real>, decay: real,
                                                topK: nat, answer: seq<Scored<T>>, fusedSources: nat, sources: nat)
  {
    exists plain: seq<Scored<T>>, all: seq<Scored<T>> ::
      && Plain(k, key, legs, priors, plain) && Diversified(plain, note, decay, all)
      && answer == Top(all, topK)
      && fusedSources == |Notes(all, note, |all|)| && sources == |Notes(answer, note, |answer|)|
  }

  lemma SortKeepsKeys<T(!new), K>(s: seq<Scored<T>>, r: seq<Scored<T>>, p: seq<nat>, key: T -> K, id: K)
    requires SortedFrom(s, r, p) && Listed(s, key, id)
    ensures Listed(r, key, id)
  {
    HigherOrders<T>();
    var j :| 0 <= j < |s| && key(s[j].item) == id;
    var x := RankOf(s, Higher(), p, j);
    assert r[x] == s[j];
  }

  lemma {:induction false} RerankedKeepsKeys<T(!new), K>(fused: seq<Scored<T>>, priors: seq<T -> real>, r: seq<Scored<T>>,
                                                         key: T -> K, id: K)
    requires Reranked(fused, priors, r) && Listed(fused, key, id)
    ensures Listed(r, key, id)
    decreases |priors|
  {
    if priors != [] {
      var init, last := priors[..|priors| - 1], priors[|priors| - 1];
      var before: seq<Scored<T>> :| Reranked(fused, init, before) && PriorApplied(before, last, r);
      var p: seq<nat> :| SortedFrom(Rescored(before, last), r, p);
      RerankedKeepsKeys(fused, init, before, key, id);
      var j :| 0 <= j < |before| && key(before[j].item) == id;
      assert key(Rescored(before, last)[j].item) == id;
      SortKeepsKeys(Rescored(before, last), r, p, key, id);
    }
  }

  lemma DiversifiedKeepsKeys<T(!new), K, N>(plain: seq<Scored<T>>, note: T -> N, decay: real, all: seq<Scored<T>>,
                                            key: T -> K, id: K)
    requires Diversified(plain, note, decay, all) && Listed(plain, key, id)
    ensures Listed(all, key, id)
  {
    if decay < 1.0 {
      var p: seq<nat> :| SortedFrom(Penalized(plain, note, decay), all, p);
      var j :| 0 <= j < |plain| && key(plain[j].item) == id;
      assert key(Penalized(plain, note, decay)[j].item) == id;
      SortKeepsKeys(Penalized(plain, note, decay), all, p, key, id);
    }
  }

  // The answer has no more entries than asked for, and is cut short only by
  // that: with fewer, every key some leg ranked is in it.
  lemma AnswerIsFull<T(!new), K(!new), N>(k: nat, key: T -> K, legs: seq<Leg<T>>, note: T -> N, priors: seq<T -> real>,
                                          decay: real, topK: nat, answer: seq<Scored<T>>, fusedSources: nat, sources: nat)
    requires IsAnswer(k, key, legs, note, priors, decay, topK, answer, fusedSources, sources)
    ensures |answer| <= topK
    ensures |answer| < topK ==>
              forall l: nat, i: nat | l < |legs| && i < |legs[l].items| :: Listed(answer, key, key(legs[l].items[i]))
  {
    var plain: seq<Scored<T>>, all: seq<Scored<T>> :|
      && Plain(k, key, legs, priors, plain) && Diversified(plain, note, decay, all)
      && answer == Top(all, topK)
      && fusedSources == |Notes(all, note, |all|)| && sources == |Notes(answer, note, |answer|)|;
    if |answer| < topK {
      assert answer == all;
      var fused: seq<Scored<T>> :| Fused(fused, Votes(k, legs), key) && Reranked(fused, priors, plain);
      forall l: nat, i: nat | l < |legs| && i < |legs[l].items| ensures Listed(answer, key, key(legs[l].items[i])) {
        var id := key(legs[l].items[i]);
        EveryItemVotes(k, legs, key, l, i);
        assert Voted(Votes(k, legs), key, id) && Listed(fused, key, id);
        RerankedKeepsKeys(fused, priors, plain, key, id);
        DiversifiedKeepsKeys(plain, note, decay, all, key, id);
      }
    }
  }

  lemma {:induction false} EveryItemVotes<T, K>(k: nat, legs: seq<Leg<T>>, key: T -> K, l: nat, i: nat)
    requires l < |legs| && i < |legs[l].items|
    ensures Voted(Votes(k, legs), key, key(legs[l].items[i]))
  {
    var init, leg := legs[..|legs| - 1], legs[|legs| - 1];
    var before, votes := Votes(k, init), VotesOf(k, leg);
    assert forall j | 0 <= j < |before| :: (before + votes)[j] == before[j];
    if l < |init| {
      EveryItemVotes(k, init, key, l, i);
    } else {
      assert (before + votes)[|before| + i] == votes[i];
    }
  }

  lemma OneMorePrior<T(!new)>(fused: seq<Scored<T>>, priors: seq<T -> real>, f: nat, before: seq<Scored<T>>,
                              r: seq<Scored<T>>, p: seq<nat>)
    requires f < |priors| && Reranked(fused, priors[..f], before) && SortedFrom(Rescored(before, priors[f]), r, p)
    ensures Reranked(fused, priors[..f + 1], r)
  {
    assert PriorApplied(before, priors[f], r);
    assert priors[..f + 1][..f] == priors[..f];
  }

  lemma IsTheAnswer<T(!new), K(!new), N>(k: nat, key: T -> K, legs: seq<Leg<T>>, note: T -> N, priors: seq<T -> real>,
                                         decay: real, topK: nat, out: seq<Scored<T>>, plain: seq<Scored<T>>,
                                         all: seq<Scored<T>>)
    requires Fused(out, Votes(k, legs), key) && Reranked(out, priors, plain) && Diversified(plain, note, decay, all)
    ensures var answer := Top(all, topK);
            IsAnswer(k, key, legs, note, priors, decay, topK, answer, |Notes(all, note, |all|)|,
                     |Notes(answer, note, |answer|)|)
  {
    assert Plain(k, key, legs, priors, plain);
    hide Fused, Reranked, Diversified, Votes, Notes;
  }

  // The request path after the legs have run: fuse, apply the priors in turn,
  // diversify, count, cut, count again.
  method Answer<T(!new), K(==, !new), N(==, !new)>(k: nat, key: T -> K, legs: seq<Leg<T>>, note: T -> N,
                                                   priors: seq<T -> real>,
                                                   decay: real, topK: nat)
    returns (answer: seq<Scored<T>>, fusedSources: nat, sources: nat)
    ensures IsAnswer(k, key, legs, note, priors, decay, topK, answer, fusedSources, sources)
  {
    var out := FuseRRF(k, key, legs);
    FusedDescends(k, legs, key, out);
    var fused := new Scored<T>[|out|](i requires 0 <= i < |out| => out[i]);
    assert fused[..] == out;
    for f := 0 to |priors|
      invariant ByDescendingScore(fused[..])
      invariant Reranked(out, priors[..f], fused[..])
    {
      ghost var before := fused[..];
      ghost var p := ApplyPrior(fused, priors[f]);
      OneMorePrior(out, priors, f, before, fused[..], p);
    }
    assert priors[..|priors|] == priors;
    ghost var plain := fused[..];
    ghost var p := ApplyDiversityPenalty(fused, note, decay);
    var all := fused[..];
    assert Diversified(plain, note, decay, all);
    IsTheAnswer(k, key, legs, note, priors, decay, topK, out, plain, all);
    hide Fused, Votes, Reranked, Diversified, Notes, IsAnswer;
    fusedSources := CountSources(all, note);
    answer := if |all| > topK then all[..topK] else all;
    sources := CountSources(answer, note);
  }
}

// The bounded multi-hop graph leg: a recursive query over links, evaluated with
// a working table as section 7.8.2 (Recursive Queries) of the PostgreSQL manual
// describes, and what it computes in terms of walks.
module GraphReach {
  import opened Arithmetic
  import opened Counting
  import opened Text

  type Id = int

  datatype Edge = Edge(src: Id, dst: Id)
  datatype Row = Row(seed: Id, note: Id, dist: nat)

  // ---- walks ----

  // Consecutive links, through conducting notes only; the ends need not conduct.
  ghost predicate Walk(links: set<Edge>, conducts: set<Id>, p: seq<Id>) {
    && |p| >= 2
    && (forall i | 0 <= i < |p| - 1 :: Edge(p[i], p[i + 1]) in links)
    && (forall i | 0 < i < |p| - 1 :: p[i] in conducts)
  }

  ghost predicate From(p: seq<Id>, s: Id, n: Id, d: nat) {
    d > 0 && |p| == d + 1 && p[0] == s && p[d] == n
  }

  ghost predicate Reaches(links: set<Edge>, conducts: set<Id>, s: Id, n: Id, d: nat) {
    exists p: seq<Id> :: From(p, s, n, d) && Walk(links, conducts, p)
  }

  lemma OneHop(links: set<Edge>, conducts: set<Id>, s: Id, n: Id)
    ensures Reaches(links, conducts, s, n, 1) <==> Edge(s, n) in links
  {
    if Edge(s, n) in links {
      assert From([s, n], s, n, 1) && Walk(links, conducts, [s, n]);
    }
  }

  ghost predicate Via(links: set<Edge>, conducts: set<Id>, s: Id, m: Id, n: Id, d: nat) {
    Reaches(links, conducts, s, m, d) && m in conducts && Edge(m, n) in links
  }

  lemma StepForward(links: set<Edge>, conducts: set<Id>, s: Id, m: Id, n: Id, d: nat)
    requires Via(links, conducts, s, m, n, d)
    ensures Reaches(links, conducts, s, n, d + 1)
  {
    var p :| From(p, s, m, d) && Walk(links, conducts, p);
    var q := p + [n];
    assert forall i | 0 <= i < |p| :: q[i] == p[i];
    assert From(q, s, n, d + 1) && Walk(links, conducts, q);
  }

  lemma StepBack(links: set<Edge>, conducts: set<Id>, s: Id, n: Id, d: nat) returns (m: Id)
    requires d > 0 && Reaches(links, conducts, s, n, d + 1)
    ensures Via(links, conducts, s, m, n, d)
  {
    var q :| From(q, s, n, d + 1) && Walk(links, conducts, q);
    m := q[d];
    var p := q[..d + 1];
    assert From(p, s, m, d) && Walk(links, conducts, p);
    assert Edge(q[d], q[d + 1]) in links;
  }

  // Where no walk of length k arrives, none of a greater length does.
  lemma {:induction false} NoFurther(links: set<Edge>, conducts: set<Id>, s: Id, k: nat, n: Id, d: nat)
    requires 0 < k <= d && forall m :: !Reaches(links, conducts, s, m, k)
    ensures !Reaches(links, conducts, s, n, d)
    decreases d
  {
    if d > k && Reaches(links, conducts, s, n, d) {
      var m := StepBack(links, conducts, s, n, d - 1);
      NoFurther(links, conducts, s, k, m, d - 1);
    }
  }

  // ---- the recursive query ----

  // What the rows mean, up to a distance.
  ghost predicate IsReach(links: set<Edge>, conducts: set<Id>, seeds: set<Id>, limit: nat, r: Row) {
    r.seed in seeds && r.dist <= limit && Reaches(links, conducts, r.seed, r.note, r.dist)
  }

  function Base(links: set<Edge>, seeds: set<Id>): set<Row> {
    set e | e in links && e.src in seeds :: Row(e.src, e.dst, 1)
  }

  // The recursive term over one working table.
  function Expand(links: set<Edge>, conducts: set<Id>, work: set<Row>, maxDepth: nat): set<Row> {
    set r, e | r in work && e in links && e.src == r.note && r.dist < maxDepth
        && r.note in conducts :: Row(r.seed, e.dst, r.dist + 1)
  }

  lemma BaseIsReach(links: set<Edge>, conducts: set<Id>, seeds: set<Id>, r: Row)
    ensures r in Base(links, seeds) <==> IsReach(links, conducts, seeds, 1, r)
  {
    OneHop(links, conducts, r.seed, r.note);
    if r in Base(links, seeds) {
      assert Edge(r.seed, r.note) in links;
    }
    if IsReach(links, conducts, seeds, 1, r) {
      assert r.dist == 1;
      assert Edge(r.seed, r.note) in links;
    }
  }

  // The working table holds exactly the walks of one length.
  ghost predicate IsWork(links: set<Edge>, conducts: set<Id>, seeds: set<Id>, work: set<Row>, dist: nat) {
    forall r :: r in work <==> r.dist == dist && IsReach(links, conducts, seeds, dist, r)
  }

  lemma ExpandIsReach(links: set<Edge>, conducts: set<Id>, seeds: set<Id>, work: set<Row>, dist: nat, maxDepth: nat, r: Row)
    requires 0 < dist && IsWork(links, conducts, seeds, work, dist)
    ensures r in Expand(links, conducts, work, maxDepth) <==>
            dist < maxDepth && r.dist == dist + 1 && IsReach(links, conducts, seeds, dist + 1, r)
  {
    if r in Expand(links, conducts, work, maxDepth) {
      var w, e :| w in work && e in links && e.src == w.note && w.dist < maxDepth && w.note in conducts
          && r == Row(w.seed, e.dst, w.dist + 1);
      assert Via(links, conducts, r.seed, w.note, r.note, dist);
      StepForward(links, conducts, r.seed, w.note, r.note, dist);
    }
    if dist < maxDepth && r.dist == dist + 1 && IsReach(links, conducts, seeds, dist + 1, r) {
      var m := StepBack(links, conducts, r.seed, r.note, dist);
      assert Row(r.seed, m, dist) in work && Edge(m, r.note) in links;
      assert r == Row(r.seed, Edge(m, r.note).dst, Row(r.seed, m, dist).dist + 1);
    }
  }

  // Evaluates the recursive term until it yields nothing new. On any graph,
  // cyclic or not, that takes at most maxDepth rounds, and the rows left are the
  // walks of length up to maxDepth.
  method Reach(links: set<Edge>, conducts: set<Id>, seeds: set<Id>, maxDepth: nat) returns (reach: set<Row>, rounds: nat)
    requires maxDepth >= 1
    ensures forall r :: r in reach <==> IsReach(links, conducts, seeds, maxDepth, r)
    ensures rounds <= maxDepth
  {
    reach := Base(links, seeds);
    var work := reach;
    rounds := 0;
    forall r ensures r in reach <==> IsReach(links, conducts, seeds, 1, r) {
      BaseIsReach(links, conducts, seeds, r);
    }
    while work != {}
      invariant rounds <= maxDepth
      invariant rounds < maxDepth ==> IsWork(links, conducts, seeds, work, rounds + 1)
      invariant rounds == maxDepth ==> work == {}
      invariant forall r ::
                  r in reach <==> IsReach(links, conducts, seeds, if rounds < maxDepth then rounds + 1 else maxDepth, r)
      decreases maxDepth - rounds
    {
      forall r ensures r in Expand(links, conducts, work, maxDepth) <==>
          rounds + 1 < maxDepth && r.dist == rounds + 2 && IsReach(links, conducts, seeds, rounds + 2, r) {
        ExpandIsReach(links, conducts, seeds, work, rounds + 1, maxDepth, r);
      }
      var new' := Expand(links, conducts, work, maxDepth) - reach;
      reach := reach + new';
      work := new';
      rounds := rounds + 1;
    }
    forall r | IsReach(links, conducts, seeds, maxDepth, r) ensures r in reach {
      if rounds < maxDepth && r.dist > rounds + 1 {
        ghost var k := rounds + 1;
        forall m ensures !Reaches(links, conducts, r.seed, m, k) {
          assert Row(r.seed, m, k) !in work;
        }
        NoFurther(links, conducts, r.seed, k, r.note, r.dist);
      }
    }
  }

  // ---- how many rows ----

  function Targets(links: set<Edge>): set<Id> { set e | e in links :: e.dst }

  // At most |seeds| x |notes| x maxDepth rows, however many walks there are.
  lemma RowsAreBounded(links: set<Edge>, conducts: set<Id>, seeds: set<Id>, maxDepth: nat, reach: set<Row>)
    requires forall r | r in reach :: IsReach(links, conducts, seeds, maxDepth, r)
    ensures |reach| <= |seeds| * |Targets(links)| * maxDepth
  {
    var notes := Targets(links);
    var pairs := Pairs(seeds, notes);
    var triples := Pairs(pairs, UpTo(maxDepth));
    PairsCount(seeds, notes);
    PairsCount(pairs, UpTo(maxDepth));
    var toRow := (t: ((Id, Id), nat)) => Row(t.0.0, t.0.1, t.1);
    var rows := Image(triples, toRow);
    ImageIsSmaller(triples, toRow);
    forall r | r in reach ensures r in rows {
      var p :| From(p, r.seed, r.note, r.dist) && Walk(links, conducts, p);
      assert Edge(p[r.dist - 1], p[r.dist - 1 + 1]) in links;
      assert (r.seed, r.note) in pairs;
      assert ((r.seed, r.note), r.dist) in triples;
      assert toRow(((r.seed, r.note), r.dist)) == r;
    }
    SubsetHasFewer(reach, rows);
  }

  // ---- best ----

  // min(dist) of one (seed, note) group, looking from d up.
  function BestFrom(reach: set<Row>, s: Id, n: Id, d: nat, maxDepth: nat): (b: Option<nat>)
    ensures b.Some? ==> d <= b.value <= maxDepth && Row(s, n, b.value) in reach
    ensures b.Some? ==> forall k | d <= k < b.value :: Row(s, n, k) !in reach
    ensures b.None? ==> forall k | d <= k <= maxDepth :: Row(s, n, k) !in reach
    decreases maxDepth + 1 - d
  {
    if d > maxDepth then None
    else if Row(s, n, d) in reach then Some(d)
    else BestFrom(reach, s, n, d + 1, maxDepth)
  }

  function Best(reach: set<Row>, s: Id, n: Id, maxDepth: nat): Option<nat> { BestFrom(reach, s, n, 1, maxDepth) }

  ghost predicate Computed(links: set<Edge>, conducts: set<Id>, seeds: set<Id>, maxDepth: nat, reach: set<Row>) {
    forall r :: r in reach <==> IsReach(links, conducts, seeds, maxDepth, r)
  }

  ghost predicate Shortest(links: set<Edge>, conducts: set<Id>, s: Id, n: Id, d: nat) {
    Reaches(links, conducts, s, n, d) && forall k | 0 < k < d :: !Reaches(links, conducts, s, n, k)
  }

  // best is the shortest conducting distance, when it is within the depth.
  lemma BestIsShortest(links: set<Edge>, conducts: set<Id>, seeds: set<Id>, maxDepth: nat, reach: set<Row>, s: Id,
                       n: Id, d: nat)
    requires Computed(links, conducts, seeds, maxDepth, reach)
    ensures Best(reach, s, n, maxDepth) == Some(d) <==> s in seeds && d <= maxDepth && Shortest(links, conducts, s, n, d)
  {
    var b := Best(reach, s, n, maxDepth);
    forall k: nat ensures Row(s, n, k) in reach <==> s in seeds && k <= maxDepth && Reaches(links, conducts, s, n, k) {
      assert Row(s, n, k) in reach <==> IsReach(links, conducts, seeds, maxDepth, Row(s, n, k));
    }
    if b == Some(d) {
      assert Row(s, n, d) in reach;
      forall k | 0 < k < d ensures !Reaches(links, conducts, s, n, k) {
        assert Row(s, n, k) !in reach;
      }
    }
    if s in seeds && d <= maxDepth && Shortest(links, conducts, s, n, d) {
      assert Row(s, n, d) in reach;
      assert b.Some?;
      assert Row(s, n, b.value) in reach;
    }
  }

  // ---- a shortest walk visits nothing twice ----

  lemma CutLoop(links: set<Edge>, conducts: set<Id>, p: seq<Id>, i: nat, j: nat)
    requires Walk(links, conducts, p) && 1 <= i < j < |p| && p[i] == p[j]
    ensures Walk(links, conducts, p[..i] + p[j..])
  {
    var q := p[..i] + p[j..];
    forall k | 0 <= k < |q| - 1 ensures Edge(q[k], q[k + 1]) in links && (k > 0 ==> q[k] in conducts) {
      if k + 1 < i {
        assert Edge(p[k], p[k + 1]) in links;
      } else if k + 1 == i {
        assert Edge(p[k], p[k + 1]) in links;
      } else {
        var m := k - i + j;
        assert q[k] == p[m] && q[k + 1] == p[m + 1];
        assert Edge(p[m], p[m + 1]) in links;
      }
    }
  }

  lemma CutReaches(links: set<Edge>, conducts: set<Id>, s: Id, n: Id, d: nat, p: seq<Id>, i: nat, j: nat)
    requires From(p, s, n, d) && Walk(links, conducts, p) && 1 <= i < j < |p| && p[i] == p[j]
    ensures Reaches(links, conducts, s, n, d - (j - i))
  {
    CutLoop(links, conducts, p, i, j);
    assert From(p[..i] + p[j..], s, n, d - (j - i));
  }

  lemma ShortestIsSimple(links: set<Edge>, conducts: set<Id>, s: Id, n: Id, d: nat, p: seq<Id>)
    requires Shortest(links, conducts, s, n, d) && From(p, s, n, d) && Walk(links, conducts, p)
    ensures forall i, j | 1 <= i < j < |p| :: p[i] != p[j]
  {
    forall i, j | 1 <= i < j < |p| ensures p[i] != p[j] {
      if p[i] == p[j] {
        CutReaches(links, conducts, s, n, d, p, i, j);
      }
    }
  }

  lemma {:induction false} DistinctCount(p: seq<Id>, image: set<Id>)
    requires (forall i, j | 0 <= i < j < |p| :: p[i] != p[j]) && forall i | 0 <= i < |p| :: p[i] in image
    ensures |p| <= |image|
  {
    if p != [] {
      DistinctCount(p[1..], image - {p[0]});
    }
  }

  lemma {:induction false} SomeShortest(links: set<Edge>, conducts: set<Id>, s: Id, n: Id, d: nat) returns (b: nat)
    requires Reaches(links, conducts, s, n, d)
    ensures b <= d && Shortest(links, conducts, s, n, b)
  {
    if k :| 0 < k < d && Reaches(links, conducts, s, n, k) {
      b := SomeShortest(links, conducts, s, n, k);
    } else {
      b := d;
    }
  }

  // A depth of as many hops as there are linked-to notes already finds all that
  // any walk can: deeper budgets only repeat cycles.
  lemma DeepEnough(links: set<Edge>, conducts: set<Id>, s: Id, n: Id, d: nat) returns (b: nat)
    requires Reaches(links, conducts, s, n, d)
    ensures b <= |Targets(links)| && Shortest(links, conducts, s, n, b)
  {
    b := SomeShortest(links, conducts, s, n, d);
    var p :| From(p, s, n, b) && Walk(links, conducts, p);
    ShortestIsSimple(links, conducts, s, n, b, p);
    forall i | 0 <= i < |p| - 1 ensures p[1..][i] in Targets(links) {
      assert Edge(p[i], p[i + 1]) in links;
    }
    DistinctCount(p[1..], Targets(links));
  }

  // ---- scores ----

  // What one seed adds to a note's score.
  function Activation(best: Option<nat>, decay: real): real {
    if best.Some? && best.value > 0 then Power(decay, best.value - 1) else 0.0
  }

  // sum(decay^(dist-1)) over the seeds; a seed listed twice counts once.
  function Score(reach: set<Row>, seeds: seq<Id>, n: Id, maxDepth: nat, decay: real): real {
    if seeds == [] then 0.0
    else
      var init, s := seeds[..|seeds| - 1], seeds[|seeds| - 1];
      Score(reach, init, n, maxDepth, decay) + if s in init then 0.0 else Activation(Best(reach, s, n, maxDepth), decay)
  }

  lemma ActivationIs(links: set<Edge>, conducts: set<Id>, all: set<Id>, maxDepth: nat, reach: set<Row>, s: Id, n: Id,
                     decay: real)
    requires Computed(links, conducts, all, maxDepth, reach) && s in all
    ensures var gained := Activation(Best(reach, s, n, maxDepth), decay);
            && (forall d: nat | 0 < d <= maxDepth && Shortest(links, conducts, s, n, d) :: gained == Power(decay, d - 1))
            && ((forall d: nat | 0 < d <= maxDepth :: !Reaches(links, conducts, s, n, d)) ==> gained == 0.0)
  {
    hide Computed, Reaches;
    forall d: nat | 0 < d <= maxDepth && Shortest(links, conducts, s, n, d) ensures Best(reach, s, n, maxDepth) == Some(d) {
      BestIsShortest(links, conducts, all, maxDepth, reach, s, n, d);
    }
    var b := Best(reach, s, n, maxDepth);
    if b.Some? {
      BestIsShortest(links, conducts, all, maxDepth, reach, s, n, b.value);
    }
  }

  // One more seed adds decay^(d-1) when its shortest conducting walk to the note
  // has length d within the depth, and nothing when no walk does or when it was
  // a seed before.
  lemma SeedAdds(links: set<Edge>, conducts: set<Id>, all: set<Id>, maxDepth: nat, reach: set<Row>, seeds: seq<Id>, s: Id,
                 n: Id, decay: real) returns (gained: real)
    requires Computed(links, conducts, all, maxDepth, reach) && s in all
    ensures Score(reach, seeds + [s], n, maxDepth, decay) == Score(reach, seeds, n, maxDepth, decay) + gained
    ensures s in seeds ==> gained == 0.0
    ensures forall d: nat | s !in seeds && 0 < d <= maxDepth && Shortest(links, conducts, s, n, d) ::
              gained == Power(decay, d - 1)
    ensures (forall d: nat | 0 < d <= maxDepth :: !Reaches(links, conducts, s, n, d)) ==> gained == 0.0
  {
    assert (seeds + [s])[..|seeds|] == seeds;
    ActivationIs(links, conducts, all, maxDepth, reach, s, n, decay);
    gained := if s in seeds then 0.0 else Activation(Best(reach, s, n, maxDepth), decay);
    hide Computed, Reaches, Shortest, Best, Activation;
  }

  // A seed's share can be taken out from wherever it stands.
  lemma {:induction false} TakeOut(reach: set<Row>, seeds: seq<Id>, s: Id, n: Id, maxDepth: nat, decay: real)
    requires s in seeds
    ensures Score(reach, seeds, n, maxDepth, decay) ==
            Score(reach, Except(seeds, s), n, maxDepth, decay) + Activation(Best(reach, s, n, maxDepth), decay)
  {
    var init, last := seeds[..|seeds| - 1], seeds[|seeds| - 1];
    assert seeds == init + [last];
    ExceptHas(init, s);
    hide Best, Activation;
    if s in init {
      TakeOut(reach, init, s, n, maxDepth, decay);
      if last != s {
        assert (Except(init, s) + [last])[..|Except(init, s)|] == Except(init, s);
      }
    } else {
      ExceptNothing(init, s);
    }
  }

  function Seeds(seeds: seq<Id>): set<Id> { set s | s in seeds }

  function Except(seeds: seq<Id>, s: Id): seq<Id> {
    if seeds == [] then []
    else
      var init, last := seeds[..|seeds| - 1], seeds[|seeds| - 1];
      if last == s then Except(init, s) else Except(init, s) + [last]
  }

  lemma {:induction false} ExceptHas(seeds: seq<Id>, s: Id)
    ensures forall x :: x in Except(seeds, s) <==> x in seeds && x != s
  {
    if seeds != [] {
      var init, last := seeds[..|seeds| - 1], seeds[|seeds| - 1];
      ExceptHas(init, s);
      assert seeds == init + [last];
    }
  }

  lemma {:induction false} ExceptNothing(seeds: seq<Id>, s: Id)
    requires s !in seeds
    ensures Except(seeds, s) == seeds
  {
    if seeds != [] {
      ExceptNothing(seeds[..|seeds| - 1], s);
      assert seeds == seeds[..|seeds| - 1] + [seeds[|seeds| - 1]];
    }
  }

  lemma ExceptSeeds(seeds: seq<Id>, s: Id)
    ensures Seeds(Except(seeds, s)) == Seeds(seeds) - {s}
  {
    ExceptHas(seeds, s);
    hide Except;
    forall x ensures x in Seeds(Except(seeds, s)) <==> x in Seeds(seeds) && x != s {
      assert x in Except(seeds, s) <==> x in seeds && x != s;
    }
  }

  lemma NoSeeds(seeds: seq<Id>)
    ensures seeds != [] ==> Seeds(seeds) != {}
  {
    if seeds != [] {
      assert seeds[0] in Seeds(seeds);
    }
  }

  // Neither the order of the seeds nor a repetition among them changes a score.
  lemma {:induction false} SeedOrderIsIgnored(reach: set<Row>, seeds: seq<Id>, seeds': seq<Id>, n: Id, maxDepth: nat,
                                              decay: real)
    requires Seeds(seeds) == Seeds(seeds')
    ensures Score(reach, seeds, n, maxDepth, decay) == Score(reach, seeds', n, maxDepth, decay)
    decreases Seeds(seeds)
  {
    if seeds == [] {
      NoSeeds(seeds');
    } else {
      var s := seeds[0];
      assert s in Seeds(seeds) && s in seeds && s in seeds';
      ExceptSeeds(seeds, s);
      ExceptSeeds(seeds', s);
      TakeOut(reach, seeds, s, n, maxDepth, decay);
      TakeOut(reach, seeds', s, n, maxDepth, decay);
      hide Score, Except, Best, Activation, Seeds;
      SeedOrderIsIgnored(reach, Except(seeds, s), Except(seeds', s), n, maxDepth, decay);
    }
  }

  // count(distinct src) of the one-hop leg.
  function SeedsLinking(links: set<Edge>, seeds: seq<Id>, n: Id): nat {
    if seeds == [] then 0
    else
      var init, s := seeds[..|seeds| - 1], seeds[|seeds| - 1];
      SeedsLinking(links, init, n) + if s !in init && Edge(s, n) in links then 1 else 0
  }

  // At depth 1 the score is the one-hop count, whatever the decay.
  lemma {:induction false} DepthOneCountsSeeds(links: set<Edge>, conducts: set<Id>, all: set<Id>, reach: set<Row>,
                                               seeds: seq<Id>, n: Id, decay: real)
    requires Computed(links, conducts, all, 1, reach) && forall i | 0 <= i < |seeds| :: seeds[i] in all
    ensures Score(reach, seeds, n, 1, decay) == SeedsLinking(links, seeds, n) as real
  {
    if seeds != [] {
      var init, s := seeds[..|seeds| - 1], seeds[|seeds| - 1];
      DepthOneCountsSeeds(links, conducts, all, reach, init, n, decay);
      OneHop(links, conducts, s, n);
      assert Row(s, n, 1) in reach <==> IsReach(links, conducts, all, 1, Row(s, n, 1));
      assert Power(decay, 0) == 1.0;
    }
  }

  // Deepening only adds rows, and never changes a distance already found.
  lemma DeeperKeepsBest(links: set<Edge>, conducts: set<Id>, all: set<Id>, depth: nat, deeper: nat,
                        reach: set<Row>, reach': set<Row>, s: Id, n: Id)
    requires depth <= deeper && Computed(links, conducts, all, depth, reach) && Computed(links, conducts, all, deeper, reach')
    ensures reach <= reach'
    ensures Best(reach, s, n, depth).Some? ==> Best(reach', s, n, deeper) == Best(reach, s, n, depth)
  {
    forall r | r in reach ensures r in reach' {
      assert IsReach(links, conducts, all, deeper, r);
    }
    if Best(reach, s, n, depth).Some? {
      var d := Best(reach, s, n, depth).value;
      BestIsShortest(links, conducts, all, depth, reach, s, n, d);
      BestIsShortest(links, conducts, all, deeper, reach', s, n, d);
    }
  }

  lemma {:induction false} DeeperScoresMore(links: set<Edge>, conducts: set<Id>, all: set<Id>, depth: nat, deeper: nat,
                                            reach: set<Row>, reach': set<Row>, seeds: seq<Id>, n: Id, decay: real)
    requires depth <= deeper && Computed(links, conducts, all, depth, reach) && Computed(links, conducts, all, deeper, reach')
    requires decay >= 0.0
    ensures Score(reach, seeds, n, depth, decay) <= Score(reach', seeds, n, deeper, decay)
  {
    if seeds != [] {
      var init, s := seeds[..|seeds| - 1], seeds[|seeds| - 1];
      DeeperScoresMore(links, conducts, all, depth, deeper, reach, reach', init, n, decay);
      DeeperKeepsBest(links, conducts, all, depth, deeper, reach, reach', s, n);
      var b := Best(reach', s, n, deeper);
      if b.Some? {
        PowerIsNonNegative(decay, b.value - 1);
      }
    }
  }

  // ---- the filter ----

  datatype Note = Note(id: Id, path: string, status: string, created: int, falsifiedAt: Option<string>,
      archivedAt: Option<string>)
  datatype Filter = Filter(includeFalsified: bool, includeArchived: bool, asOf: Option<int>, asOfText: string)

  function Coalesce(s: Option<string>): string { if s.Some? then s.value else "" }

  predicate Shelved(status: string) { status == "faded" || status == "archived" }

  predicate Visible(n: Note, f: Filter) {
    || (f.asOf.None? && (f.includeFalsified || n.status != "falsified") && (f.includeArchived || !Shelved(n.status)))
    || (f.asOf.Some? && n.created <= f.asOf.value
        && (f.includeFalsified || n.status != "falsified" || Less(f.asOfText, Coalesce(n.falsifiedAt)))
        && (f.includeArchived || !Shelved(n.status) || Less(f.asOfText, Coalesce(n.archivedAt))))
  }

  // The status the note had at the as-of time, as its own stamps tell it.
  function StatusThen(n: Note, text: string): string {
    if n.status == "falsified" && Less(text, Coalesce(n.falsifiedAt)) then "active"
    else if Shelved(n.status) && Less(text, Coalesce(n.archivedAt)) then "active"
    else n.status
  }

  // Without an as-of time a falsified note is shown only on request, so is a
  // faded or archived one, and every other note always.
  lemma NowShows(n: Note, f: Filter)
    requires f.asOf.None?
    ensures Visible(n, f) <==>
            if n.status == "falsified" then f.includeFalsified
            else if n.status in {"faded", "archived"} then f.includeArchived
            else true
  {
    assert |"falsified"| == 9 && |"faded"| == 5 && |"archived"| == 8;
  }

  // Asking as of T is asking now about the notes that existed at T, with the
  // status they had then.
  lemma AsOfLooksBack(n: Note, f: Filter)
    requires f.asOf.Some?
    ensures Visible(n, f) <==> n.created <= f.asOf.value && Visible(n.(status := StatusThen(n, f.asOfText)), f.(asOf := None))
  {
    assert "falsified"[1] != "faded"[1] || |"falsified"| != |"faded"|;
    assert |"falsified"| != |"archived"|;
    assert |"active"| == 6;
  }

  // ---- the two legs ----

  datatype Chunk = Chunk(id: Id, note: Id, path: string, ordinal: int)

  // order by w desc, n.path, c.ordinal
  predicate Precedes(a: Chunk, wa: real, b: Chunk, wb: real) {
    wa > wb || (wa == wb && (Less(a.path, b.path) || (a.path == b.path && a.ordinal < b.ordinal)))
  }

  // out is the first `limit` candidates in that order.
  ghost predicate IsLeg(out: seq<Chunk>, candidates: set<Chunk>, w: Id -> real, limit: nat) {
    && |out| == (if |candidates| < limit then |candidates| else limit)
    && (forall i | 0 <= i < |out| :: out[i] in candidates)
    && (forall i, j | 0 <= i < j < |out| :: Precedes(out[i], w(out[i].note), out[j], w(out[j].note)))
    && (forall i, c | 0 <= i < |out| && c in candidates && c !in out :: Precedes(out[i], w(out[i].note), c, w(c.note)))
  }

  // The query pins its answer down.
  lemma {:induction false} LegIsUnique(out: seq<Chunk>, out': seq<Chunk>, candidates: set<Chunk>, w: Id -> real,
                                       limit: nat, k: nat)
    requires IsLeg(out, candidates, w, limit) && IsLeg(out', candidates, w, limit) && k <= |out|
    ensures forall i | 0 <= i < k :: out[i] == out'[i]
  {
    assert |out| == |out'|;
    hide IsLeg, Precedes;
    if k > 0 {
      LegIsUnique(out, out', candidates, w, limit, k - 1);
      NextIsUnique(out, out', candidates, w, limit, k - 1);
    }
  }

  lemma NextIsUnique(out: seq<Chunk>, out': seq<Chunk>, candidates: set<Chunk>, w: Id -> real, limit: nat, k: nat)
    requires IsLeg(out, candidates, w, limit) && IsLeg(out', candidates, w, limit) && k < |out|
    requires forall i | 0 <= i < k :: out[i] == out'[i]
    ensures out[k] == out'[k]
  {
    var a, b := out[k], out'[k];
    PrecedesIsAsymmetric(a, w(a.note), b, w(b.note));
    hide Precedes;
    if a != b {
      NotBefore(out', candidates, w, limit, a, k, out);
      NotBefore(out, candidates, w, limit, b, k, out');
    }
  }

  lemma PrecedesIsAsymmetric(a: Chunk, wa: real, b: Chunk, wb: real)
    ensures !(Precedes(a, wa, b, wb) && Precedes(b, wb, a, wa))
  {
    LessIsStrict(a.path);
    if Less(a.path, b.path) && Less(b.path, a.path) {
      LessIsTransitive(a.path, b.path, a.path);
    }
  }

  // Of two chunks at different places exactly one comes first, the heavier if
  // there is one, else the one earlier by path and then by ordinal.
  lemma PrecedesIsTotal(a: Chunk, wa: real, b: Chunk, wb: real)
    requires (a.path, a.ordinal) != (b.path, b.ordinal)
    ensures Precedes(a, wa, b, wb) <==> !Precedes(b, wb, a, wa)
    ensures wa > wb ==> Precedes(a, wa, b, wb)
    ensures wa == wb && Less(a.path, b.path) ==> Precedes(a, wa, b, wb)
    ensures wa == wb && a.path == b.path && a.ordinal < b.ordinal ==> Precedes(a, wa, b, wb)
  {
    LessIsTotal(a.path, b.path);
    PrecedesIsAsymmetric(a, wa, b, wb);
  }

  // A candidate that differs from the k-th entry and from all before it comes
  // after the k-th entry.
  lemma NotBefore(out: seq<Chunk>, candidates: set<Chunk>, w: Id -> real, limit: nat, c: Chunk, k: nat, other: seq<Chunk>)
    requires IsLeg(out, candidates, w, limit) && k < |out| && k < |other| && c == other[k] && c in candidates && c != out[k]
    requires forall i | 0 <= i < k :: out[i] == other[i]
    requires forall i | 0 <= i < k :: Precedes(other[i], w(other[i].note), c, w(c.note))
    ensures Precedes(out[k], w(out[k].note), c, w(c.note))
  {
    PrecedesIsAsymmetric(c, w(c.note), c, w(c.note));
    hide Precedes;
    if c in out {
      var m :| 0 <= m < |out| && out[m] == c;
    }
  }

  // Chunks of the visible notes some seed links to.
  function OneHopCandidates(links: set<Edge>, chunks: set<Chunk>, visible: set<Id>, seeds: seq<Id>): set<Chunk> {
    set x | x in chunks && x.note in visible && SeedsLinking(links, seeds, x.note) > 0
  }

  // Chunks of the visible notes some seed reaches.
  function MultiHopCandidates(reach: set<Row>, chunks: set<Chunk>, visible: set<Id>, seeds: seq<Id>,
                              maxDepth: nat): set<Chunk> {
    set x | x in chunks && x.note in visible && InBest(reach, seeds, x.note, maxDepth)
  }

  ghost predicate OneHopLeg(out: seq<Chunk>, links: set<Edge>, chunks: set<Chunk>, visible: set<Id>, seeds: seq<Id>,
                            limit: nat) {
    IsLeg(out, OneHopCandidates(links, chunks, visible, seeds), n => SeedsLinking(links, seeds, n) as real, limit)
  }

  ghost predicate MultiHopLeg(out: seq<Chunk>, links: set<Edge>, chunks: set<Chunk>, visible: set<Id>, seeds: seq<Id>,
                              maxDepth: nat, decay: real, reach: set<Row>, limit: nat) {
    && Computed(links, visible, Seeds(seeds), maxDepth, reach)
    && IsLeg(out, MultiHopCandidates(reach, chunks, visible, seeds, maxDepth),
        n => Score(reach, seeds, n, maxDepth, decay), limit)
  }

  predicate InBest(reach: set<Row>, seeds: seq<Id>, n: Id, maxDepth: nat) {
    exists i | 0 <= i < |seeds| :: Best(reach, seeds[i], n, maxDepth).Some?
  }

  lemma {:induction false} LinkedBySome(links: set<Edge>, seeds: seq<Id>, n: Id)
    ensures SeedsLinking(links, seeds, n) > 0 <==> exists i | 0 <= i < |seeds| :: Edge(seeds[i], n) in links
  {
    if seeds != [] {
      var init, s := seeds[..|seeds| - 1], seeds[|seeds| - 1];
      LinkedBySome(links, init, n);
      assert forall i | 0 <= i < |init| :: init[i] == seeds[i];
      if s in init && Edge(s, n) in links {
        var i :| 0 <= i < |init| && init[i] == s;
      }
    }
  }

  lemma DepthOneIsOneHop(one: seq<Chunk>, multi: seq<Chunk>, links: set<Edge>, chunks: set<Chunk>, visible: set<Id>,
                         seeds: seq<Id>,
                         decay: real, reach: set<Row>, limit: nat)
    requires OneHopLeg(one, links, chunks, visible, seeds, limit)
    requires MultiHopLeg(multi, links, chunks, visible, seeds, 1, decay, reach, limit)
    ensures one == multi
  {
    var all := Seeds(seeds);
    forall n ensures SeedsLinking(links, seeds, n) > 0 <==> InBest(reach, seeds, n, 1) {
      LinkedBySome(links, seeds, n);
      forall i | 0 <= i < |seeds| ensures Edge(seeds[i], n) in links <==> Best(reach, seeds[i], n, 1).Some? {
        OneHop(links, visible, seeds[i], n);
        assert Row(seeds[i], n, 1) in reach <==> IsReach(links, visible, all, 1, Row(seeds[i], n, 1));
      }
    }
    var c := OneHopCandidates(links, chunks, visible, seeds);
    assert c == MultiHopCandidates(reach, chunks, visible, seeds, 1);
    forall n ensures Score(reach, seeds, n, 1, decay) == SeedsLinking(links, seeds, n) as real {
      DepthOneCountsSeeds(links, visible, all, reach, seeds, n, decay);
    }
    var w := n => SeedsLinking(links, seeds, n) as real;
    assert IsLeg(multi, c, w, limit);
    LegIsUnique(one, multi, c, w, limit, |one|);
  }

  // The two store methods: no seeds, no rows; a depth below one means one.
  ghost predicate RankGraph(out: seq<Chunk>, links: set<Edge>, chunks: set<Chunk>, visible: set<Id>, seeds: seq<Id>,
                            limit: nat) {
    if seeds == [] then out == [] else OneHopLeg(out, links, chunks, visible, seeds, limit)
  }

  ghost predicate RankGraphMulti(out: seq<Chunk>, links: set<Edge>, chunks: set<Chunk>, visible: set<Id>, seeds: seq<Id>,
                                 maxDepth: int, decay: real, reach: set<Row>, limit: nat)
  {
    if seeds == [] then out == []
    else MultiHopLeg(out, links, chunks, visible, seeds, if maxDepth < 1 then 1 else maxDepth, decay, reach, limit)
  }

  // At depth 1 or less the multi-hop leg is the one-hop leg, entry for entry,
  // for every decay.
  lemma ShallowIsOneHop(one: seq<Chunk>, multi: seq<Chunk>, links: set<Edge>, chunks: set<Chunk>, visible: set<Id>,
                        seeds: seq<Id>,
                        maxDepth: int, decay: real, reach: set<Row>, limit: nat)
    requires RankGraph(one, links, chunks, visible, seeds, limit)
    requires RankGraphMulti(multi, links, chunks, visible, seeds, maxDepth, decay, reach, limit) && maxDepth <= 1
    ensures one == multi
  {
    if seeds != [] {
      DepthOneIsOneHop(one, multi, links, chunks, visible, seeds, decay, reach, limit);
    }
  }

  // Everything the multi-hop leg shows belongs to a visible note that some seed
  // reaches through visible notes within the depth, and a leg shorter than its
  // limit leaves no such chunk out.
  lemma LegShows(out: seq<Chunk>, links: set<Edge>, chunks: set<Chunk>, visible: set<Id>, seeds: seq<Id>, maxDepth: int,
                 decay: real, reach: set<Row>, limit: nat, x: Chunk)
    requires RankGraphMulti(out, links, chunks, visible, seeds, maxDepth, decay, reach, limit)
    ensures var shown := && x in chunks && x.note in visible
                         && exists s, d: nat :: (d <= maxDepth || d == 1) && Within(links, visible, seeds, s, x.note, d);
            && (x in out ==> shown)
            && (shown && |out| < limit ==> x in out)
  {
    if seeds != [] {
      var depth := if maxDepth < 1 then 1 else maxDepth;
      ReachedIsWithin(links, visible, seeds, depth, reach, x.note);
      if |out| < limit {
        AllAreOut(out, MultiHopCandidates(reach, chunks, visible, seeds, depth),
          n => Score(reach, seeds, n, depth, decay), limit);
      }
    }
  }

  ghost predicate Within(links: set<Edge>, conducts: set<Id>, seeds: seq<Id>, s: Id, n: Id, d: nat) {
    s in seeds && 0 < d && Reaches(links, conducts, s, n, d)
  }

  lemma ReachedIsWithin(links: set<Edge>, conducts: set<Id>, seeds: seq<Id>, maxDepth: nat, reach: set<Row>, n: Id)
    requires Computed(links, conducts, Seeds(seeds), maxDepth, reach)
    ensures InBest(reach, seeds, n, maxDepth) <==>
            exists s, d: nat :: d <= maxDepth && Within(links, conducts, seeds, s, n, d)
  {
    if i :| 0 <= i < |seeds| && Best(reach, seeds[i], n, maxDepth).Some? {
      var d := Best(reach, seeds[i], n, maxDepth).value;
      assert Row(seeds[i], n, d) in reach;
      assert Within(links, conducts, seeds, seeds[i], n, d);
    }
    if s, d: nat :| d <= maxDepth && Within(links, conducts, seeds, s, n, d) {
      var i :| 0 <= i < |seeds| && seeds[i] == s;
      assert IsReach(links, conducts, Seeds(seeds), maxDepth, Row(s, n, d));
      assert Row(s, n, d) in reach;
      assert Best(reach, seeds[i], n, maxDepth).Some?;
    }
  }

  lemma AllAreOut(out: seq<Chunk>, candidates: set<Chunk>, w: Id -> real, limit: nat)
    requires IsLeg(out, candidates, w, limit) && |out| < limit
    ensures forall c | c in candidates :: c in out
  {
    var shown := set c | c in out;
    forall i, j | 0 <= i < j < |out| ensures out[i] != out[j] {
      PrecedesIsAsymmetric(out[i], w(out[i].note), out[j], w(out[j].note));
    }
    DistinctChunks(out);
    assert shown <= candidates && |shown| == |candidates|;
    assert |candidates - shown| == 0;
  }

  lemma {:induction false} DistinctChunks(out: seq<Chunk>)
    requires forall i, j | 0 <= i < j < |out| :: out[i] != out[j]
    ensures |set c | c in out| == |out|
  {
    if out != [] {
      var n := |out| - 1;
      DistinctChunks(out[..n]);
      assert (set c | c in out) == (set c | c in out[..n]) + {out[n]};
    }
  }
}

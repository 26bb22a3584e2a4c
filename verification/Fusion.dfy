// Reciprocal-rank fusion of ranked legs into one order that does not depend on
// how the table of keys is iterated.
module Fusion {
  import opened Arithmetic
  import opened Sorting

  datatype Leg<T> = Leg(items: seq<T>, weight: real)
  datatype Scored<T> = Scored(item: T, score: real)
  datatype Slot<T> = Slot(item: T, score: real, seen: nat)

  // One leg's vote for one item.
  datatype Vote<T> = Vote(item: T, gain: real)

  function Gain(k: nat, weight: real, rank: nat): real
    requires rank > 0
  {
    weight / (k + rank) as real
  }

  function VotesOf<T>(k: nat, leg: Leg<T>): (votes: seq<Vote<T>>)
    ensures |votes| == |leg.items|
  {
    seq(|leg.items|, i requires 0 <= i < |leg.items| => Vote(leg.items[i], Gain(k, leg.weight, i + 1)))
  }

  // Every vote in the order the legs are read.
  function Votes<T>(k: nat, legs: seq<Leg<T>>): seq<Vote<T>> {
    if legs == [] then [] else Votes(k, legs[..|legs| - 1]) + VotesOf(k, legs[|legs| - 1])
  }

  // What a key is due: its votes' sum.
  function Total<T, K(==)>(votes: seq<Vote<T>>, key: T -> K, id: K): real {
    if votes == [] then 0.0
    else Total(votes[..|votes| - 1], key, id) + if key(votes[|votes| - 1].item) == id then votes[|votes| - 1].gain else 0.0
  }

  predicate Voted<T, K(==)>(votes: seq<Vote<T>>, key: T -> K, id: K) {
    exists i | 0 <= i < |votes| :: key(votes[i].item) == id
  }

  // A key's first appearance; the number of votes when it has none.
  function First<T, K(==)>(votes: seq<Vote<T>>, key: T -> K, id: K): (f: nat)
    ensures f <= |votes| && (f < |votes| ==> key(votes[f].item) == id)
    ensures forall i | 0 <= i < f :: key(votes[i].item) != id
  {
    if votes == [] || key(votes[0].item) == id then 0
    else
      var rest := First(votes[1..], key, id);
      assert forall i | 0 < i < 1 + rest :: votes[i] == votes[1..][i - 1];
      1 + rest
  }

  lemma FirstOfMore<T, K>(votes: seq<Vote<T>>, v: Vote<T>, key: T -> K, id: K)
    ensures Voted(votes, key, id) ==> First(votes + [v], key, id) == First(votes, key, id)
    ensures !Voted(votes, key, id) && key(v.item) == id ==> First(votes + [v], key, id) == |votes|
    ensures Voted(votes + [v], key, id) <==> Voted(votes, key, id) || key(v.item) == id
  {
    var more := votes + [v];
    var f, g := First(votes, key, id), First(more, key, id);
    assert more[|votes|] == v;
    assert forall i | 0 <= i < |votes| :: more[i] == votes[i];
  }

  lemma {:induction false} TotalAppend<T, K>(a: seq<Vote<T>>, b: seq<Vote<T>>, key: T -> K, id: K)
    ensures Total(a + b, key, id) == Total(a, key, id) + Total(b, key, id)
  {
    if b == [] {
      assert a + b == a;
    } else {
      assert (a + b)[..|a + b| - 1] == a + b[..|b| - 1];
      TotalAppend(a, b[..|b| - 1], key, id);
    }
  }

  // The table after a prefix of the votes.
  ghost predicate Tallied<T, K(!new)>(slots: map<K, Slot<T>>, order: nat, votes: seq<Vote<T>>, key: T -> K) {
    && (forall id :: id in slots <==> Voted(votes, key, id))
    && (forall id | id in slots :: IsTally(slots[id], order, votes, key, id))
    && (forall a, b | a in slots && b in slots ::
          slots[a].seen < slots[b].seen <==> First(votes, key, a) < First(votes, key, b))
  }

  ghost predicate IsTally<T, K>(s: Slot<T>, order: nat, votes: seq<Vote<T>>, key: T -> K, id: K) {
    && s.score == Total(votes, key, id) && s.seen < order
    && First(votes, key, id) < |votes| && s.item == votes[First(votes, key, id)].item
  }

  function Cast<T, K>(slots: map<K, Slot<T>>, order: nat, v: Vote<T>, id: K): (map<K, Slot<T>>, nat) {
    if id in slots then (slots[id := slots[id].(score := slots[id].score + v.gain)], order)
    else (slots[id := Slot(v.item, v.gain, order)], order + 1)
  }

  lemma CastTally<T, K(!new)>(slots: map<K, Slot<T>>, order: nat, votes: seq<Vote<T>>, key: T -> K, v: Vote<T>, id: K)
    requires Tallied(slots, order, votes, key)
    ensures var (slots', order') := Cast(slots, order, v, key(v.item));
            && (id in slots' <==> Voted(votes + [v], key, id))
            && (id in slots' ==> IsTally(slots'[id], order', votes + [v], key, id))
            && (id in slots' ==> if id in slots then slots'[id].seen == slots[id].seen else slots'[id].seen == order)
  {
    assert (votes + [v])[..|votes|] == votes;
    FirstOfMore(votes, v, key, id);
    assert id in slots <==> Voted(votes, key, id);
    if id in slots {
      assert IsTally(slots[id], order, votes, key, id);
    } else {
      NoVotesNoTotal(votes, key, id);
    }
  }

  lemma CastTallies<T, K(!new)>(slots: map<K, Slot<T>>, order: nat, votes: seq<Vote<T>>, key: T -> K, v: Vote<T>)
    requires Tallied(slots, order, votes, key)
    ensures var (slots', order') := Cast(slots, order, v, key(v.item)); Tallied(slots', order', votes + [v], key)
  {
    var (slots', order') := Cast(slots, order, v, key(v.item));
    var more := votes + [v];
    forall id ensures (id in slots' <==> Voted(more, key, id))
        && (id in slots' ==> IsTally(slots'[id], order', more, key, id)) {
      CastTally(slots, order, votes, key, v, id);
    }
    forall a, b | a in slots' && b in slots'
      ensures slots'[a].seen < slots'[b].seen <==> First(more, key, a) < First(more, key, b)
    {
      CastTally(slots, order, votes, key, v, a);
      CastTally(slots, order, votes, key, v, b);
      FirstOfMore(votes, v, key, a);
      FirstOfMore(votes, v, key, b);
      SeenBelow(slots, order, votes, key, a);
      SeenBelow(slots, order, votes, key, b);
    }
  }

  lemma SeenBelow<T, K(!new)>(slots: map<K, Slot<T>>, order: nat, votes: seq<Vote<T>>, key: T -> K, id: K)
    requires Tallied(slots, order, votes, key)
    ensures id in slots ==> slots[id].seen < order && First(votes, key, id) < |votes|
  {
    if id in slots {
      assert IsTally(slots[id], order, votes, key, id);
    }
  }

  lemma {:induction false} NoVotesNoTotal<T, K>(votes: seq<Vote<T>>, key: T -> K, id: K)
    requires !Voted(votes, key, id)
    ensures Total(votes, key, id) == 0.0
  {
    if votes != [] {
      NoVotesNoTotal(votes[..|votes| - 1], key, id);
    }
  }

  // Higher score first, ties by first appearance.
  function ByScore<T, K(==)>(slots: map<K, Slot<T>>, key: T -> K): (Scored<T>, Scored<T>) -> bool {
    (x: Scored<T>, y: Scored<T>) =>
      x.score > y.score || (x.score == y.score && Seen(slots, key, x) < Seen(slots, key, y))
  }

  function Seen<T, K(==)>(slots: map<K, Slot<T>>, key: T -> K, x: Scored<T>): nat {
    if key(x.item) in slots then slots[key(x.item)].seen else 0
  }

  // ---- what fusion yields ----

  ghost predicate Holds<T, K>(r: seq<Scored<T>>, votes: seq<Vote<T>>, key: T -> K, i: nat)
    requires i < |r|
  {
    var id := key(r[i].item);
    && Voted(votes, key, id) && First(votes, key, id) < |votes|
    && r[i] == Scored(votes[First(votes, key, id)].item, Total(votes, key, id))
  }

  // Every key once, under its first-seen item, with exactly its votes' sum, by
  // descending score and then by first appearance.
  ghost predicate Fused<T, K(!new)>(r: seq<Scored<T>>, votes: seq<Vote<T>>, key: T -> K) {
    && (forall i | 0 <= i < |r| :: Holds(r, votes, key, i))
    && (forall id :: Voted(votes, key, id) ==> Listed(r, key, id))
    && (forall i, j | 0 <= i < j < |r| :: Ahead(votes, key, key(r[i].item), key(r[j].item)))
  }

  predicate Listed<T, K(==)>(r: seq<Scored<T>>, key: T -> K, id: K) {
    exists i | 0 <= i < |r| :: key(r[i].item) == id
  }

  predicate Ahead<T, K(==)>(votes: seq<Vote<T>>, key: T -> K, a: K, b: K) {
    || Total(votes, key, a) > Total(votes, key, b)
    || (Total(votes, key, a) == Total(votes, key, b) && First(votes, key, a) < First(votes, key, b))
  }

  // Where a key stands in the result.
  lemma PlaceOf<T, K(!new)>(r: seq<Scored<T>>, votes: seq<Vote<T>>, key: T -> K, id: K) returns (i: nat)
    requires Fused(r, votes, key) && Voted(votes, key, id)
    ensures i < |r| && key(r[i].item) == id
  {
    i :| 0 <= i < |r| && key(r[i].item) == id;
  }

  // The result is a function of the votes: the iteration order of the table
  // cannot be seen in it.
  lemma {:induction false} FusionAgrees<T, K(!new)>(r: seq<Scored<T>>, q: seq<Scored<T>>, votes: seq<Vote<T>>,
                                                    key: T -> K, k: nat)
    requires Fused(r, votes, key) && Fused(q, votes, key) && k <= |r|
    ensures k <= |q| && forall m | 0 <= m < k :: r[m] == q[m]
  {
    if k > 0 {
      FusionAgrees(r, q, votes, key, k - 1);
      assert Holds(r, votes, key, k - 1);
      var x := PlaceOf(q, votes, key, key(r[k - 1].item));
      assert x >= k - 1;
      assert Holds(q, votes, key, k - 1);
      var y := PlaceOf(r, votes, key, key(q[k - 1].item));
      assert y >= k - 1;
    }
  }

  lemma FusionIsUnique<T, K(!new)>(r: seq<Scored<T>>, q: seq<Scored<T>>, votes: seq<Vote<T>>, key: T -> K)
    requires Fused(r, votes, key) && Fused(q, votes, key)
    ensures r == q
  {
    FusionAgrees(r, q, votes, key, |r|);
    FusionAgrees(q, r, votes, key, |q|);
  }

  // ---- dominance ----

  predicate NoRepeats<T, K(==)>(leg: Leg<T>, key: T -> K) {
    forall i, j | 0 <= i < j < |leg.items| :: key(leg.items[i]) != key(leg.items[j])
  }

  predicate Above<T, K(==)>(leg: Leg<T>, key: T -> K, a: K, b: K) {
    forall j | 0 <= j < |leg.items| && key(leg.items[j]) == b ::
      exists i | 0 <= i < j :: key(leg.items[i]) == a
  }

  lemma {:induction false} TotalAtOnce<T, K>(votes: seq<Vote<T>>, key: T -> K, id: K, i: nat)
    requires i < |votes| && key(votes[i].item) == id
    requires forall j | 0 <= j < |votes| && j != i :: key(votes[j].item) != id
    ensures Total(votes, key, id) == votes[i].gain
  {
    if i == |votes| - 1 {
      NoVotesNoTotal(votes[..i], key, id);
    } else {
      TotalAtOnce(votes[..|votes| - 1], key, id, i);
    }
  }

  lemma GainFalls(k: nat, weight: real, rank: nat, rank': nat)
    requires weight >= 0.0 && 0 < rank < rank'
    ensures 0.0 <= Gain(k, weight, rank') <= Gain(k, weight, rank)
  {
    DivAntitone(weight, (k + rank) as real, (k + rank') as real);
  }

  lemma GainIsNonNegative(k: nat, weight: real, rank: nat)
    requires weight >= 0.0 && rank > 0
    ensures Gain(k, weight, rank) >= 0.0
  {
    GainFalls(k, weight, rank, rank + 1);
  }

  lemma LegFavours<T, K>(k: nat, leg: Leg<T>, key: T -> K, a: K, b: K)
    requires leg.weight >= 0.0 && NoRepeats(leg, key) && Above(leg, key, a, b)
    ensures Total(VotesOf(k, leg), key, a) >= Total(VotesOf(k, leg), key, b)
  {
    var votes := VotesOf(k, leg);
    if Voted(votes, key, b) {
      var j :| 0 <= j < |votes| && key(votes[j].item) == b;
      var i :| 0 <= i < j && key(leg.items[i]) == a;
      TotalAtOnce(votes, key, b, j);
      TotalAtOnce(votes, key, a, i);
      GainFalls(k, leg.weight, i + 1, j + 1);
    } else {
      NoVotesNoTotal(votes, key, b);
      if Voted(votes, key, a) {
        var i :| 0 <= i < |votes| && key(votes[i].item) == a;
        TotalAtOnce(votes, key, a, i);
        GainIsNonNegative(k, leg.weight, i + 1);
      } else {
        NoVotesNoTotal(votes, key, a);
      }
    }
  }

  lemma {:induction false} LegsFavour<T, K>(k: nat, legs: seq<Leg<T>>, key: T -> K, a: K, b: K)
    requires forall l | 0 <= l < |legs| :: legs[l].weight >= 0.0 && NoRepeats(legs[l], key) && Above(legs[l], key, a, b)
    ensures Total(Votes(k, legs), key, a) >= Total(Votes(k, legs), key, b)
    ensures Voted(Votes(k, legs), key, b) ==> First(Votes(k, legs), key, a) < First(Votes(k, legs), key, b)
  {
    if legs != [] {
      var init, leg := legs[..|legs| - 1], legs[|legs| - 1];
      LegsFavour(k, init, key, a, b);
      LegFavours(k, leg, key, a, b);
      TotalAppend(Votes(k, init), VotesOf(k, leg), key, a);
      TotalAppend(Votes(k, init), VotesOf(k, leg), key, b);
      FirstFavours(Votes(k, init), k, leg, key, a, b);
    }
  }

  lemma FirstFavours<T, K>(votes: seq<Vote<T>>, k: nat, leg: Leg<T>, key: T -> K, a: K, b: K)
    requires Above(leg, key, a, b)
    requires Voted(votes, key, b) ==> First(votes, key, a) < First(votes, key, b)
    ensures var more := votes + VotesOf(k, leg); Voted(more, key, b) ==> First(more, key, a) < First(more, key, b)
  {
    var more := votes + VotesOf(k, leg);
    assert forall i | 0 <= i < |votes| :: more[i] == votes[i];
    if Voted(more, key, b) {
      var f := First(more, key, b);
      assert f < |more|;
      if f < |votes| {
        assert key(votes[f].item) == b;
        var g := First(votes, key, a);
        assert key(more[g].item) == a;
      } else {
        var j := f - |votes|;
        assert more[f] == VotesOf(k, leg)[j] && key(leg.items[j]) == b;
        var i :| 0 <= i < j && key(leg.items[i]) == a;
        assert more[|votes| + i] == VotesOf(k, leg)[i];
      }
    }
  }

  // If a stands above b in every leg that ranks b, a stands above b in the
  // result, even when their scores tie.
  lemma DominanceIsKept<T, K(!new)>(k: nat, legs: seq<Leg<T>>, key: T -> K, r: seq<Scored<T>>, i: nat, j: nat)
    requires Fused(r, Votes(k, legs), key) && i < |r| && j < |r| && i != j
    requires forall l | 0 <= l < |legs| ::
               legs[l].weight >= 0.0 && NoRepeats(legs[l], key) && Above(legs[l], key, key(r[i].item), key(r[j].item))
    ensures i < j
  {
    var votes, a, b := Votes(k, legs), key(r[i].item), key(r[j].item);
    LegsFavour(k, legs, key, a, b);
    assert Holds(r, votes, key, i) && Holds(r, votes, key, j);
    assert !Ahead(votes, key, b, a);
  }

  // ---- what a rank is worth ----

  lemma GainTimes(k: nat, weight: real, rank: nat)
    requires rank > 0
    ensures Gain(k, weight, rank) * (k + rank) as real == weight
  {
  }

  predicate RankedAt<T, K(==)>(leg: Leg<T>, key: T -> K, id: K, i: nat) {
    i < |leg.items| && key(leg.items[i]) == id
  }

  // g is weight / (k + rank), ranks counted from zero here.
  predicate Yields(g: real, k: nat, i: nat, weight: real) { g * (k + i + 1) as real == weight }

  lemma LegGives<T, K>(k: nat, leg: Leg<T>, key: T -> K, id: K, i: nat)
    requires NoRepeats(leg, key) && RankedAt(leg, key, id, i)
    ensures Yields(Total(VotesOf(k, leg), key, id), k, i, leg.weight)
  {
    TotalAtOnce(VotesOf(k, leg), key, id, i);
    GainTimes(k, leg.weight, i + 1);
    hide Total, Gain;
  }

  lemma LegGivesNothing<T, K>(k: nat, leg: Leg<T>, key: T -> K, id: K)
    requires forall i :: !RankedAt(leg, key, id, i)
    ensures Total(VotesOf(k, leg), key, id) == 0.0
  {
    var votes := VotesOf(k, leg);
    assert forall i | 0 <= i < |votes| :: votes[i].item == leg.items[i] && !RankedAt(leg, key, id, i);
    NoVotesNoTotal(votes, key, id);
  }

  // One more leg adds weight / (k + rank) to the key it ranks so, and nothing
  // to any other.
  lemma LegAdds<T, K>(k: nat, legs: seq<Leg<T>>, leg: Leg<T>, key: T -> K, id: K) returns (gained: real)
    requires NoRepeats(leg, key)
    ensures Total(Votes(k, legs + [leg]), key, id) == Total(Votes(k, legs), key, id) + gained
    ensures forall i | RankedAt(leg, key, id, i) :: Yields(gained, k, i, leg.weight)
    ensures (forall i :: !RankedAt(leg, key, id, i)) ==> gained == 0.0
  {
    gained := Total(VotesOf(k, leg), key, id);
    assert (legs + [leg])[..|legs|] == legs;
    TotalAppend(Votes(k, legs), VotesOf(k, leg), key, id);
    hide *;
    forall i | RankedAt(leg, key, id, i) ensures Yields(gained, k, i, leg.weight) {
      LegGives(k, leg, key, id, i);
    }
    if forall i :: !RankedAt(leg, key, id, i) {
      LegGivesNothing(k, leg, key, id);
    }
  }

  // w/a + w/b against w/c, without the divisions.
  lemma Shares(a: real, b: real, c: real, w: real, x: real, y: real, z: real)
    requires a > 0.0 && b > 0.0 && c > 0.0 && w > 0.0 && x * a == w && y * b == w && z * c == w
    ensures x + y > z <==> c * (a + b) > a * b
  {
    var m := a * b;
    MulPositive(a, b);
    MulPositive(m, c);
    Sum(a, b, x, y, w);
    assert (m * c) * (x + y) == c * (m * (x + y));
    assert c * (w * (a + b)) == w * (c * (a + b));
    assert (m * c) * z == m * (z * c);
    assert m * w == w * m;
    MulOrder(m * c, x + y, z);
    MulOrder(w, c * (a + b), m);
  }

  lemma Sum(a: real, b: real, x: real, y: real, w: real)
    requires x * a == w && y * b == w
    ensures a * b * (x + y) == w * (a + b)
  {
    assert a * b * x == b * (x * a);
    assert a * b * y == a * (y * b);
    assert a * b * (x + y) == a * b * x + a * b * y;
    assert w * (a + b) == w * a + w * b;
  }

  // Consensus against a single first place: of two equally weighted legs, an
  // item both rank at x and y stands above the one that tops the first leg alone
  // exactly when 1/(k+x+1) + 1/(k+y+1) > 1/(k+1), a tie going to the top one.
  lemma ConsensusBeatsTopIff<T, K(!new)>(k: nat, one: Leg<T>, two: Leg<T>, key: T -> K, r: seq<Scored<T>>, i: nat, j: nat,
                                         x: nat, y: nat)
    requires Fused(r, Votes(k, [one, two]), key) && i < |r| && j < |r| && i != j
    requires one.weight == two.weight > 0.0 && NoRepeats(one, key) && NoRepeats(two, key)
    requires RankedAt(one, key, key(r[i].item), x) && RankedAt(two, key, key(r[i].item), y)
    requires RankedAt(one, key, key(r[j].item), 0) && forall m :: !RankedAt(two, key, key(r[j].item), m)
    ensures i < j <==> (k + 1) * (2 * k + x + y + 2) > (k + x + 1) * (k + y + 1)
  {
    var votes, a, b := Votes(k, [one, two]), key(r[i].item), key(r[j].item);
    PlacesAreAhead(r, votes, key, i, j);
    TopIsFirst(k, one, two, key, b);
    AheadOfTheFirst(votes, key, a, b);
    TwoLegs(k, one, two, key, a);
    TwoLegs(k, one, two, key, b);
    hide *;
    LegGives(k, one, key, a, x);
    LegGives(k, two, key, a, y);
    LegGives(k, one, key, b, 0);
    LegGivesNothing(k, two, key, b);
    WholeShares(k, x, y, one.weight, Total(VotesOf(k, one), key, a), Total(VotesOf(k, two), key, a),
      Total(VotesOf(k, one), key, b));
  }

  lemma WholeShares(k: nat, x: nat, y: nat, w: real, gx: real, gy: real, g: real)
    requires w > 0.0 && Yields(gx, k, x, w) && Yields(gy, k, y, w) && Yields(g, k, 0, w)
    ensures gx + gy > g <==> (k + 1) * (2 * k + x + y + 2) > (k + x + 1) * (k + y + 1)
  {
    var a, b, c := (k + x + 1) as real, (k + y + 1) as real, (k + 1) as real;
    Shares(a, b, c, w, gx, gy, g);
    WholeNumbers(k, x, y);
  }

  lemma AheadOfTheFirst<T, K>(votes: seq<Vote<T>>, key: T -> K, a: K, b: K)
    requires First(votes, key, b) == 0
    ensures Ahead(votes, key, a, b) <==> Total(votes, key, a) > Total(votes, key, b)
  {
  }

  lemma WholeNumbers(k: nat, x: nat, y: nat)
    ensures var a, b, c := (k + x + 1) as real, (k + y + 1) as real, (k + 1) as real;
            c * (a + b) > a * b <==> (k + 1) * (2 * k + x + y + 2) > (k + x + 1) * (k + y + 1)
  {
    AsReal(k + 1, 2 * k + x + y + 2);
    AsReal(k + x + 1, k + y + 1);
  }

  lemma AsReal(a: nat, b: nat)
    ensures (a * b) as real == a as real * b as real
  {
  }

  lemma TwoLegs<T, K>(k: nat, one: Leg<T>, two: Leg<T>, key: T -> K, id: K)
    ensures Total(Votes(k, [one, two]), key, id) == Total(VotesOf(k, one), key, id) + Total(VotesOf(k, two), key, id)
  {
    assert [one, two][..1] == [one] && [one][..0] == [];
    assert Votes(k, [one]) == [] + VotesOf(k, one) == VotesOf(k, one);
    TotalAppend(VotesOf(k, one), VotesOf(k, two), key, id);
  }

  lemma TopIsFirst<T, K>(k: nat, one: Leg<T>, two: Leg<T>, key: T -> K, id: K)
    requires RankedAt(one, key, id, 0)
    ensures First(Votes(k, [one, two]), key, id) == 0
  {
    assert [one, two][..1] == [one] && [one][..0] == [];
    assert Votes(k, [one]) == [] + VotesOf(k, one) == VotesOf(k, one);
    assert Votes(k, [one, two]) == VotesOf(k, one) + VotesOf(k, two);
    assert Votes(k, [one, two])[0] == VotesOf(k, one)[0];
  }

  lemma PlacesAreAhead<T, K(!new)>(r: seq<Scored<T>>, votes: seq<Vote<T>>, key: T -> K, i: nat, j: nat)
    requires Fused(r, votes, key) && i < |r| && j < |r| && i != j
    ensures i < j <==> Ahead(votes, key, key(r[i].item), key(r[j].item))
  {
    if j < i {
      assert Ahead(votes, key, key(r[j].item), key(r[i].item));
    }
  }

  // ---- FuseRRF ----

  method CastVote<T, K(==)>(slots: map<K, Slot<T>>, order: nat, item: T, gain: real, id: K)
    returns (slots': map<K, Slot<T>>, order': nat)
    ensures (slots', order') == Cast(slots, order, Vote(item, gain), id)
  {
    slots', order' := slots, order;
    if id !in slots' {
      slots' := slots'[id := Slot(item, 0.0, order)];
      order' := order' + 1;
    }
    slots' := slots'[id := slots'[id].(score := slots'[id].score + gain)];
    assert id !in slots ==> slots' == slots[id := Slot(item, gain, order)];
  }

  method TallyLeg<T, K(==, !new)>(k: nat, key: T -> K, leg: Leg<T>, slots: map<K, Slot<T>>, order: nat,
                                  ghost before: seq<Vote<T>>)
    returns (slots': map<K, Slot<T>>, order': nat)
    requires Tallied(slots, order, before, key)
    ensures Tallied(slots', order', before + VotesOf(k, leg), key)
  {
    slots', order' := slots, order;
    ghost var votes := VotesOf(k, leg);
    assert before + votes[..0] == before;
    for i := 0 to |leg.items|
      invariant Tallied(slots', order', before + votes[..i], key)
    {
      CastTallies(slots', order', before + votes[..i], key, votes[i]);
      assert before + votes[..i + 1] == before + votes[..i] + [votes[i]];
      slots', order' := CastVote(slots', order', leg.items[i], Gain(k, leg.weight, i + 1), key(leg.items[i]));
    }
    assert votes[..|leg.items|] == votes;
  }

  method Tally<T, K(==, !new)>(k: nat, key: T -> K, legs: seq<Leg<T>>) returns (slots: map<K, Slot<T>>, order: nat)
    ensures Tallied(slots, order, Votes(k, legs), key)
  {
    slots, order := map[], 0;
    for l := 0 to |legs|
      invariant Tallied(slots, order, Votes(k, legs[..l]), key)
    {
      slots, order := TallyLeg(k, key, legs[l], slots, order, Votes(k, legs[..l]));
      assert legs[..l + 1][..l] == legs[..l];
    }
    assert legs[..|legs|] == legs;
  }

  // Empties the table in whatever order its iteration takes.
  method Collect<T, K(==, !new)>(slots: map<K, Slot<T>>, key: T -> K) returns (out: seq<Scored<T>>)
    requires forall id | id in slots :: key(slots[id].item) == id
    ensures forall i | 0 <= i < |out| :: key(out[i].item) in slots && out[i] == FromSlot(slots[key(out[i].item)])
    ensures forall i, j | 0 <= i < j < |out| :: key(out[i].item) != key(out[j].item)
    ensures forall id | id in slots :: Listed(out, key, id)
  {
    out := [];
    var todo := slots.Keys;
    while todo != {}
      invariant todo <= slots.Keys
      invariant forall i | 0 <= i < |out| ::
        key(out[i].item) in slots.Keys - todo && out[i] == FromSlot(slots[key(out[i].item)])
      invariant forall i, j | 0 <= i < j < |out| :: key(out[i].item) != key(out[j].item)
      invariant forall id | id in slots.Keys - todo :: Listed(out, key, id)
    {
      var id :| id in todo;
      ghost var before := out;
      out := out + [FromSlot(slots[id])];
      todo := todo - {id};
      forall x | x in slots.Keys - todo ensures Listed(out, key, x) {
        ListedMore(before, FromSlot(slots[id]), key, x);
      }
    }
  }

  lemma ListedMore<T, K>(out: seq<Scored<T>>, s: Scored<T>, key: T -> K, id: K)
    ensures Listed(out + [s], key, id) <==> Listed(out, key, id) || key(s.item) == id
  {
    var more := out + [s];
    assert more[|out|] == s;
    assert forall i | 0 <= i < |out| :: more[i] == out[i];
  }

  function FromSlot<T>(s: Slot<T>): Scored<T> { Scored(s.item, s.score) }

  lemma ByScoreOrders<T(!new), K>(slots: map<K, Slot<T>>, key: T -> K)
    ensures WeakOrder(ByScore(slots, key))
  {
  }

  method FuseRRF<T(!new), K(==, !new)>(k: nat, key: T -> K, legs: seq<Leg<T>>) returns (r: seq<Scored<T>>)
    ensures Fused(r, Votes(k, legs), key)
  {
    var slots, order := Tally(k, key, legs);
    ghost var votes := Votes(k, legs);
    TalliedItems(slots, order, votes, key);
    var out := Collect(slots, key);
    if out == [] {
      return [];
    }
    var a := new Scored<T>[|out|](i requires 0 <= i < |out| => out[i]);
    assert a[..] == out;
    ByScoreOrders(slots, key);
    ghost var p := SortStable(a, ByScore(slots, key));
    r := a[..];
    RankedIsFused(slots, order, votes, key, out, r, p);
  }

  lemma TalliedItems<T, K(!new)>(slots: map<K, Slot<T>>, order: nat, votes: seq<Vote<T>>, key: T -> K)
    requires Tallied(slots, order, votes, key)
    ensures forall id | id in slots :: key(slots[id].item) == id
  {
    forall id | id in slots ensures key(slots[id].item) == id {
      assert IsTally(slots[id], order, votes, key, id);
    }
  }

  lemma RankedIsFused<T(!new), K(!new)>(slots: map<K, Slot<T>>, order: nat, votes: seq<Vote<T>>, key: T -> K,
                                        out: seq<Scored<T>>, r: seq<Scored<T>>, p: seq<nat>)
    requires Tallied(slots, order, votes, key) && Ranks(out, ByScore(slots, key), r, p)
    requires forall i | 0 <= i < |out| :: key(out[i].item) in slots && out[i] == FromSlot(slots[key(out[i].item)])
    requires forall i, j | 0 <= i < j < |out| :: key(out[i].item) != key(out[j].item)
    requires forall id | id in slots :: Listed(out, key, id)
    ensures Fused(r, votes, key)
  {
    var less := ByScore(slots, key);
    ByScoreOrders(slots, key);
    forall i | 0 <= i < |r| ensures Holds(r, votes, key, i) && key(r[i].item) in slots {
      var id := key(out[p[i]].item);
      assert IsTally(slots[id], order, votes, key, id);
    }
    forall id | Voted(votes, key, id) ensures Listed(r, key, id) {
      var j :| 0 <= j < |out| && key(out[j].item) == id;
      var i := RankOf(out, less, p, j);
      assert r[i] == out[j];
    }
    RanksAreInjective(out, less, p);
    forall i, j | 0 <= i < j < |r| ensures Ahead(votes, key, key(r[i].item), key(r[j].item)) {
      assert Before(out, less, p[i], p[j]);
      assert Holds(r, votes, key, i) && Holds(r, votes, key, j);
      FirstsDiffer(votes, key, key(r[i].item), key(r[j].item));
    }
  }

  lemma FirstsDiffer<T, K>(votes: seq<Vote<T>>, key: T -> K, a: K, b: K)
    requires Voted(votes, key, a) && Voted(votes, key, b) && a != b
    ensures First(votes, key, a) != First(votes, key, b)
  {
  }
}

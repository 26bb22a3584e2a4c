// Kendall's tau by its definition: pairs of items that both lists rank, told
// from the lists themselves.
module Kendall {
  import opened Metrics

  ghost predicate Before(s: seq<Id>, x: Id, y: Id) { exists p, q | 0 <= p < q < |s| :: s[p] == x && s[q] == y }

  // Ranked alike by both lists (up), or one way by one and the other way by the
  // other.
  ghost function Pairs(approx: seq<Id>, exact: seq<Id>, up: bool): set<(Id, Id)> {
    set x, y | x in approx && y in approx && Before(approx, x, y) && Ranks(exact, x, y, up) :: (x, y)
  }

  ghost predicate Ranks(exact: seq<Id>, x: Id, y: Id, up: bool) { if up then Before(exact, x, y) else Before(exact, y, x) }

  predicate Rises(a: int, b: int, up: bool) { if up then a < b else a > b }

  function Ordered(s: seq<int>, up: bool): nat { if up then Concordant(s) else Discordant(s) }

  // How many entries stand so to r.
  function Beside(s: seq<int>, r: int, up: bool): nat {
    if s == [] then 0 else (if Rises(s[0], r, up) then 1 else 0) + Beside(s[1..], r, up)
  }

  lemma {:induction false} BesideSnoc(s: seq<int>, z: int, r: int, up: bool)
    ensures Beside(s + [z], r, up) == Beside(s, r, up) + if Rises(z, r, up) then 1 else 0
  {
    if s == [] {
      assert s + [z] == [z] && [z][1..] == [];
    } else {
      assert (s + [z])[0] == s[0] && (s + [z])[1..] == s[1..] + [z];
      BesideSnoc(s[1..], z, r, up);
    }
  }

  lemma {:induction false} OneMoreAbove(x: int, s: seq<int>, r: int)
    ensures Above(x, s + [r]) == Above(x, s) + if x < r then 1 else 0
    ensures Beneath(x, s + [r]) == Beneath(x, s) + if x > r then 1 else 0
  {
    if s == [] {
      assert s + [r] == [r] && [r][1..] == [];
    } else {
      assert (s + [r])[0] == s[0] && (s + [r])[1..] == s[1..] + [r];
      OneMoreAbove(x, s[1..], r);
    }
  }

  // One entry more adds the pairs it ends.
  lemma {:induction false} OrderedSnoc(s: seq<int>, r: int, up: bool)
    ensures Ordered(s + [r], up) == Ordered(s, up) + Beside(s, r, up)
  {
    if s == [] {
      assert s + [r] == [r] && [r][1..] == [];
    } else {
      assert (s + [r])[0] == s[0] && (s + [r])[1..] == s[1..] + [r];
      OrderedSnoc(s[1..], r, up);
      OneMoreAbove(s[0], s[1..], r);
    }
  }

  // Where no item repeats, positions tell who comes before whom.
  lemma BeforeIsRank(exact: seq<Id>, x: Id, y: Id)
    requires Distinct(exact)
    ensures Before(exact, x, y) <==> x in exact && y in exact && RankIn(exact, x) < RankIn(exact, y)
  {
    if p, q :| 0 <= p < q < |exact| && exact[p] == x && exact[q] == y {
      assert exact[RankIn(exact, x)] == x && exact[RankIn(exact, y)] == y;
    }
    if x in exact && y in exact && RankIn(exact, x) < RankIn(exact, y) {
      assert exact[RankIn(exact, x)] == x && exact[RankIn(exact, y)] == y;
    }
  }

  lemma CommonSnoc(init: seq<Id>, z: Id, exact: seq<Id>)
    ensures Common(init + [z], exact) == Common(init, exact) + if z in exact then [RankIn(exact, z)] else []
  {
    assert (init + [z])[..|init|] == init;
  }

  // The pairs one more item ends.
  ghost function Ended(init: seq<Id>, exact: seq<Id>, last: Id, up: bool): set<(Id, Id)> {
    set x | x in init && Ranks(exact, x, last, up) :: (x, last)
  }

  lemma RanksIs(exact: seq<Id>, x: Id, last: Id, up: bool)
    requires Distinct(exact) && last in exact
    ensures Ranks(exact, x, last, up) <==> x in exact && Rises(RankIn(exact, x), RankIn(exact, last), up)
  {
    BeforeIsRank(exact, x, last);
    BeforeIsRank(exact, last, x);
  }

  lemma EndedSnoc(before: seq<Id>, z: Id, exact: seq<Id>, last: Id, up: bool)
    requires z !in before
    ensures |Ended(before + [z], exact, last, up)| ==
            |Ended(before, exact, last, up)| + if Ranks(exact, z, last, up) then 1 else 0
  {
    hide Ranks;
    var more := if Ranks(exact, z, last, up) then {(z, last)} else {};
    assert Ended(before + [z], exact, last, up) == Ended(before, exact, last, up) + more;
  }

  lemma {:induction false} EndedCount(init: seq<Id>, exact: seq<Id>, last: Id, up: bool)
    requires Distinct(init) && Distinct(exact) && last in exact
    ensures |Ended(init, exact, last, up)| == Beside(Common(init, exact), RankIn(exact, last), up)
  {
    if init == [] {
      assert Ended(init, exact, last, up) == {};
    } else {
      var before, z := init[..|init| - 1], init[|init| - 1];
      assert init == before + [z] && z !in before;
      EndedCount(before, exact, last, up);
      EndedSnoc(before, z, exact, last, up);
      CommonSnoc(before, z, exact);
      RanksIs(exact, z, last, up);
      BesideSnoc(Common(before, exact), RankIn(exact, z), RankIn(exact, last), up);
      hide Ended, Common, Ranks, Rises, Beside, RankIn;
      assert Common(before, exact) + [] == Common(before, exact);
    }
  }

  lemma PairsSnoc(init: seq<Id>, last: Id, exact: seq<Id>, up: bool)
    requires last !in init
    ensures Pairs(init + [last], exact, up) ==
            Pairs(init, exact, up) + Ended(init, exact, last, up)
  {
    var all := init + [last];
    forall x, y ensures Before(all, x, y) <==> Before(init, x, y) || (x in init && y == last) {
      if p, q :| 0 <= p < q < |all| && all[p] == x && all[q] == y {
        assert p < |init| && init[p] == x && (q < |init| ==> init[q] == y);
      }
      if p, q :| 0 <= p < q < |init| && init[p] == x && init[q] == y {
        assert all[p] == x && all[q] == y;
      }
      if p :| 0 <= p < |init| && init[p] == x && y == last {
        assert all[p] == x && all[|init|] == y;
      }
    }
    assert forall x :: x in all <==> x in init || x == last;
  }

  // The counts of the two loops are the numbers of such pairs.
  lemma {:induction false} CountsArePairs(approx: seq<Id>, exact: seq<Id>, up: bool)
    requires Distinct(approx) && Distinct(exact)
    ensures Ordered(Common(approx, exact), up) == |Pairs(approx, exact, up)|
  {
    if approx == [] {
      assert Pairs(approx, exact, up) == {};
    } else {
      var init, last := approx[..|approx| - 1], approx[|approx| - 1];
      assert approx == init + [last] && last !in init;
      CountsArePairs(init, exact, up);
      PairsSnoc(init, last, exact, up);
      assert Pairs(init, exact, up) !! Ended(init, exact, last, up);
      CommonSnoc(init, last, exact);
      NoneEnded(init, exact, last, up);
      hide Pairs, Common, Ended, Ordered, Beside, RankIn;
      if last in exact {
        EndedCount(init, exact, last, up);
        OrderedSnoc(Common(init, exact), RankIn(exact, last), up);
      } else {
        assert Common(init, exact) + [] == Common(init, exact);
      }
    }
  }

  lemma NoneEnded(init: seq<Id>, exact: seq<Id>, last: Id, up: bool)
    ensures last !in exact ==> Ended(init, exact, last, up) == {}
  {
  }

  // Tau is the pairs ranked alike less those ranked otherwise, over all of them;
  // zero when there is none.
  lemma TauIs(approx: seq<Id>, exact: seq<Id>)
    requires Distinct(approx) && Distinct(exact)
    ensures var alike, otherwise := |Pairs(approx, exact, true)|, |Pairs(approx, exact, false)|;
            Tau(Common(approx, exact)) ==
            if alike + otherwise == 0 then 0.0 else (alike - otherwise) as real / (alike + otherwise) as real
  {
    var s := Common(approx, exact);
    CountsArePairs(approx, exact, true);
    CountsArePairs(approx, exact, false);
    if |s| == 1 {
      assert s[1..] == [];
      assert Concordant(s) == 0 && Discordant(s) == 0;
    }
  }
}

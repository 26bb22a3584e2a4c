// Compile is schedule independent: what a note nobody names ends up as depends
// on the time of the last pass, not on which passes ran before it.
module LifecycleSchedule {
  import opened Arithmetic
  import opened Text
  import opened Curve
  import opened Lifecycle
  import Laws = LifecycleLaws

  datatype Visit = Visit(when: Time, cited: bool)

  const NOTHING := Ask(None, None, None, false, false)

  // One pass that asks nothing of the note and whose write lands.
  function Pass(n: Note, p: Visit): Note {
    var t := Compile(n, NOTHING, p.cited, false, p.when, false, Landed, Landed);
    if t.Turn? then t.landed else n
  }

  function Passes(n: Note, schedule: seq<Visit>): Note {
    if schedule == [] then n
    else Pass(Passes(n, schedule[..|schedule| - 1]), schedule[|schedule| - 1])
  }

  // A live note whose stored stability survives being written again.
  predicate Tracked(n: Note) {
    && n.stage == Notes && n.status != Falsified
    && HasStability(n) && Round2(n.stability.value) == n.stability.value
  }

  // The same note but for the digits of confidence beyond the tenth.
  predicate Same(a: Note, b: Note) {
    a.(conf := b.conf) == b && Round1(a.conf) == Round1(b.conf)
  }

  function Belief(n: Note, now: Time): int
    requires HasStability(n)
  {
    if Frozen(n) then Round1(n.conf) else Tenths(Days(Anchor(n), now), n.stability.value)
  }

  // When a pass moves the note: belief gone or the last hand edit ancient, with
  // no citation inside its budget.
  predicate Retires(n: Note, p: Visit)
    requires HasStability(n)
  {
    && !Frozen(n)
    && !(p.cited && PASSIVE_REFRESH_BUDGET - (p.when - Anchor(n)) > 0)
    && (Curve.Faded(Days(Anchor(n), p.when), n.stability.value) || p.when - n.updated > ANCIENT_AFTER)
  }

  lemma VerdictIs(n: Note, p: Visit)
    requires Tracked(n)
    ensures var v := Judge(n, false, p.cited, p.when);
            && v.tenths == Belief(n, p.when)
            && (v.changed <==> Belief(n, p.when) != Round1(n.conf))
            && (v.faded || v.ancient <==> Retires(n, p))
            && v.core == CoreOf(n)
  {
  }

  // One pass archives exactly when due; otherwise it only brings the stored
  // tenth of confidence up to date.
  lemma PassIs(n: Note, p: Visit)
    requires Tracked(n)
    ensures Pass(n, p).stage == if Retires(n, p) then Archive else Notes
    ensures !Retires(n, p) ==>
              Pass(n, p).(conf := n.conf) == n && Round1(Pass(n, p).conf) == Belief(n, p.when)
  {
    var v := Judge(n, false, p.cited, p.when);
    VerdictIs(n, p);
    Laws.TenthsRoundTrip(v.tenths);
    assert !(Retires(n, p)) ==> Pass(n, p) == if v.changed then Staged(n, v, false, p.when) else n;
  }

  // Neither belief nor the moment of archival looks at the stored confidence.
  lemma OnlyTheTenthMatters(n: Note, m: Note, p: Visit)
    requires Tracked(n) && m.(conf := n.conf) == n
    ensures Tracked(m) && (Retires(m, p) <==> Retires(n, p))
    ensures Anchor(m) == Anchor(n) && (!Frozen(n) ==> Belief(m, p.when) == Belief(n, p.when))
  {
  }

  // An uncited note that is due stays due.
  lemma DueStaysDue(n: Note, early: Time, late: Time)
    requires Tracked(n) && early <= late && Retires(n, Visit(early, false))
    ensures Retires(n, Visit(late, false))
  {
    var s := n.stability.value;
    if Curve.Faded(Days(Anchor(n), early), s) {
      LaterIsOlder(Anchor(n), early, late);
      TenthsMonotone(Days(Anchor(n), early), Days(Anchor(n), late), s, s);
    }
  }

  lemma LaterIsOlder(from: Time, early: Time, late: Time)
    requires early <= late
    ensures 0.0 <= Days(from, early) <= Days(from, late)
  {
  }

  predicate Ordered(schedule: seq<Visit>) {
    forall i, j | 0 <= i < j < |schedule| :: schedule[i].when <= schedule[j].when
  }

  lemma ArchivedIsInert(n: Note, p: Visit)
    requires n.stage != Notes
    ensures Pass(n, p) == n
  {
  }

  // While a note stays in notes/, every schedule leaves the same note at time T
  // up to the curve: whatever citations came and went, its confidence is the
  // curve's value at the last pass and nothing else has moved.
  lemma {:induction false} BeliefIsReadAtTheLastPass(n: Note, schedule: seq<Visit>)
    requires Tracked(n) && schedule != []
    ensures var r := Passes(n, schedule); var last := schedule[|schedule| - 1].when;
            r.stage == Notes ==> r.(conf := n.conf) == n && Round1(r.conf) == Belief(n, last)
  {
    var before, p := Passes(n, schedule[..|schedule| - 1]), schedule[|schedule| - 1];
    if before.stage != Notes {
      ArchivedIsInert(before, p);
    } else if |schedule| == 1 {
      PassIs(n, p);
    } else {
      BeliefIsReadAtTheLastPass(n, schedule[..|schedule| - 1]);
      OnlyTheTenthMatters(n, before, p);
      PassIs(before, p);
    }
  }

  // A second pass at the same time changes nothing.
  lemma RepeatChangesNothing(n: Note, p: Visit)
    requires Tracked(n)
    ensures Pass(Pass(n, p), p) == Pass(n, p)
  {
    var r := Pass(n, p);
    PassIs(n, p);
    if r.stage == Archive {
      ArchivedIsInert(r, p);
    } else {
      OnlyTheTenthMatters(n, r, p);
      VerdictIs(r, p);
      PassIs(r, p);
    }
  }

  // An uncited note is in archive/ after a schedule exactly when the single
  // pass at its end would have put it there.
  lemma {:induction false} ArchivalIgnoresTheSchedule(n: Note, schedule: seq<Visit>)
    requires Tracked(n) && schedule != [] && Ordered(schedule)
    requires forall i | 0 <= i < |schedule| :: !schedule[i].cited
    ensures Passes(n, schedule).stage == Pass(n, schedule[|schedule| - 1]).stage
  {
    var init := schedule[..|schedule| - 1];
    var before, p := Passes(n, init), schedule[|schedule| - 1];
    PassIs(n, p);
    if init != [] {
      var q := init[|init| - 1];
      assert q == schedule[|schedule| - 2];
      ArchivalIgnoresTheSchedule(n, init);
      PassIs(n, q);
      if before.stage == Archive {
        ArchivedIsInert(before, p);
        DueStaysDue(n, q.when, p.when);
      } else {
        BeliefIsReadAtTheLastPass(n, init);
        OnlyTheTenthMatters(n, before, p);
        PassIs(before, p);
      }
    }
  }

  // Two schedules that end together end alike.
  lemma SchedulesAgree(n: Note, one: seq<Visit>, two: seq<Visit>)
    requires Tracked(n) && one != [] && two != [] && Ordered(one) && Ordered(two)
    requires forall i | 0 <= i < |one| :: !one[i].cited
    requires forall i | 0 <= i < |two| :: !two[i].cited
    requires one[|one| - 1] == two[|two| - 1]
    ensures Passes(n, one).stage == Passes(n, two).stage
    ensures Passes(n, one).stage == Notes ==> Same(Passes(n, one), Passes(n, two))
  {
    ArchivalIgnoresTheSchedule(n, one);
    ArchivalIgnoresTheSchedule(n, two);
    BeliefIsReadAtTheLastPass(n, one);
    BeliefIsReadAtTheLastPass(n, two);
  }

  // The first store of a reconstructed stability rounds it to hundredths. From
  // then on the note is tracked and the laws above hold.
  lemma FirstStoreTracks(n: Note, p: Visit)
    requires n.stage == Notes && n.status != Falsified && !HasStability(n)
    ensures Pass(n, p).stage == Notes ==> Tracked(Pass(n, p))
  {
    var v := Judge(n, false, p.cited, p.when);
    Laws.StabilityIsPositive(n);
    RoundTwice(v.core.stability);
    assert Round2(v.core.stability) > 0.0;
  }

  lemma RoundTwice(x: real)
    ensures Round2(Round2(x)) == Round2(x)
  {
    Hundredths((100.0 * x + 0.5).Floor, Round2(x));
  }

  lemma Hundredths(k: int, y: real)
    requires y == k as real / 100.0
    ensures Round2(y) == y
  {
    FloorOfHalf(k, 100.0 * y + 0.5);
  }

  lemma FloorOfHalf(k: int, z: real)
    requires z == k as real + 0.5
    ensures z.Floor == k
  {
  }

  // ---- the exact condition before the first store ----

  lemma {:induction false} PassesFrom(n: Note, p: Visit, rest: seq<Visit>)
    ensures Passes(n, [p] + rest) == Passes(Pass(n, p), rest)
  {
    var all := [p] + rest;
    if rest == [] {
      assert all == [p] && all[..0] == [] && Passes(n, all) == Pass(Passes(n, []), p);
    } else {
      PassesFrom(n, p, rest[..|rest| - 1]);
      assert all[..|all| - 1] == [p] + rest[..|rest| - 1];
    }
  }

  // A live note whose stability is still only implied by its history.
  predicate Unstored(n: Note) { n.stage == Notes && n.status != Falsified && !HasStability(n) }

  // How the curve stands at `now` for stability s.
  predicate IsDue(n: Note, now: Time, s: real) {
    !Frozen(n) && (Curve.Faded(Days(Anchor(n), now), s) || now - n.updated > ANCIENT_AFTER)
  }

  function BeliefAt(n: Note, now: Time, s: real): int {
    if Frozen(n) then Round1(n.conf) else Tenths(Days(Anchor(n), now), s)
  }

  // The pass that stores judges by the exact stability and stores the rounded.
  lemma FirstPassIs(n: Note, now: Time)
    requires Unstored(n)
    ensures var s := CoreOf(n).stability; var r := Pass(n, Visit(now, false));
            && r.stage == (if IsDue(n, now, s) then Archive else Notes)
            && (!IsDue(n, now, s) ==>
                  && r.(conf := n.conf, stability := n.stability) == n
                  && r.stability == Some(Round2(s)) && Round1(r.conf) == BeliefAt(n, now, s))
  {
    Laws.StabilityIsPositive(n);
    var v := Judge(n, false, false, now);
    Laws.TenthsRoundTrip(v.tenths);
    assert v.changed && v.core == CoreOf(n);
    assert !IsDue(n, now, CoreOf(n).stability) ==> Pass(n, Visit(now, false)) == Staged(n, v, false, now);
  }

  // Once the first pass has kept the note, any later schedule judges by the
  // rounded stability.
  lemma AfterTheFirst(n: Note, p: Visit, rest: seq<Visit>)
    requires Unstored(n) && !p.cited && Pass(n, p).stage == Notes && rest != [] && Ordered(rest)
    requires forall i | 0 <= i < |rest| :: !rest[i].cited
    ensures var s, last := Round2(CoreOf(n).stability), rest[|rest| - 1].when; var r := Passes(n, [p] + rest);
            && r.stage == (if IsDue(n, last, s) then Archive else Notes)
            && (r.stage == Notes ==>
                  && r.(conf := n.conf, stability := n.stability) == n
                  && r.stability == Some(s) && Round1(r.conf) == BeliefAt(n, last, s))
  {
    var first, last := Pass(n, p), rest[|rest| - 1];
    assert p == Visit(p.when, false) && last == Visit(last.when, false);
    FirstPassIs(n, p.when);
    FirstStoreTracks(n, p);
    PassesFrom(n, p, rest);
    ArchivalIgnoresTheSchedule(first, rest);
    BeliefIsReadAtTheLastPass(first, rest);
    PassIs(first, last);
    assert Anchor(first) == Anchor(n) && Frozen(first) == Frozen(n);
    assert Frozen(n) ==> Round1(first.conf) == Round1(n.conf);
  }

  lemma {:induction false} ArchivedStays(n: Note, schedule: seq<Visit>)
    requires n.stage == Archive
    ensures Passes(n, schedule) == n
  {
    if schedule != [] {
      ArchivedStays(n, schedule[..|schedule| - 1]);
      ArchivedIsInert(n, schedule[|schedule| - 1]);
    }
  }

  lemma DueStays(n: Note, early: Time, late: Time, s: real)
    requires early <= late && IsDue(n, early, s)
    ensures IsDue(n, late, s)
  {
    LaterIsOlder(Anchor(n), early, late);
  }

  // For a live note without a stored stability: a schedule of uncited passes
  // puts it where its last pass alone would, exactly when there is no other
  // pass, or the first archives it, or it is frozen, or ancient by then, or on
  // the same side of the floor with the exact and with the rounded stability.
  // When both keep it, they leave the same note exactly when there is no other
  // pass, or it is frozen, or the tenths agree.
  lemma {:induction false} UnstoredAgreesIff(n: Note, p: Visit, rest: seq<Visit>)
    requires Unstored(n) && Ordered([p] + rest) && forall i | 0 <= i <= |rest| :: !([p] + rest)[i].cited
    ensures var last := ([p] + rest)[|rest|];
            var s, age := CoreOf(n).stability, Days(Anchor(n), last.when);
            var many, one := Passes(n, [p] + rest), Pass(n, last);
            && (many.stage == one.stage <==>
                  || rest == [] || IsDue(n, p.when, s)
                  || Frozen(n) || last.when - n.updated > ANCIENT_AFTER
                  || (Curve.Faded(age, s) <==> Curve.Faded(age, Round2(s))))
            && (many.stage == one.stage == Notes ==>
                  (Same(many, one) <==> rest == [] || Frozen(n) || Tenths(age, s) == Tenths(age, Round2(s))))
  {
    var all := [p] + rest;
    var last := all[|rest|];
    assert all[0] == p == Visit(p.when, false) && last == Visit(last.when, false);
    FirstPassIs(n, p.when);
    FirstPassIs(n, last.when);
    PassesFrom(n, p, rest);
    if rest == [] {
      assert Passes(Pass(n, p), []) == Pass(n, p);
    } else if IsDue(n, p.when, CoreOf(n).stability) {
      assert p.when <= last.when;
      ArchivedStays(Pass(n, p), rest);
      DueStays(n, p.when, last.when, CoreOf(n).stability);
    } else {
      assert forall i | 0 <= i < |rest| :: rest[i] == all[i + 1];
      AfterTheFirst(n, p, rest);
    }
  }

  const FORGOTTEN := 199126080 // 2304.7 days

  function Forgotten(): Note {
    Note("id", "notes/a.md", Notes, Active, 1.0, Developing, 3, None, 0, FORGOTTEN, None, None, None, None, None, None, None)
  }

  lemma ThirdPower()
    ensures InitStability(3, Developing) == 96.026
  {
    assert Power(STABILITY_GROWTH, 1) == 1.9;
    assert Power(STABILITY_GROWTH, 2) == 3.61;
    assert Power(STABILITY_GROWTH, 3) == 6.859;
  }

  // The condition can fail: 14 * 1.9^3 = 96.026 fades at 2304.62 days,
  // the stored 96.03 at 2304.72, so one pass in between archives a note that
  // two passes keep.
  lemma UnstoredDependsOnTheSchedule()
    ensures Pass(Forgotten(), Visit(FORGOTTEN, false)).stage == Archive
    ensures Passes(Forgotten(), [Visit(0, false), Visit(FORGOTTEN, false)]).stage == Notes
  {
    ThirdPower();
    var n, late, early := Forgotten(), Visit(FORGOTTEN, false), Visit(0, false);
    assert Days(0, FORGOTTEN) == 2304.7;
    assert Judge(n, false, false, FORGOTTEN).faded;
    assert Days(0, 0) == 0.0;
    assert Round2(96.026) == 96.03;
    var kept := Pass(n, early);
    assert kept.stage == Notes && kept.stability == Some(96.03) && Anchor(kept) == 0;
    assert Round2(96.03) == 96.03;
    PassIs(kept, late);
    assert [early, late][..1] == [early];
    assert [early][..0] == [];
    assert Passes(n, [early]) == kept;
  }
}

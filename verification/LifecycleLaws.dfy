// What a compile pass promises about any note, whatever it is asked and
// whichever of its writes are skipped.
module LifecycleLaws {
  import opened Arithmetic
  import opened Text
  import opened Curve
  import opened Lifecycle

  // ---- rounding ----

  lemma TenthsRoundTrip(k: int)
    ensures Round1(FromTenths(k)) == k
  {
  }

  lemma StabilityIsPositive(n: Note)
    ensures CoreOf(n).stability > 0.0
    ensures !HasStability(n) ==> CoreOf(n).stability >= FRESH_STABILITY
  {
    PowerAtLeastOne(STABILITY_GROWTH, n.count);
  }

  predicate Nearest(k: int, y: real) { k as real - 0.5 <= y < k as real + 0.5 }

  // Tenths and hundredths are the nearest ones, halves rounded up.
  lemma RoundsToNearest(x: real) returns (hundredths: int)
    ensures Nearest(Round1(x), 10.0 * x)
    ensures Nearest(hundredths, 100.0 * x) && 100.0 * Round2(x) == hundredths as real
  {
    hundredths := (100.0 * x + 0.5).Floor;
  }

  // ---- the report says what happened ----

  // The story two versions of a note tell, without asking what was requested.
  predicate Tells(k: Kind, before: Note, after: Note) {
    match k
    case KFalsified => after.status == Falsified
    case KDisputed => after.disputed.Some? && after.disputed != before.disputed
    case KReinforced => after.count == before.count + 1
    case KPromoted => after.maturity != before.maturity
    case KDisputeCleared => before.status == Disputed && after.status == Active
    case KDecayed => after.count == before.count && Round1(after.conf) < Round1(before.conf)
    case KRecalibrated =>
      && after.count == before.count && Round1(after.conf) >= Round1(before.conf)
      && (Round1(after.conf) > Round1(before.conf) || after.stability != before.stability)
    case KArchivedFaded => after.stage == Archive && after.status == Faded
    case KArchivedAncient => after.stage == Archive && after.status == Archived
    case KGraduated => before.graduatedAt.None? && after.graduatedAt.Some?
    case KSkipped => false
    case KRelatedContext => false
  }

  predicate Reportable(k: Kind) { k != KSkipped && k != KRelatedContext }

  // The lines reported by a list are exactly the story from `before` to `after`.
  ghost predicate Reports(actions: seq<Kind>, before: Note, after: Note) {
    forall k | Reportable(k) :: k in actions <==> Tells(k, before, after)
  }

  // A reinforced note is at its peak, so it is neither faded nor ancient.
  lemma ReinforcedStays(n: Note, cited: bool, now: Time)
    ensures !Judge(n, true, cited, now).faded && !Judge(n, true, cited, now).ancient
  {
    StabilityIsPositive(n);
    var core := Grow(CoreOf(n));
    assert core.stability > 0.0;
    assert Days(now, now) == 0.0;
  }

  lemma StagedStory(n: Note, reinforce: bool, cited: bool, now: Time)
    requires n.stage == Notes && n.status != Falsified
    ensures var v := Judge(n, reinforce, cited, now); var moves := Movements(n, v, reinforce);
            && (v.changed ==> Reports(moves, n, Staged(n, v, reinforce, now)))
            && (!v.changed ==> moves == [])
            && KSkipped !in moves && KRelatedContext !in moves
  {
    var v := Judge(n, reinforce, cited, now);
    TenthsRoundTrip(v.tenths);
    if !HasStability(n) && !reinforce {
      StabilityIsPositive(n);
      assert Round2(v.core.stability) > 0.0;
    }
  }

  // Later steps add their own line and change nothing earlier lines tell.
  lemma RetireStory(n: Note, staged: Note, moves: seq<Kind>, status: Status, now: Time)
    requires n.stage == Notes && (status == Faded || status == Archived)
    requires Reports(moves, n, staged) && staged.stage == Notes && staged.status != Falsified
    requires KDisputeCleared !in moves
    ensures Reports(moves + [if status == Faded then KArchivedFaded else KArchivedAncient], n, Retired(staged, status, now))
  {
    var line := if status == Faded then KArchivedFaded else KArchivedAncient;
    var after := Retired(staged, status, now);
    forall k | Reportable(k) ensures k in moves + [line] <==> Tells(k, n, after) {
      assert k in moves + [line] <==> k in moves || k == line;
      assert k in moves <==> Tells(k, n, staged);
    }
  }

  lemma GraduateStory(n: Note, staged: Note, moves: seq<Kind>, advised: bool, now: Time)
    requires Reports(moves, n, staged) && n.graduatedAt.None? && staged.graduatedAt.None?
    ensures Reports(moves + (Advice(advised) + [KGraduated]), n, staged.(graduatedAt := Some(now)))
  {
    var all := moves + (Advice(advised) + [KGraduated]);
    forall k | Reportable(k) ensures k in all <==> Tells(k, n, staged.(graduatedAt := Some(now))) {
      assert k in all <==> k in moves || k in Advice(advised) || k == KGraduated;
      assert k in moves <==> Tells(k, n, staged);
    }
  }

  lemma NothingHappened(n: Note, actions: seq<Kind>)
    requires n.stage == Notes && n.status != Falsified && forall k | k in actions :: k == KSkipped
    ensures Reports(actions, n, n)
  {
  }

  // The judged branch: archive, or write in place and perhaps graduate.
  lemma CarryStory(n: Note, v: Verdict, staged: Note, moves: seq<Kind>, graduate: bool, advised: bool, now: Time,
                   first: WriteResult, second: WriteResult)
    requires n.stage == Notes && n.status != Falsified && staged.stage == Notes && staged.status != Falsified
    requires Reports(moves, n, staged) && KSkipped !in moves && (!v.changed ==> staged == n)
    requires staged.graduatedAt == n.graduatedAt && (v.faded || v.ancient ==> KDisputeCleared !in moves)
    ensures var t := Carry(n, v, staged, moves, graduate, advised, now, false, first, second);
            t.Turn? ==> Reports(t.actions, n, t.landed)
  {
    NothingHappened(n, [KSkipped]);
    if v.faded || v.ancient {
      RetireStory(n, staged, moves, if v.faded then Faded else Archived, now);
    } else if graduate && MayGraduate(n, staged) {
      GraduateStory(n, staged, moves, advised, now);
      SkipAdds(moves, n, staged);
    }
    hide Reports, MayGraduate, Retired, Advice;
  }

  lemma JudgedStory(n: Note, ask: Ask, cited: bool, now: Time)
    requires Judged(n, ask)
    ensures var v := Judge(n, ask.reinforce, cited, now); var moves := Movements(n, v, ask.reinforce);
            var staged := Next(n, ask, cited, now);
            && Reports(moves, n, staged) && KSkipped !in moves && staged.stage == Notes && staged.status != Falsified
            && staged.graduatedAt == n.graduatedAt && (v.faded || v.ancient ==> KDisputeCleared !in moves)
  {
    StagedStory(n, ask.reinforce, cited, now);
    NothingHappened(n, []);
    if ask.reinforce {
      ReinforcedStays(n, cited, now);
    }
  }

  // The note already stands disputed for this reason at this instant, and is
  // asked to be disputed so again.
  predicate RepeatsDispute(n: Note, ask: Ask, now: Time, first: WriteResult) {
    ask.falsify.None? && ask.dispute.Some? && first == Landed && n.disputed == Some(Stamp(ask.dispute.value, now))
  }

  // For every turn that does not abort the run, under any answers to its
  // writes, the lines that are not advisory and not `skipped` are exactly those
  // whose mutation is in the vault. The one line with nothing to show for it is
  // a dispute repeated word for word at the same instant.
  lemma ReportIsTheDiff(n: Note, ask: Ask, cited: bool, advised: bool, now: Time, first: WriteResult, second: WriteResult)
    requires n.stage == Notes && n.status != Falsified
    ensures var t := Compile(n, ask, cited, advised, now, false, first, second);
            t.Turn? ==> (Reports(t.actions, n, t.landed) <==> !RepeatsDispute(n, ask, now, first))
  {
    if ask.falsify.Some? {
      NothingHappened(n, [KSkipped]);
    } else if ask.dispute.Some? {
      NothingHappened(n, [KSkipped]);
      assert Reportable(KDisputed);
    } else {
      var v := Judge(n, ask.reinforce, cited, now);
      JudgedStory(n, ask, cited, now);
      MovementsArePlain(n, v, ask.reinforce);
      CompileCarries(n, ask, cited, advised, now, false, first, second);
      CarryStory(n, v, Next(n, ask, cited, now), Movements(n, v, ask.reinforce), ask.graduate, advised, now, first, second);
    }
  }

  lemma SkipAdds(moves: seq<Kind>, before: Note, after: Note)
    requires Reports(moves, before, after)
    ensures Reports(moves + [KSkipped], before, after)
  {
    forall k | Reportable(k) ensures k in moves + [KSkipped] <==> Tells(k, before, after) {
      assert k in moves + [KSkipped] <==> k in moves || k == KSkipped;
    }
  }

  // ---- skips ----

  function Answer(i: nat, first: WriteResult, second: WriteResult): WriteResult {
    if i == 0 then first else second
  }

  predicate Distinct(s: seq<Kind>) { forall i, j | 0 <= i < j < |s| :: s[i] != s[j] }

  // What Movements can say: no line twice, never `skipped` or advice, and
  // nothing at all only when nothing changed.
  predicate Plain(moves: seq<Kind>) {
    && Distinct(moves)
    && (forall k | k in moves :: k in {KReinforced, KPromoted, KDisputeCleared, KDecayed, KRecalibrated})
  }

  lemma MovementsArePlain(n: Note, v: Verdict, reinforce: bool)
    ensures Plain(Movements(n, v, reinforce))
  {
  }

  lemma DistinctAppend(moves: seq<Kind>, tail: seq<Kind>)
    requires Plain(moves) && Distinct(tail) && forall k | k in tail :: k !in moves
    ensures Distinct(moves + tail)
  {
    var all := moves + tail;
    forall i, j | 0 <= i < j < |all| ensures all[i] != all[j] {
      if i < |moves| <= j {
        assert all[i] in moves && all[j] in tail;
      }
    }
  }

  // `writes` were attempted, the last of them deciding whether the turn closes
  // with a `skipped` line.
  predicate Closes(t: Turn, first: WriteResult, second: WriteResult) {
    t.Turn? ==>
      && Distinct(t.actions)
      && (KSkipped in t.actions <==> t.writes > 0 && Answer(t.writes - 1, first, second) == Changed)
      && (KSkipped in t.actions ==> t.actions[|t.actions| - 1] == KSkipped)
      && (t.writes > 0 ==> Answer(t.writes - 1, first, second) in {Landed, Changed})
      && (t.writes > 1 ==> first == Landed)
  }

  lemma StayCloses(n: Note, changed: bool, staged: Note, moves: seq<Kind>, graduate: bool, advised: bool, now: Time,
                   first: WriteResult, second: WriteResult)
    requires Plain(moves)
    ensures Closes(Stay(n, changed, staged, moves, graduate, advised, now, false, first, second), first, second)
  {
    DistinctAppend(moves, [KSkipped]);
    DistinctAppend(moves, Advice(advised) + [KGraduated]);
  }

  lemma MoveCloses(n: Note, next: Note, moves: seq<Kind>, line: Kind, first: WriteResult, second: WriteResult)
    requires Plain(moves) && line in {KArchivedFaded, KArchivedAncient}
    ensures Closes(Settle(false, first, n, next, [], moves + [line], 0), first, second)
  {
    DistinctAppend(moves, [line]);
  }

  lemma CarryCloses(n: Note, v: Verdict, staged: Note, moves: seq<Kind>, graduate: bool, advised: bool, now: Time,
                    first: WriteResult, second: WriteResult)
    requires Plain(moves)
    ensures Closes(Carry(n, v, staged, moves, graduate, advised, now, false, first, second), first, second)
  {
    if v.faded {
      MoveCloses(n, Retired(staged, Faded, now), moves, KArchivedFaded, first, second);
    } else if v.ancient {
      MoveCloses(n, Retired(staged, Archived, now), moves, KArchivedAncient, first, second);
    } else {
      StayCloses(n, v.changed, staged, moves, graduate, advised, now, first, second);
    }
  }

  predicate Judged(n: Note, ask: Ask) {
    n.stage == Notes && n.status != Falsified && ask.falsify.None? && ask.dispute.None?
  }

  function Next(n: Note, ask: Ask, cited: bool, now: Time): Note {
    var v := Judge(n, ask.reinforce, cited, now);
    if v.changed then Staged(n, v, ask.reinforce, now) else n
  }

  lemma CompileCarries(n: Note, ask: Ask, cited: bool, advised: bool, now: Time, dry: bool, first: WriteResult,
                       second: WriteResult)
    requires Judged(n, ask)
    ensures var v := Judge(n, ask.reinforce, cited, now);
            Compile(n, ask, cited, advised, now, dry, first, second)
            == Carry(n, v, Next(n, ask, cited, now), Movements(n, v, ask.reinforce), ask.graduate, advised, now, dry,
                first, second)
  {
  }

  lemma ExplicitCloses(n: Note, ask: Ask, cited: bool, advised: bool, now: Time, first: WriteResult, second: WriteResult)
    requires !Judged(n, ask)
    ensures Closes(Compile(n, ask, cited, advised, now, false, first, second), first, second)
  {
  }

  // A skipped write ends the turn: it is the last one attempted, it leaves one
  // `skipped` line after whatever landed, and no line is reported twice.
  lemma SkipEndsTheTurn(n: Note, ask: Ask, cited: bool, advised: bool, now: Time, first: WriteResult, second: WriteResult)
    ensures Closes(Compile(n, ask, cited, advised, now, false, first, second), first, second)
  {
    if Judged(n, ask) {
      var v := Judge(n, ask.reinforce, cited, now);
      CompileCarries(n, ask, cited, advised, now, false, first, second);
      MovementsArePlain(n, v, ask.reinforce);
      CarryCloses(n, v, Next(n, ask, cited, now), Movements(n, v, ask.reinforce), ask.graduate, advised, now, first, second);
    } else {
      ExplicitCloses(n, ask, cited, advised, now, first, second);
    }
  }

  // An advisory line stands beside every terminal move that was advised on, and
  // nowhere else.
  predicate Advises(t: Turn, advised: bool) {
    t.Turn? ==> (KRelatedContext in t.actions <==> advised && (KFalsified in t.actions || KGraduated in t.actions))
  }

  lemma CarryAdvises(n: Note, v: Verdict, staged: Note, moves: seq<Kind>, graduate: bool, advised: bool, now: Time,
                     first: WriteResult, second: WriteResult)
    requires Plain(moves)
    ensures Advises(Carry(n, v, staged, moves, graduate, advised, now, false, first, second), advised)
  {
  }

  lemma AdviceGoesWithItsMove(n: Note, ask: Ask, cited: bool, advised: bool, now: Time, first: WriteResult,
                              second: WriteResult)
    ensures Advises(Compile(n, ask, cited, advised, now, false, first, second), advised)
  {
    if Judged(n, ask) {
      var v := Judge(n, ask.reinforce, cited, now);
      CompileCarries(n, ask, cited, advised, now, false, first, second);
      MovementsArePlain(n, v, ask.reinforce);
      CarryAdvises(n, v, Next(n, ask, cited, now), Movements(n, v, ask.reinforce), ask.graduate, advised, now, first, second);
    }
  }

  predicate Foretells(n: Note, dry: Turn, live: Turn) {
    && (dry.Turn? <==> live.Turn?)
    && (dry.Turn? ==> dry.landed == n && dry.writes == 0 && dry.actions == live.actions && dry.candidate == live.candidate)
  }

  lemma DryCarry(n: Note, v: Verdict, staged: Note, moves: seq<Kind>, graduate: bool, advised: bool, now: Time,
                 first: WriteResult, second: WriteResult)
    requires Plain(moves)
    ensures Foretells(n, Carry(n, v, staged, moves, graduate, advised, now, true, first, second),
                      Carry(n, v, staged, moves, graduate, advised, now, false, Landed, Landed))
  {
    hide MayGraduate, Retired;
  }

  // A dry run reports what a run without conflicts would, refuses what it
  // would refuse, and touches nothing.
  lemma DryRunForetells(n: Note, ask: Ask, cited: bool, advised: bool, now: Time, first: WriteResult, second: WriteResult)
    ensures Foretells(n, Compile(n, ask, cited, advised, now, true, first, second),
                      Compile(n, ask, cited, advised, now, false, Landed, Landed))
  {
    if Judged(n, ask) {
      var v := Judge(n, ask.reinforce, cited, now);
      CompileCarries(n, ask, cited, advised, now, true, first, second);
      CompileCarries(n, ask, cited, advised, now, false, Landed, Landed);
      MovementsArePlain(n, v, ask.reinforce);
      DryCarry(n, v, Next(n, ask, cited, now), Movements(n, v, ask.reinforce), ask.graduate, advised, now, first, second);
    }
  }

  // ---- what never changes ----

  // What every turn keeps of a note; canon keeps its place and belief too.
  predicate Keeps(n: Note, after: Note) {
    && Rank(after.maturity) >= Rank(n.maturity) && after.id == n.id && after.created == n.created
    && (n.graduatedAt.Some? ==>
          after.stage == n.stage && after.path == n.path && after.graduatedAt == n.graduatedAt
          && Round1(after.conf) == Round1(n.conf))
  }

  lemma StagedKeeps(n: Note, reinforce: bool, cited: bool, now: Time)
    ensures var v := Judge(n, reinforce, cited, now);
            && Keeps(n, Staged(n, v, reinforce, now))
            && (n.graduatedAt.Some? ==> !v.faded && !v.ancient)
  {
    TenthsRoundTrip(Round1(n.conf));
  }

  lemma CarryKeeps(n: Note, v: Verdict, staged: Note, moves: seq<Kind>, graduate: bool, advised: bool, now: Time,
                   dry: bool, first: WriteResult, second: WriteResult)
    requires Keeps(n, staged) && (n.graduatedAt.Some? ==> !v.faded && !v.ancient)
    ensures var t := Carry(n, v, staged, moves, graduate, advised, now, dry, first, second); t.Turn? ==> Keeps(n, t.landed)
  {
  }

  // Falsified notes and notes outside notes/ are never written; canon is never
  // moved and never decays; maturity never goes back; the id is for life.
  lemma InertNotes(n: Note, ask: Ask, cited: bool, advised: bool, now: Time, dry: bool, first: WriteResult,
                   second: WriteResult)
    ensures var t := Compile(n, ask, cited, advised, now, dry, first, second);
            && (n.status == Falsified || n.stage != Notes ==> t == Turn(n, [], 0, false))
            && (t.Turn? ==> Keeps(n, t.landed))
  {
    if Judged(n, ask) {
      var v := Judge(n, ask.reinforce, cited, now);
      CompileCarries(n, ask, cited, advised, now, dry, first, second);
      StagedKeeps(n, ask.reinforce, cited, now);
      CarryKeeps(n, v, Next(n, ask, cited, now), Movements(n, v, ask.reinforce), ask.graduate, advised, now, dry, first,
          second);
    }
  }

  function Rank(m: Maturity): nat {
    match m case Seed => 0 case Developing => 1 case Stable => 2
  }

  // ---- archiving keeps the name links resolve by ----

  lemma {:induction false} AfterSlashIsBare(p: string)
    ensures '/' !in AfterSlash(p)
  {
    if p != [] && p[|p| - 1] != '/' {
      AfterSlashIsBare(p[..|p| - 1]);
    }
  }

  lemma {:induction false} AfterSlashOf(dir: string, name: string)
    requires '/' !in name && dir != [] && dir[|dir| - 1] == '/'
    ensures AfterSlash(dir + name) == name
  {
    if name == [] {
      assert dir + name == dir;
    } else {
      var last := |name| - 1;
      assert (dir + name)[..|dir + name| - 1] == dir + name[..last];
      assert name[last] in name;
      AfterSlashOf(dir, name[..last]);
      assert name == name[..last] + [name[last]];
    }
  }

  // A move into archive/ keeps the id and the basename, so every inbound link
  // still resolves to the note.
  lemma ArchivedKeepsItsName(n: Note, status: Status, now: Time)
    ensures Base(Retired(n, status, now).path) == Base(n.path) && Retired(n, status, now).id == n.id
  {
    if '/' in n.path {
      AfterSlashIsBare(n.path);
    }
    AfterSlashOf("archive/", FileName(n.path));
    assert "archive/"[7] == '/';
    assert ("archive/" + FileName(n.path))[7] == '/';
  }

  // ---- reinforcement history ----

  function GrowN(c: Core, times: nat): Core {
    if times == 0 then c else Grow(GrowN(c, times - 1))
  }

  // From a fresh note, stability after any number of reinforces is what
  // initStability reconstructs from the count and maturity alone; stable comes
  // with the third and stays, so the consolidation bump applies once.
  lemma {:induction false} ReinforcesMatchHistory(times: nat)
    ensures var c := GrowN(Core(FRESH_STABILITY, 0, Seed), times);
            && c.count == times
            && c.stability == InitStability(c.count, c.maturity)
            && c.maturity == (if times == 0 then Seed else if times < STABLE_MIN_RUNS then Developing else Stable)
  {
    if times > 0 {
      ReinforcesMatchHistory(times - 1);
      var c := GrowN(Core(FRESH_STABILITY, 0, Seed), times - 1);
      HistoryGrows(c.count, c.maturity);
    }
  }

  lemma HistoryGrows(count: nat, maturity: Maturity)
    ensures Grow(Core(InitStability(count, maturity), count, maturity)).stability
            == InitStability(count + 1, Grow(Core(InitStability(count, maturity), count, maturity)).maturity)
  {
    var p := Power(STABILITY_GROWTH, count);
    assert Power(STABILITY_GROWTH, count + 1) == STABILITY_GROWTH * p;
  }

  // A pass that reinforces takes one such step and stores it to two decimals,
  // restarts the clock and clears a dispute; it changes nothing else.
  lemma PassTakesOneStep(n: Note, cited: bool, now: Time)
    requires n.stage == Notes && n.status != Falsified
    ensures var t := Compile(n, Ask(None, None, None, true, false), cited, false, now, false, Landed, Landed);
            var c := Grow(CoreOf(n));
            && t.Turn?
            && t.landed.(conf := n.conf) ==
               n.(count := c.count, maturity := c.maturity, stability := Some(Round2(c.stability)),
                  explicitAt := Some(now), lastReinforced := Some(now),
                  status := if n.status == Disputed then Active else n.status,
                  disputed := if n.status == Disputed then None else n.disputed)
            && Round1(t.landed.conf) == if n.status == Paused || n.graduatedAt.Some? then Round1(n.conf) else 10
  {
    ReinforcedStays(n, cited, now);
    var v := Judge(n, true, cited, now);
    TenthsRoundTrip(v.tenths);
    StabilityIsPositive(n);
    assert Days(now, now) == 0.0;
    var s := ClampStability(Grow(CoreOf(n)).stability);
    assert AtLeast(10, 0.0, s);
  }
}

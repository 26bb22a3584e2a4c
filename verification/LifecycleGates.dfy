// When a pass refuses, retires, nominates or canonises a note, told by the
// frontmatter it found and what it was asked.
module LifecycleGates {
  import opened Arithmetic
  import opened Text
  import opened Spacing
  import opened Curve
  import opened Lifecycle
  import Laws = LifecycleLaws

  predicate Live(n: Note) { n.stage == Notes && n.status != Falsified }

  // Neither falsified nor disputed: it is weighed.
  predicate Weighed(n: Note, ask: Ask) { Live(n) && ask.falsify.None? && ask.dispute.None? }

  predicate Exempt(n: Note) { n.status == Paused || n.graduatedAt.Some? }

  // Days of belief a note has accumulated: what it stores, or else what its
  // reinforce count and maturity imply.
  function Stability(n: Note): real {
    if n.stability.Some? && n.stability.value > 0.0 then n.stability.value
    else 14.0 * Power(1.9, n.count) * (if n.maturity == Stable then 4.0 else 1.0)
  }

  function LastAsserted(n: Note): Time { if n.explicitAt.Some? then n.explicitAt.value else n.created }

  // A citation shields a note for 180 days from its last assertion.
  predicate Shielded(n: Note, cited: bool, now: Time) { cited && now < LastAsserted(n) + 180 * 86400 }

  // Belief is below 0.2 once 24 stabilities have gone by.
  predicate LostFaith(n: Note, now: Time) { (now - LastAsserted(n)) as real > 24.0 * Stability(n) * 86400.0 }

  predicate Abandoned(n: Note, now: Time) { now > n.updated + 180 * 86400 }

  // What a weighed note is archived for.
  predicate Due(n: Note, ask: Ask, cited: bool, now: Time) {
    && Weighed(n, ask) && !ask.reinforce && !Exempt(n) && !Shielded(n, cited, now)
    && (LostFaith(n, now) || Abandoned(n, now))
  }

  // Maturity once this pass has weighed it: stable already, or by its third
  // reinforcement.
  predicate StableAfter(n: Note, ask: Ask) {
    n.maturity == Stable || (ask.reinforce && n.maturity == Developing && n.count >= 2)
  }

  // A note is written for itself when it is reinforced, has no stability stored
  // yet, or stores another tenth of confidence than the curve has now.
  predicate Drifts(n: Note, ask: Ask, now: Time) {
    || ask.reinforce || !(n.stability.Some? && n.stability.value > 0.0)
    || (!Exempt(n) && Tenths(Days(LastAsserted(n), now), Stability(n)) != Round1(n.conf))
  }

  // The note's own write, if there is one, has landed.
  predicate InPlaceHolds(n: Note, ask: Ask, now: Time, dry: bool, first: WriteResult) {
    !Drifts(n, ask, now) || dry || first == Landed
  }

  lemma StabilityIs(n: Note)
    ensures CoreOf(n).stability == Stability(n) > 0.0
  {
    Laws.StabilityIsPositive(n);
  }

  lemma DaysPass(from: Time, to: Time, s: real)
    requires s > 0.0
    ensures Days(from, to) > 24.0 * s <==> (to - from) as real > 24.0 * s * 86400.0
  {
    var d := (to - from) as real;
    assert d / 86400.0 * 86400.0 == d;
  }

  lemma VerdictIs(n: Note, ask: Ask, cited: bool, now: Time)
    requires Weighed(n, ask)
    ensures var v := Judge(n, ask.reinforce, cited, now);
            && (v.faded || v.ancient <==> Due(n, ask, cited, now))
            && (Due(n, ask, cited, now) ==> (v.faded <==> LostFaith(n, now)))
            && (v.core.maturity == Stable <==> StableAfter(n, ask))
            && (v.changed <==> Drifts(n, ask, now))
  {
    StabilityIs(n);
    DaysPass(LastAsserted(n), now, Stability(n));
    if ask.reinforce {
      Laws.ReinforcedStays(n, cited, now);
    }
  }

  // What canon asks of a note that stays where it is.
  predicate Canonisable(n: Note, ask: Ask) {
    && n.graduatedAt.None? && n.status != Paused && (n.status != Disputed || ask.reinforce) && StableAfter(n, ask)
  }

  lemma NextIs(n: Note, ask: Ask, cited: bool, now: Time)
    requires Weighed(n, ask)
    ensures var m := Laws.Next(n, ask, cited, now);
            && (m.maturity == Stable <==> StableAfter(n, ask))
            && (m.status == Disputed <==> n.status == Disputed && !ask.reinforce)
            && (m.status == Paused <==> n.status == Paused)
            && m.graduatedAt == n.graduatedAt
  {
    VerdictIs(n, ask, cited, now);
    hide Due, LostFaith;
  }

  // A run is refused over a note exactly when the reason it is given is nothing
  // but space, or when it is asked to make canon of a note that stays, whose own
  // write held, and that was canon already, is paused, is disputed and not
  // reinforced, or is not stable.
  lemma RejectedIff(n: Note, ask: Ask, cited: bool, advised: bool, now: Time, dry: bool, first: WriteResult,
                    second: WriteResult)
    ensures Compile(n, ask, cited, advised, now, dry, first, second) == Rejected <==>
            && Live(n)
            && if ask.falsify.Some? then Blanks(ask.falsify.value)
               else if ask.dispute.Some? then Blanks(ask.dispute.value)
               else ask.graduate && !Due(n, ask, cited, now) && InPlaceHolds(n, ask, now, dry, first)
                    && !Canonisable(n, ask)
  {
    if Weighed(n, ask) {
      VerdictIs(n, ask, cited, now);
      NextIs(n, ask, cited, now);
      Laws.CompileCarries(n, ask, cited, advised, now, dry, first, second);
      var v := Judge(n, ask.reinforce, cited, now);
      Laws.MovementsArePlain(n, v, ask.reinforce);
      hide Due, Compile, Judge, Movements, StableAfter, Drifts;
      CarryRejects(n, v, Laws.Next(n, ask, cited, now), Movements(n, v, ask.reinforce), ask.graduate, advised, now, dry,
        first, second);
    } else {
      if ask.falsify.Some? { BlankIff(ask.falsify.value); }
      if ask.dispute.Some? { BlankIff(ask.dispute.value); }
    }
  }

  lemma CarryRejects(n: Note, v: Verdict, staged: Note, moves: seq<Kind>, graduate: bool, advised: bool, now: Time,
                     dry: bool, first: WriteResult, second: WriteResult)
    requires Laws.Plain(moves)
    ensures Carry(n, v, staged, moves, graduate, advised, now, dry, first, second) == Rejected <==>
            graduate && !v.faded && !v.ancient && (!v.changed || dry || first == Landed)
            && !(n.graduatedAt.None? && staged.maturity == Stable && n.status != Paused && staged.status != Disputed)
  {
    hide Retired;
  }

  // ---- archiving ----

  ghost predicate IsArchived(n: Note, after: Note, now: Time) {
    && after.stage == Archive && after.archivedAt == Some(now) && after.id == n.id
    && after.status == (if LostFaith(n, now) then Faded else Archived)
    && "archive/" <= after.path && '/' !in after.path[8..] && Base(after.path) == Base(n.path)
  }

  lemma RetiredIsArchived(n: Note, staged: Note, now: Time)
    requires staged.path == n.path && staged.id == n.id
    ensures IsArchived(n, Retired(staged, if LostFaith(n, now) then Faded else Archived, now), now)
  {
    var status := if LostFaith(n, now) then Faded else Archived;
    Laws.ArchivedKeepsItsName(staged, status, now);
    if '/' in n.path {
      Laws.AfterSlashIsBare(n.path);
    }
    assert ("archive/" + FileName(n.path))[8..] == FileName(n.path);
  }

  // A turn that ends has moved its note exactly when the note was due and the
  // move landed: into archive/ under its own name, stamped with why and when.
  lemma ArchivesIff(n: Note, ask: Ask, cited: bool, advised: bool, now: Time, dry: bool, first: WriteResult,
                    second: WriteResult)
    ensures var t := Compile(n, ask, cited, advised, now, dry, first, second);
            t.Turn? ==>
              if Due(n, ask, cited, now) && !dry && first == Landed then IsArchived(n, t.landed, now)
              else t.landed.path == n.path && t.landed.stage == n.stage
  {
    if Weighed(n, ask) {
      var v := Judge(n, ask.reinforce, cited, now);
      VerdictIs(n, ask, cited, now);
      Laws.CompileCarries(n, ask, cited, advised, now, dry, first, second);
      var next := Laws.Next(n, ask, cited, now);
      assert next.path == n.path && next.stage == n.stage && next.id == n.id;
      RetiredIsArchived(n, next, now);
      hide Due, LostFaith, Judge, Compile, Staged, Movements, IsArchived, Retired;
      CarryMoves(n, v, next, Movements(n, v, ask.reinforce), ask.graduate, advised, now, dry, first, second);
    }
  }

  lemma CarryMoves(n: Note, v: Verdict, staged: Note, moves: seq<Kind>, graduate: bool, advised: bool, now: Time,
                   dry: bool, first: WriteResult, second: WriteResult)
    requires staged.path == n.path && staged.stage == n.stage
    ensures var t := Carry(n, v, staged, moves, graduate, advised, now, dry, first, second);
            t.Turn? ==>
              if (v.faded || v.ancient) && !dry && first == Landed
              then t.landed == Retired(staged, if v.faded then Faded else Archived, now)
              else t.landed.path == n.path && t.landed.stage == n.stage
  {
    hide Retired;
  }

  // ---- canon ----

  // The write that makes canon of a note comes after its own, if it has one.
  function CanonWrite(n: Note, ask: Ask, now: Time, first: WriteResult, second: WriteResult): WriteResult {
    if Drifts(n, ask, now) then second else first
  }

  // A note is nominated exactly when it stays, nobody asked for its graduation
  // and it is ripe for it, disputed or not.
  lemma NominatedIff(n: Note, ask: Ask, cited: bool, advised: bool, now: Time, dry: bool, first: WriteResult,
                     second: WriteResult)
    ensures var t := Compile(n, ask, cited, advised, now, dry, first, second);
            t.Turn? ==>
              (t.candidate <==>
                && Weighed(n, ask) && !Due(n, ask, cited, now) && !ask.graduate && InPlaceHolds(n, ask, now, dry, first)
                && StableAfter(n, ask) && !Exempt(n))
  {
    if Weighed(n, ask) {
      var v := Judge(n, ask.reinforce, cited, now);
      VerdictIs(n, ask, cited, now);
      NextIs(n, ask, cited, now);
      Laws.CompileCarries(n, ask, cited, advised, now, dry, first, second);
      Laws.MovementsArePlain(n, v, ask.reinforce);
      hide Due, Judge, Compile, Movements, StableAfter, Drifts;
      CarryNominates(n, v, Laws.Next(n, ask, cited, now), Movements(n, v, ask.reinforce), ask.graduate, advised, now, dry,
        first, second);
    }
  }

  lemma CarryNominates(n: Note, v: Verdict, staged: Note, moves: seq<Kind>, graduate: bool, advised: bool, now: Time,
                       dry: bool, first: WriteResult, second: WriteResult)
    requires Laws.Plain(moves)
    ensures var t := Carry(n, v, staged, moves, graduate, advised, now, dry, first, second);
            t.Turn? ==>
              (t.candidate <==>
                && !v.faded && !v.ancient && !graduate && (!v.changed || dry || first == Landed)
                && staged.maturity == Stable && !Exempt(n))
  {
    hide Retired;
  }

  // A turn reports a graduation exactly when it was asked for, the note stays
  // and both its writes held; and then the note in the vault is stable, neither
  // paused nor disputed, and stamped.
  lemma GraduatesIff(n: Note, ask: Ask, cited: bool, advised: bool, now: Time, dry: bool, first: WriteResult,
                     second: WriteResult)
    ensures var t := Compile(n, ask, cited, advised, now, dry, first, second);
            t.Turn? ==>
              && (KGraduated in t.actions <==>
                    && Weighed(n, ask) && !Due(n, ask, cited, now) && ask.graduate && InPlaceHolds(n, ask, now, dry, first)
                    && (dry || CanonWrite(n, ask, now, first, second) == Landed))
              && (KGraduated in t.actions ==> n.graduatedAt.None? && StableAfter(n, ask))
              && (KGraduated in t.actions && !dry ==>
                    && t.landed.graduatedAt == Some(now) && t.landed.stage == Notes && t.landed.maturity == Stable
                    && t.landed.status != Paused && t.landed.status != Disputed)
  {
    if Weighed(n, ask) {
      var v := Judge(n, ask.reinforce, cited, now);
      VerdictIs(n, ask, cited, now);
      NextIs(n, ask, cited, now);
      Laws.CompileCarries(n, ask, cited, advised, now, dry, first, second);
      Laws.MovementsArePlain(n, v, ask.reinforce);
      hide Due, Judge, Compile, Movements, StableAfter, Drifts;
      CarryGraduates(n, v, Laws.Next(n, ask, cited, now), Movements(n, v, ask.reinforce), ask.graduate, advised, now, dry,
        first, second);
    }
  }

  lemma CarryGraduates(n: Note, v: Verdict, staged: Note, moves: seq<Kind>, graduate: bool, advised: bool, now: Time,
                       dry: bool, first: WriteResult, second: WriteResult)
    requires Laws.Plain(moves)
    ensures var t := Carry(n, v, staged, moves, graduate, advised, now, dry, first, second);
            t.Turn? ==>
              && (KGraduated in t.actions <==>
                    && !v.faded && !v.ancient && graduate && (!v.changed || dry || first == Landed)
                    && (dry || (if v.changed then second else first) == Landed))
              && (KGraduated in t.actions ==>
                    n.graduatedAt.None? && staged.maturity == Stable && n.status != Paused && staged.status != Disputed)
              && (KGraduated in t.actions && !dry ==> t.landed == staged.(graduatedAt := Some(now)))
  {
    hide Retired;
  }

  // ---- what the vault holds once everything asked has landed ----

  // A falsified note is marked so with its reason and replacement, a disputed
  // one with its reason; nothing else of either changes.
  lemma MarksAre(n: Note, ask: Ask, cited: bool, advised: bool, now: Time, second: WriteResult)
    requires Live(n)
    ensures var t := Compile(n, ask, cited, advised, now, false, Landed, second);
            t.Turn? ==>
              && (ask.falsify.Some? ==>
                    t.landed == n.(status := Falsified, falsified := Some(Stamp(ask.falsify.value, now)),
                                   supersededBy := if ask.supersede.Some? then ask.supersede else n.supersededBy))
              && (ask.falsify.None? && ask.dispute.Some? ==>
                    t.landed == n.(status := Disputed, disputed := Some(Stamp(ask.dispute.value, now))))
  {
  }
}

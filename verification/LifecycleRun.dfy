// The compile engine itself: one loop over the vault snapshot that stages
// frontmatter, appends to a report and truncates it when a write is skipped.
module LifecycleRun {
  import opened Text
  import opened Curve
  import opened Lifecycle
  import Gates = LifecycleGates
  import Laws = LifecycleLaws

  datatype Action = Action(kind: Kind, name: string)

  // One run's input, note by note, and how each note's writes will fare.
  datatype Job = Job(notes: seq<Note>, asks: seq<Ask>, cited: seq<bool>, advised: seq<bool>,
                     first: seq<WriteResult>, second: seq<WriteResult>, now: Time, dry: bool)
  {
    predicate Valid() {
      |notes| == |asks| == |cited| == |advised| == |first| == |second|
    }

    function TurnOf(i: nat): Turn
      requires Valid() && i < |notes|
    {
      Compile(notes[i], asks[i], cited[i], advised[i], now, dry, first[i], second[i])
    }
  }

  function Lines(kinds: seq<Kind>, name: string): seq<Action> {
    seq(|kinds|, j requires 0 <= j < |kinds| => Action(kinds[j], name))
  }

  function Landings(t: Turn): nat
    requires t.Turn? && (KSkipped in t.actions ==> t.writes > 0)
  {
    if KSkipped in t.actions then t.writes - 1 else t.writes
  }

  lemma LinesAppend(a: seq<Kind>, b: seq<Kind>, name: string)
    ensures Lines(a + b, name) == Lines(a, name) + Lines(b, name)
  {
  }

  // Every note's turn, decided by the snapshot and by its own writes alone.
  function Turns(job: Job): seq<Turn>
    requires job.Valid()
  {
    TurnsUpTo(job, |job.notes|)
  }

  function TurnsUpTo(job: Job, k: nat): (turns: seq<Turn>)
    requires job.Valid() && k <= |job.notes|
    ensures |turns| == k
  {
    if k == 0 then [] else TurnsUpTo(job, k - 1) + [job.TurnOf(k - 1)]
  }

  lemma {:induction false} TurnsAt(job: Job, k: nat, i: nat)
    requires job.Valid() && i < k <= |job.notes|
    ensures TurnsUpTo(job, k)[i] == job.TurnOf(i)
  {
    if i < k - 1 {
      TurnsAt(job, k - 1, i);
    }
  }

  function LinesOf(t: Turn, n: Note): seq<Action> {
    if t.Turn? then Lines(t.actions, Base(n.path)) else []
  }

  function CandidateOf(t: Turn, n: Note): seq<string> {
    if t.Turn? && t.candidate then [Base(n.path)] else []
  }

  // The report of the first k notes: their turns' lines, in vault order.
  function LinesUpTo(turns: seq<Turn>, notes: seq<Note>, k: nat): seq<Action>
    requires k <= |turns| == |notes|
  {
    if k == 0 then [] else LinesUpTo(turns, notes, k - 1) + LinesOf(turns[k - 1], notes[k - 1])
  }

  function CandidatesUpTo(turns: seq<Turn>, notes: seq<Note>, k: nat): seq<string>
    requires k <= |turns| == |notes|
  {
    if k == 0 then [] else CandidatesUpTo(turns, notes, k - 1) + CandidateOf(turns[k - 1], notes[k - 1])
  }

  // The first k notes' turns all ran to their end.
  predicate Completes(turns: seq<Turn>, k: nat)
    requires k <= |turns|
  {
    forall i | 0 <= i < k :: turns[i].Turn?
  }

  // Note i's turn ended with this line in it, or with the note nominated.
  predicate Says(turns: seq<Turn>, notes: seq<Note>, i: nat, a: Action)
    requires i < |turns| == |notes|
  {
    turns[i].Turn? && a.kind in turns[i].actions && a.name == Base(notes[i].path)
  }

  predicate Nominates(turns: seq<Turn>, notes: seq<Note>, i: nat, name: string)
    requires i < |turns| == |notes|
  {
    turns[i].Turn? && turns[i].candidate && name == Base(notes[i].path)
  }

  // A line is in the report exactly when some note's turn says it.
  lemma {:induction false} ReportIs(turns: seq<Turn>, notes: seq<Note>, k: nat, a: Action)
    requires k <= |turns| == |notes|
    ensures a in LinesUpTo(turns, notes, k) <==> exists i | 0 <= i < k :: Says(turns, notes, i, a)
  {
    if k > 0 {
      ReportIs(turns, notes, k - 1, a);
      LinesAre(turns[k - 1], notes[k - 1], a);
      assert Says(turns, notes, k - 1, a) <==> a in LinesOf(turns[k - 1], notes[k - 1]);
      hide LinesOf, Says, Base;
    }
  }

  // And a name is among the candidates exactly when some turn nominates it.
  lemma {:induction false} CandidatesAre(turns: seq<Turn>, notes: seq<Note>, k: nat, name: string)
    requires k <= |turns| == |notes|
    ensures name in CandidatesUpTo(turns, notes, k) <==> exists i | 0 <= i < k :: Nominates(turns, notes, i, name)
  {
    if k > 0 {
      CandidatesAre(turns, notes, k - 1, name);
      assert Nominates(turns, notes, k - 1, name) <==> name in CandidateOf(turns[k - 1], notes[k - 1]);
      hide CandidateOf, Nominates, Base;
    }
  }

  lemma LinesAre(t: Turn, n: Note, a: Action)
    ensures a in LinesOf(t, n) <==> t.Turn? && a.kind in t.actions && a.name == Base(n.path)
  {
    if t.Turn? && a.kind in t.actions && a.name == Base(n.path) {
      var j :| 0 <= j < |t.actions| && t.actions[j] == a.kind;
      assert Lines(t.actions, Base(n.path))[j] == a;
    }
  }

  // Over a whole run: where a name belongs to one note, the mutations reported
  // under it are exactly the difference between the note the run found and the
  // note it left.
  lemma RunReportIsTheDiff(job: Job, i: nat, k: Kind)
    requires job.Valid() && !job.dry && i < |job.notes| && Laws.Reportable(k) && Completes(Turns(job), |job.notes|)
    requires Gates.Live(job.notes[i]) && !Laws.RepeatsDispute(job.notes[i], job.asks[i], job.now, job.first[i])
    requires forall j | 0 <= j < |job.notes| && Base(job.notes[j].path) == Base(job.notes[i].path) :: j == i
    ensures var n := job.notes[i];
            Action(k, Base(n.path)) in LinesUpTo(Turns(job), job.notes, |job.notes|) <==>
            Laws.Tells(k, n, Turns(job)[i].landed)
  {
    var n, a := job.notes[i], Action(k, Base(job.notes[i].path));
    ReportIs(Turns(job), job.notes, |job.notes|, a);
    TurnsAt(job, |job.notes|, i);
    Laws.ReportIsTheDiff(n, job.asks[i], job.cited[i], job.advised[i], job.now, job.first[i], job.second[i]);
    assert Turns(job)[i].Turn?;
    assert k in Turns(job)[i].actions ==> Says(Turns(job), job.notes, i, a);
  }

  // A note this name belongs to, as this run found it and as it left it, is
  // canon by right.
  ghost predicate IsCanon(notes: seq<Note>, disk: seq<Note>, name: string, now: Time)
    requires |notes| == |disk|
  {
    exists i | 0 <= i < |notes| ::
      && Base(notes[i].path) == name && notes[i].graduatedAt.None?
      && disk[i].graduatedAt == Some(now) && disk[i].maturity == Stable
      && disk[i].status != Paused && disk[i].status != Disputed
  }

  ghost predicate GraduationsStand(actions: seq<Action>, notes: seq<Note>, disk: seq<Note>, now: Time)
    requires |notes| == |disk|
  {
    forall a | a in actions && a.kind == KGraduated :: IsCanon(notes, disk, a.name, now)
  }

  lemma GraduatedIsCanon(job: Job, disk: seq<Note>, a: Action)
    requires job.Valid() && !job.dry && |disk| == |job.notes| && a.kind == KGraduated
    requires var turns, n := Turns(job), |job.notes|;
             a in LinesUpTo(turns, job.notes, n) && forall i | 0 <= i < n && turns[i].Turn? :: disk[i] == turns[i].landed
    ensures IsCanon(job.notes, disk, a.name, job.now)
  {
    var turns, n := Turns(job), |job.notes|;
    ReportIs(turns, job.notes, n, a);
    var i :| 0 <= i < n && Says(turns, job.notes, i, a);
    TurnsAt(job, n, i);
    Gates.GraduatesIff(job.notes[i], job.asks[i], job.cited[i], job.advised[i], job.now, false, job.first[i], job.second[i]);
  }

  // Whatever a whole run reports as graduated is so in the vault.
  lemma ReportedAreCanon(job: Job, disk: seq<Note>)
    requires job.Valid() && !job.dry && |disk| == |job.notes| && Completes(Turns(job), |job.notes|)
    requires var turns := Turns(job); forall i | 0 <= i < |job.notes| :: disk[i] == turns[i].landed
    ensures GraduationsStand(LinesUpTo(Turns(job), job.notes, |job.notes|), job.notes, disk, job.now)
  {
    forall a | a in LinesUpTo(Turns(job), job.notes, |job.notes|) && a.kind == KGraduated
      ensures IsCanon(job.notes, disk, a.name, job.now)
    {
      GraduatedIsCanon(job, disk, a);
    }
  }

  datatype Ended = Done | Refused | Aborted

  function EndOf(t: Turn): Ended {
    match t case Rejected => Refused case Failed => Aborted case Turn(_, _, _, _) => Done
  }

  lemma FewLines(k: Kind, name: string)
    ensures Lines([], name) == [] && Lines([k], name) == [Action(k, name)] && Lines([] + [k], name) == [Action(k, name)]
  {
  }

  // The same write counted on from earlier ones.
  lemma CountsOn(dry: bool, result: WriteResult, held: Note, next: Note, done: seq<Kind>, pending: seq<Kind>, writes: nat)
    requires KSkipped !in done && KSkipped !in pending
    ensures var t, t0 := Settle(dry, result, held, next, done, pending, writes),
            Settle(dry, result, held, next, done, pending, 0);
            && EndOf(t) == EndOf(t0)
            && (t0.Turn? ==> t == t0.(writes := t0.writes + writes) && Landings(t) == Landings(t0) + writes)
  {
  }

  // A turn that stays in place, once its first write is over.
  function Ending(n: Note, held: Note, staged: Note, moves: seq<Kind>, graduate: bool, advised: bool, now: Time,
                  dry: bool, result: WriteResult, writes: nat): Turn {
    if !graduate then Turn(held, moves, writes, staged.maturity == Stable && n.status != Paused && n.graduatedAt.None?)
    else if !MayGraduate(n, staged) then Rejected
    else Settle(dry, result, held, staged.(graduatedAt := Some(now)), moves, Advice(advised) + [KGraduated], writes)
  }

  class Engine {
    const now: Time
    const dryRun: bool
    var actions: seq<Action>
    var candidates: seq<string>
    var disk: seq<Note> // what this run has left of each note's file
    var left: seq<Note> // files a broken move has left at their old path besides
    var changedFiles: nat

    constructor (notes: seq<Note>, now: Time, dryRun: bool)
      ensures this.now == now && this.dryRun == dryRun
      ensures actions == [] && candidates == [] && disk == notes && left == [] && changedFiles == 0
    {
      this.now, this.dryRun := now, dryRun;
      actions, candidates, disk, left, changedFiles := [], [], notes, [], 0;
    }

    // Drops every line recorded since mark and puts one in their place.
    method ReplaceSince(mark: int, a: Action)
      modifies this`actions
      ensures actions == if 0 <= mark <= |old(actions)| then old(actions)[..mark] + [a] else old(actions)
    {
      if mark < 0 || mark > |actions| {
        return;
      }
      actions := actions[..mark] + [a];
    }

    // One guarded write of note i, with the bookkeeping every write site shares.
    method Write(i: nat, n: Note, result: WriteResult, mark: nat, name: string) returns (ended: bool, r: Ended)
      requires i < |disk| && mark <= |actions|
      modifies this`actions, this`disk, this`changedFiles, this`left
      ensures result == Landed ==>
                !ended && actions == old(actions) && disk == old(disk)[i := n] && changedFiles == old(changedFiles) + 1
      ensures result == Changed ==>
                ended && r == Done && actions == old(actions)[..mark] + [Action(KSkipped, name)]
                && disk == old(disk) && changedFiles == old(changedFiles)
      ensures result == Broken ==> ended && r == Aborted && disk == old(disk)
      ensures result == Unindexed ==> ended && r == Aborted && disk == old(disk)[i := n]
      ensures left == old(left) + if result == Unindexed && n.path != old(disk)[i].path then [old(disk)[i]] else []
    {
      ended, r := true, Done;
      match result {
        case Landed =>
          disk := disk[i := n];
          changedFiles := changedFiles + 1;
          ended := false;
        case Changed =>
          ReplaceSince(mark, Action(KSkipped, name));
        case Broken =>
          r := Aborted;
        case Unindexed =>
          if n.path != disk[i].path {
            left := left + [disk[i]];
          }
          disk := disk[i := n];
          r := Aborted;
      }
    }

    // An assertion of belief: stability grows, maturity may advance.
    method Reinforce(c: Core) returns (c': Core, promoted: bool)
      ensures c' == Grow(c) && promoted == (c'.maturity != c.maturity)
    {
      var stability, count, maturity := c.stability * STABILITY_GROWTH, c.count + 1, c.maturity;
      promoted := false;
      if maturity == Seed {
        maturity, promoted := Developing, true;
      } else if maturity == Developing && count >= STABLE_MIN_RUNS {
        maturity, promoted := Stable, true;
        stability := stability * STABLE_FACTOR;
      }
      c' := Core(stability, count, maturity);
    }

    // Ages, reinforces and re-reads one note; `n'` carries the staged frontmatter.
    method Weigh(n: Note, reinforced: bool, cited: bool)
      returns (n': Note, v: Verdict, moves: seq<Kind>)
      ensures v == Judge(n, reinforced, cited, now)
      ensures moves == Movements(n, v, reinforced) && (!v.changed ==> moves == [])
      ensures n' == if v.changed then Staged(n, v, reinforced, now) else n
    {
      var anchor, hadStability := Anchor(n), HasStability(n);
      var core := Core(if hadStability then n.stability.value else InitStability(n.count, n.maturity), n.count, n.maturity);
      var origStability := core.stability;
      var paused, graduatedAlready := n.status == Paused, n.graduatedAt.Some?;
      var citedAndInBudget := cited && PASSIVE_REFRESH_BUDGET - (now - anchor) > 0;
      var moveShielded := paused || graduatedAlready || citedAndInBudget;
      var confFrozen := paused || graduatedAlready;
      var clearDispute, promoted := false, false;
      if reinforced {
        core, promoted := Reinforce(core);
        anchor := now;
        clearDispute := n.status == Disputed;
      }
      var tenths, faded := Round1(n.conf), false;
      if !confFrozen {
        var age, s := Days(anchor, now), ClampStability(core.stability);
        tenths, faded := Curve.Tenths(age, s), Curve.Faded(age, s);
      }
      var changed := reinforced || tenths != Round1(n.conf) || !hadStability || core.stability != origStability;
      moves := [];
      if reinforced {
        moves := moves + [KReinforced];
        if promoted { moves := moves + [KPromoted]; }
        if clearDispute { moves := moves + [KDisputeCleared]; }
      } else if !confFrozen && tenths < Round1(n.conf) {
        moves := moves + [KDecayed];
      } else if changed {
        moves := moves + [KRecalibrated];
      }
      var willArchiveFaded := !confFrozen && !citedAndInBudget && faded;
      var willArchiveAncient := !reinforced && !moveShielded && now - n.updated > ANCIENT_AFTER;
      n' := n;
      if changed {
        n' := n'.(conf := FromTenths(tenths), maturity := core.maturity, count := core.count,
                 stability := Some(Round2(core.stability)));
        if reinforced {
          n' := n'.(explicitAt := Some(now), lastReinforced := Some(now));
        }
        if clearDispute {
          n' := n'.(status := Active, disputed := None);
        }
      }
      v := Verdict(core, tenths, changed, willArchiveFaded, willArchiveAncient);
    }

    ghost predicate Shows(i: nat, t: Turn, name: string, actions0: seq<Action>, candidates0: seq<string>,
                          disk0: seq<Note>, changed0: int)
      reads this
      requires i < |disk0|
    {
      && t.Turn? && (KSkipped in t.actions ==> t.writes > 0)
      && actions == actions0 + Lines(t.actions, name)
      && candidates == candidates0 + (if t.candidate then [name] else [])
      && disk == disk0[i := t.landed]
      && changedFiles == changed0 + Landings(t)
    }

    // A terminal write: its lines are appended first and stand or fall with it.
    method Finish(i: nat, n: Note, next: Note, lines: seq<Kind>, result: WriteResult, name: string) returns (r: Ended)
      requires i < |disk| && disk[i] == n && KSkipped !in lines
      modifies this`actions, this`disk, this`changedFiles, this`left
      ensures |disk| == |old(disk)| && forall j | 0 <= j < |disk| && j != i :: disk[j] == old(disk)[j]
      ensures |left| <= |old(left)| + 1 && (r != Aborted ==> left == old(left))
      ensures r == EndOf(Settle(dryRun, result, n, next, [], lines, 0))
      ensures r == Done ==> Shows(i, Settle(dryRun, result, n, next, [], lines, 0), name, old(actions), old(candidates),
              old(disk), old(changedFiles))
    {
      var mark := |actions|;
      actions := actions + Lines(lines, name);
      if dryRun {
        return Done;
      }
      var ended;
      ended, r := Write(i, next, result, mark, name);
      if !ended {
        r := Done;
      }
    }

    // The graduation's own write, after the lines of the one that landed.
    method Graduate(i: nat, n: Note, held: Note, staged: Note, advised: bool, result: WriteResult,
                    mark: nat, name: string, ghost moves: seq<Kind>, ghost before: seq<Action>) returns (r: Ended)
      requires i < |disk| && disk[i] == held && mark <= |actions| && (dryRun || mark == |actions|)
      requires actions == before + Lines(moves, name) && KSkipped !in moves
      modifies this`actions, this`disk, this`changedFiles, this`left
      ensures |disk| == |old(disk)| && forall j | 0 <= j < |disk| && j != i :: disk[j] == old(disk)[j]
      ensures |left| <= |old(left)| + 1 && (r != Aborted ==> left == old(left))
      ensures !MayGraduate(n, staged) ==> r == Refused && disk == old(disk)
      ensures MayGraduate(n, staged) ==>
                var t := Settle(dryRun, result, held, staged.(graduatedAt := Some(now)), moves,
                    Advice(advised) + [KGraduated], 0);
                && r == EndOf(t)
                && (r == Done ==>
                      && actions == before + Lines(t.actions, name) && disk == old(disk)[i := t.landed]
                      && changedFiles == old(changedFiles) + Landings(t))
    {
      if n.graduatedAt.Some? || staged.maturity != Stable || n.status == Paused || staged.status == Disputed {
        return Refused;
      }
      LinesAppend(moves, Advice(advised) + [KGraduated], name);
      LinesAppend(moves, [KSkipped], name);
      actions := actions + Lines(Advice(advised) + [KGraduated], name);
      r := Done;
      if !dryRun {
        var ended;
        ended, r := Write(i, staged.(graduatedAt := Some(now)), result, mark, name);
        if !ended {
          r := Done;
        }
      }
    }

    // What follows the write in place: the graduation, or the nomination for one.
    method Conclude(i: nat, n: Note, staged: Note, graduate: bool, advised: bool, result: WriteResult, mark: nat,
                    name: string, ghost moves: seq<Kind>, ghost before: seq<Action>, ghost writes: nat)
      returns (r: Ended)
      requires i < |disk| && mark <= |actions| && (dryRun || mark == |actions|)
      requires actions == before + Lines(moves, name) && KSkipped !in moves
      modifies this`actions, this`candidates, this`disk, this`changedFiles, this`left
      ensures |disk| == |old(disk)| && forall j | 0 <= j < |disk| && j != i :: disk[j] == old(disk)[j]
      ensures |left| <= |old(left)| + 1 && (r != Aborted ==> left == old(left))
      ensures var t := Ending(n, old(disk)[i], staged, moves, graduate, advised, now, dryRun, result, writes);
              && r == EndOf(t)
              && (r == Done ==>
                    Shows(i, t, name, before, old(candidates), old(disk), old(changedFiles) - writes))
    {
      hide Lines, MayGraduate;
      if graduate {
        CountsOn(dryRun, result, disk[i], staged.(graduatedAt := Some(now)), moves, Advice(advised) + [KGraduated], writes);
        r := Graduate(i, n, disk[i], staged, advised, result, mark, name, moves, before);
        return;
      }
      if staged.maturity == Stable && n.status != Paused && n.graduatedAt.None? {
        candidates := candidates + [name];
      }
      r := Done;
    }

    // Written in place, then perhaps graduated.
    method RewriteInPlace(i: nat, n: Note, changed: bool, staged: Note, moves: seq<Kind>, graduate: bool, advised: bool,
                          first: WriteResult, second: WriteResult, name: string) returns (r: Ended)
      requires i < |disk| && disk[i] == n && KSkipped !in moves && (!changed ==> moves == [])
      modifies this`actions, this`candidates, this`disk, this`changedFiles, this`left
      ensures |disk| == |old(disk)| && forall j | 0 <= j < |disk| && j != i :: disk[j] == old(disk)[j]
      ensures |left| <= |old(left)| + 1 && (r != Aborted ==> left == old(left))
      ensures var t := Stay(n, changed, staged, moves, graduate, advised, now, dryRun, first, second);
              && r == EndOf(t)
              && (r == Done ==> Shows(i, t, name, old(actions), old(candidates), old(disk), old(changedFiles)))
    {
      hide Lines, MayGraduate;
      var mark := |actions|;
      actions := actions + Lines(moves, name);
      FewLines(KSkipped, name);
      assert [] + moves == moves;
      if changed && !dryRun {
        var ended;
        ended, r := Write(i, staged, first, mark, name);
        if ended {
          return;
        }
        mark := |actions|;
      }
      r := Conclude(i, n, staged, graduate, advised, if changed then second else first, mark, name, moves, old(actions),
                    if changed && !dryRun then 1 else 0);
    }

    // Everything after the verdict.
    method CarryOut(i: nat, n: Note, v: Verdict, staged: Note, moves: seq<Kind>, graduate: bool, advised: bool,
                    first: WriteResult, second: WriteResult, name: string) returns (r: Ended)
      requires i < |disk| && disk[i] == n && Laws.Plain(moves) && (!v.changed ==> moves == [])
      modifies this`actions, this`candidates, this`disk, this`changedFiles, this`left
      ensures |disk| == |old(disk)| && forall j | 0 <= j < |disk| && j != i :: disk[j] == old(disk)[j]
      ensures |left| <= |old(left)| + 1 && (r != Aborted ==> left == old(left))
      ensures var t := Carry(n, v, staged, moves, graduate, advised, now, dryRun, first, second);
              && r == EndOf(t)
              && (r == Done ==> Shows(i, t, name, old(actions), old(candidates), old(disk), old(changedFiles)))
    {
      if v.faded {
        r := Finish(i, n, Retired(staged, Faded, now), moves + [KArchivedFaded], first, name);
      } else if v.ancient {
        r := Finish(i, n, Retired(staged, Archived, now), moves + [KArchivedAncient], first, name);
      } else {
        r := RewriteInPlace(i, n, v.changed, staged, moves, graduate, advised, first, second, name);
      }
    }

    // One iteration of the loop.
    method CompileNote(i: nat, n: Note, ask: Ask, cited: bool, advised: bool, first: WriteResult, second: WriteResult)
      returns (r: Ended)
      requires i < |disk| && disk[i] == n
      modifies this`actions, this`candidates, this`disk, this`changedFiles, this`left
      ensures |disk| == |old(disk)| && forall j | 0 <= j < |disk| && j != i :: disk[j] == old(disk)[j]
      ensures |left| <= |old(left)| + 1 && (r != Aborted ==> left == old(left))
      ensures var t := Compile(n, ask, cited, advised, now, dryRun, first, second);
              && r == EndOf(t)
              && (r == Done ==> Shows(i, t, Base(n.path), old(actions), old(candidates), old(disk), old(changedFiles)))
    {
      var name := Base(n.path);
      if n.stage != Notes || n.status == Falsified {
        return Done;
      }
      if ask.falsify.Some? {
        if Blank(ask.falsify.value) {
          return Refused;
        }
        var next := n.(status := Falsified, falsified := Some(Stamp(ask.falsify.value, now)));
        if ask.supersede.Some? {
          next := next.(supersededBy := ask.supersede);
        }
        r := Finish(i, n, next, Advice(advised) + [KFalsified], first, name);
        return;
      }
      if ask.dispute.Some? {
        if Blank(ask.dispute.value) {
          return Refused;
        }
        var next := n.(status := Disputed, disputed := Some(Stamp(ask.dispute.value, now)));
        r := Finish(i, n, next, [KDisputed], first, name);
        return;
      }
      var staged, v, moves := Weigh(n, ask.reinforce, cited);
      Laws.MovementsArePlain(n, v, ask.reinforce);
      r := CarryOut(i, n, v, staged, moves, ask.graduate, advised, first, second, name);
    }

    method Visit(job: Job, i: nat, ghost turns: seq<Turn>) returns (r: Ended)
      requires job.Valid() && job.now == now && job.dry == dryRun && turns == Turns(job)
      requires i < |disk| == |job.notes| && disk[i] == job.notes[i]
      modifies this`actions, this`candidates, this`disk, this`changedFiles, this`left
      ensures |disk| == |old(disk)| && forall j | 0 <= j < |disk| && j != i :: disk[j] == old(disk)[j]
      ensures |left| <= |old(left)| + 1 && (r != Aborted ==> left == old(left))
      ensures r == EndOf(turns[i])
      ensures r == Done ==>
                && actions == old(actions) + LinesOf(turns[i], job.notes[i])
                && candidates == old(candidates) + CandidateOf(turns[i], job.notes[i])
                && disk[i] == turns[i].landed
    {
      TurnsAt(job, |job.notes|, i);
      r := CompileNote(i, job.notes[i], job.asks[i], job.cited[i], job.advised[i], job.first[i], job.second[i]);
    }

    // The whole pass. When every turn runs to its end, the report is the turns'
    // lines in vault order and the disk holds what they landed; otherwise the
    // first note that refused or broke ends the run.
    method Run(job: Job) returns (r: Ended)
      requires job.Valid() && job.now == now && job.dry == dryRun
      requires disk == job.notes && left == [] && actions == [] && candidates == [] && changedFiles == 0
      modifies this
      ensures var turns, n := Turns(job), |job.notes|;
              && ((r == Done) <==> Completes(turns, n))
              && (r == Done ==>
                    && actions == LinesUpTo(turns, job.notes, n) && candidates == CandidatesUpTo(turns, job.notes, n)
                    && |disk| == n && forall i | 0 <= i < n :: disk[i] == turns[i].landed)
              && (r != Done ==> exists i | 0 <= i < n :: EndOf(turns[i]) == r && Completes(turns, i))
      ensures |left| <= 1 && (r != Aborted ==> left == [])
      ensures r == Done && !dryRun ==> GraduationsStand(actions, job.notes, disk, now)
    {
      hide TurnsUpTo, GraduationsStand, LinesOf, CandidateOf;
      ghost var turns := Turns(job);
      for i := 0 to |job.notes|
        invariant |disk| == |job.notes| && left == []
        invariant Completes(turns, i)
        invariant forall j | 0 <= j < i :: disk[j] == turns[j].landed
        invariant forall j | i <= j < |disk| :: disk[j] == job.notes[j]
        invariant actions == LinesUpTo(turns, job.notes, i) && candidates == CandidatesUpTo(turns, job.notes, i)
      {
        r := Visit(job, i, turns);
        if r != Done {
          return;
        }
      }
      r := Done;
      if !dryRun {
        ReportedAreCanon(job, disk);
      }
    }
  }

  // ---- other notes' lines are untouched ----

  function LinesFrom(turns: seq<Turn>, notes: seq<Note>, k: nat): seq<Action>
    requires k <= |turns| == |notes|
    decreases |turns| - k
  {
    if k == |turns| then [] else LinesOf(turns[k], notes[k]) + LinesFrom(turns, notes, k + 1)
  }

  lemma {:induction false} ReportSplits(turns: seq<Turn>, notes: seq<Note>, k: nat)
    requires k <= |turns| == |notes|
    ensures LinesUpTo(turns, notes, |turns|) == LinesUpTo(turns, notes, k) + LinesFrom(turns, notes, k)
    decreases |turns| - k
  {
    hide LinesOf;
    if k < |turns| {
      ReportSplits(turns, notes, k + 1);
    }
  }

  lemma {:induction false} SameBefore(turns: seq<Turn>, notes: seq<Note>, j: nat, t: Turn, k: nat)
    requires k <= j < |turns| == |notes|
    ensures LinesUpTo(turns, notes, k) == LinesUpTo(turns[j := t], notes, k)
  {
    hide LinesOf;
    if k > 0 {
      SameBefore(turns, notes, j, t, k - 1);
    }
  }

  lemma {:induction false} SameAfter(turns: seq<Turn>, notes: seq<Note>, j: nat, t: Turn, k: nat)
    requires j < k <= |turns| == |notes|
    ensures LinesFrom(turns, notes, k) == LinesFrom(turns[j := t], notes, k)
    decreases |turns| - k
  {
    hide LinesOf;
    if k < |turns| {
      SameAfter(turns, notes, j, t, k + 1);
    }
  }

  // The same run, but note j's writes fare differently.
  function Disturbed(job: Job, j: nat, first: WriteResult, second: WriteResult): Job
    requires job.Valid() && j < |job.notes|
  {
    job.(first := job.first[j := first], second := job.second[j := second])
  }

  lemma DisturbedElsewhere(job: Job, j: nat, first: WriteResult, second: WriteResult)
    requires job.Valid() && j < |job.notes|
    ensures var other := Disturbed(job, j, first, second); Turns(other) == Turns(job)[j := Turns(other)[j]]
  {
    var other := Disturbed(job, j, first, second);
    forall i | 0 <= i < |job.notes| ensures Turns(other)[i] == Turns(job)[j := Turns(other)[j]][i] {
      TurnsAt(job, |job.notes|, i);
      TurnsAt(other, |job.notes|, i);
    }
  }

  lemma ReportAround(turns: seq<Turn>, notes: seq<Note>, j: nat, t: Turn)
    requires j < |turns| == |notes|
    ensures LinesUpTo(turns[j := t], notes, |turns|)
            == LinesUpTo(turns, notes, j) + LinesOf(t, notes[j]) + LinesFrom(turns, notes, j + 1)
  {
    ReportSplits(turns[j := t], notes, j + 1);
    SameBefore(turns, notes, j, t, j);
    SameAfter(turns, notes, j, t, j + 1);
  }

  // However note j's writes fare, the report keeps every line of the notes
  // before it and after it, and the disk every other note.
  lemma SkipsAreLocal(job: Job, j: nat, first: WriteResult, second: WriteResult)
    requires job.Valid() && j < |job.notes|
    ensures var notes, n, other := job.notes, |job.notes|, Disturbed(job, j, first, second);
            var before, after := LinesUpTo(Turns(job), notes, j), LinesFrom(Turns(job), notes, j + 1);
            && Turns(other) == Turns(job)[j := Turns(other)[j]]
            && LinesUpTo(Turns(job), notes, n) == before + LinesOf(Turns(job)[j], notes[j]) + after
            && LinesUpTo(Turns(other), notes, n) == before + LinesOf(Turns(other)[j], notes[j]) + after
  {
    DisturbedElsewhere(job, j, first, second);
    var turns := Turns(job);
    assert turns[j := turns[j]] == turns;
    ReportAround(turns, job.notes, j, turns[j]);
    ReportAround(turns, job.notes, j, Turns(Disturbed(job, j, first, second))[j]);
  }
}

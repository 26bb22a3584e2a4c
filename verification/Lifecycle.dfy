// What one compile pass does to one note: the specification the engine's loop
// is proved against, and the vocabulary of its report.
module Lifecycle {
  import opened Arithmetic
  import opened Text
  import opened Curve

  type Time = int // seconds

  const DAY: int := 86400
  const ANCIENT_AFTER: int := 180 * DAY
  const PASSIVE_REFRESH_BUDGET: int := 180 * DAY
  const STABLE_MIN_RUNS: nat := 3

  datatype Status = Active | Disputed | Paused | Falsified | Faded | Archived
  datatype Maturity = Seed | Developing | Stable
  datatype Stage = Entries | Notes | Reflections | Archive

  datatype Stamp = Stamp(reason: string, when: Time)

  // The frontmatter a pass reads and writes. `stability` is None when absent,
  // `explicitAt` (last_explicit_reinforce) when absent or malformed.
  datatype Note = Note(
    id: string, path: string, stage: Stage, status: Status,
    conf: real, maturity: Maturity, count: nat, stability: Option<real>,
    created: Time, updated: Time, explicitAt: Option<Time>, lastReinforced: Option<Time>,
    graduatedAt: Option<Time>, archivedAt: Option<Time>,
    falsified: Option<Stamp>, supersededBy: Option<string>, disputed: Option<Stamp>)

  // What the run's options ask of this note.
  datatype Ask = Ask(falsify: Option<string>, supersede: Option<string>, dispute: Option<string>,
                     reinforce: bool, graduate: bool)

  datatype Kind =
    | KFalsified | KDisputed | KReinforced | KPromoted | KDisputeCleared | KDecayed | KRecalibrated
    | KArchivedFaded | KArchivedAncient | KGraduated | KSkipped | KRelatedContext

  // ---- arithmetic ----

  function Round1(x: real): int { (10.0 * x + 0.5).Floor }
  function Round2(x: real): real { (100.0 * x + 0.5).Floor as real / 100.0 }
  function FromTenths(k: int): real { k as real / 10.0 }

  // initStability: what a history of reinforces would have accumulated.
  function InitStability(count: nat, maturity: Maturity): real {
    FRESH_STABILITY * Power(STABILITY_GROWTH, count) * (if maturity == Stable then STABLE_FACTOR else 1.0)
  }

  function Days(from: Time, to: Time): real {
    ClampAge((to - from) as real / DAY as real)
  }

  // ---- reinforcement ----

  datatype Core = Core(stability: real, count: nat, maturity: Maturity)

  function Grow(c: Core): Core {
    var s, n := c.stability * STABILITY_GROWTH, c.count + 1;
    match c.maturity
    case Seed => Core(s, n, Developing)
    case Developing => if n >= STABLE_MIN_RUNS then Core(s * STABLE_FACTOR, n, Stable) else Core(s, n, Developing)
    case Stable => Core(s, n, Stable)
  }

  // ---- one note ----

  predicate HasStability(n: Note) { n.stability.Some? && n.stability.value > 0.0 }

  function CoreOf(n: Note): Core {
    Core(if HasStability(n) then n.stability.value else InitStability(n.count, n.maturity), n.count, n.maturity)
  }

  function Anchor(n: Note): Time { if n.explicitAt.Some? then n.explicitAt.value else n.created }

  predicate Frozen(n: Note) { n.status == Paused || n.graduatedAt.Some? }

  // Everything the pass works out before it touches the file.
  datatype Verdict = Verdict(core: Core, tenths: int, changed: bool, faded: bool, ancient: bool)

  function Judge(n: Note, reinforce: bool, cited: bool, now: Time): Verdict {
    var before := CoreOf(n);
    var core := if reinforce then Grow(before) else before;
    var age := Days(if reinforce then now else Anchor(n), now);
    var s := ClampStability(core.stability);
    var tenths := if Frozen(n) then Round1(n.conf) else Curve.Tenths(age, s);
    var shielded := cited && PASSIVE_REFRESH_BUDGET - (now - Anchor(n)) > 0;
    Verdict(
      core, tenths,
      reinforce || tenths != Round1(n.conf) || !HasStability(n) || core.stability != before.stability,
      !Frozen(n) && !shielded && Curve.Faded(age, s),
      !reinforce && !Frozen(n) && !shielded && now - n.updated > ANCIENT_AFTER)
  }

  // The frontmatter staged when anything changed.
  function Staged(n: Note, v: Verdict, reinforce: bool, now: Time): Note {
    var m := n.(conf := FromTenths(v.tenths), maturity := v.core.maturity, count := v.core.count,
                stability := Some(Round2(v.core.stability)));
    var r := if reinforce then m.(explicitAt := Some(now), lastReinforced := Some(now)) else m;
    if reinforce && n.status == Disputed then r.(status := Active, disputed := None) else r
  }

  // Moved into archive/ under its own file name, the id untouched.
  function Retired(n: Note, status: Status, now: Time): Note {
    n.(path := "archive/" + FileName(n.path), stage := Archive, status := status, archivedAt := Some(now))
  }

  function Movements(n: Note, v: Verdict, reinforce: bool): seq<Kind> {
    if reinforce then
      [KReinforced] + (if v.core.maturity != n.maturity then [KPromoted] else [])
      + (if n.status == Disputed then [KDisputeCleared] else [])
    else if !Frozen(n) && v.tenths < Round1(n.conf) then [KDecayed]
    else if v.changed then [KRecalibrated]
    else []
  }

  // Unindexed: the file was written, and indexing it or, for a move, removing
  // the old one then failed.
  datatype WriteResult = Landed | Changed | Broken | Unindexed

  // What is left of a note when its turn is over: what the vault holds as far as
  // this run wrote it, its report lines, the writes attempted, and whether it is
  // a graduation candidate. Rejected and Failed abort the whole run.
  datatype Turn =
    | Rejected
    | Failed
    | Turn(landed: Note, actions: seq<Kind>, writes: nat, candidate: bool)

  // The rest of a turn after a write of `next`: `done` landed before it,
  // `pending` stands or falls with it.
  function Settle(dry: bool, result: WriteResult, before: Note, next: Note, done: seq<Kind>, pending: seq<Kind>,
                  writes: nat): Turn {
    if dry then Turn(before, done + pending, writes, false)
    else match result
    case Landed => Turn(next, done + pending, writes + 1, false)
    case Changed => Turn(before, done + [KSkipped], writes + 1, false)
    case Broken => Failed
    case Unindexed => Failed
  }

  predicate Blank(reason: string) { Trim(reason) == "" }

  // A refused graduation aborts the run.
  predicate MayGraduate(n: Note, staged: Note) {
    n.graduatedAt.None? && staged.maturity == Stable && n.status != Paused && staged.status != Disputed
  }

  function Advice(advised: bool): seq<Kind> { if advised then [KRelatedContext] else [] }

  // A note that stays where it is: one write if anything changed, and then the
  // graduation's own.
  function Stay(n: Note, changed: bool, staged: Note, moves: seq<Kind>, graduate: bool, advised: bool, now: Time,
                dry: bool, first: WriteResult, second: WriteResult): Turn
  {
    var inPlace := if changed then Settle(dry, first, n, staged, [], moves, 0) else Turn(n, moves, 0, false);
    if !inPlace.Turn? || KSkipped in inPlace.actions then inPlace
    else if graduate then
      if !MayGraduate(n, staged) then Rejected else
      Settle(dry, if changed then second else first, inPlace.landed, staged.(graduatedAt := Some(now)), moves,
             Advice(advised) + [KGraduated], inPlace.writes)
    else
      inPlace.(candidate := staged.maturity == Stable && n.status != Paused && n.graduatedAt.None?)
  }

  // A judged note's writes; an archived one's is deferred to the move.
  function Carry(n: Note, v: Verdict, staged: Note, moves: seq<Kind>, graduate: bool, advised: bool, now: Time,
                 dry: bool, first: WriteResult, second: WriteResult): Turn
  {
    if v.faded then
      Settle(dry, first, n, Retired(staged, Faded, now), [], moves + [KArchivedFaded], 0)
    else if v.ancient then
      Settle(dry, first, n, Retired(staged, Archived, now), [], moves + [KArchivedAncient], 0)
    else
      Stay(n, v.changed, staged, moves, graduate, advised, now, dry, first, second)
  }

  // One note's turn. `first` and `second` answer its first and second write.
  function Compile(n: Note, ask: Ask, cited: bool, advised: bool, now: Time, dry: bool, first: WriteResult,
                   second: WriteResult): Turn {
    if n.stage != Notes || n.status == Falsified then Turn(n, [], 0, false)
    else if ask.falsify.Some? then
      if Blank(ask.falsify.value) then Rejected else
      var next := n.(status := Falsified, falsified := Some(Stamp(ask.falsify.value, now)),
                     supersededBy := if ask.supersede.Some? then ask.supersede else n.supersededBy);
      Settle(dry, first, n, next, [], Advice(advised) + [KFalsified], 0)
    else if ask.dispute.Some? then
      if Blank(ask.dispute.value) then Rejected else
      var next := n.(status := Disputed, disputed := Some(Stamp(ask.dispute.value, now)));
      Settle(dry, first, n, next, [], [KDisputed], 0)
    else
      var v := Judge(n, ask.reinforce, cited, now);
      var staged := if v.changed then Staged(n, v, ask.reinforce, now) else n;
      Carry(n, v, staged, Movements(n, v, ask.reinforce), ask.graduate, advised, now, dry, first, second)
  }
}

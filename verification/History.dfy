// Snapshot commits: CommitAll as a sequence of steps over the working tree, the
// real index and HEAD, with other writers' files landing between any two.
module History {
  import opened Text

  type Path = string
  type Tid = nat
  type Content = Option<string> // a file's bytes; None when there is no file
  type Tree = Path -> Content

  const OWNED: set<string> := {"entries", "notes", "reflections", "archive", "log.md", "index.md"}

  // The first segment of a path: a stage directory or a root file.
  function Root(p: Path): string {
    if p == [] || p[0] == '/' then [] else [p[0]] + Root(p[1..])
  }

  predicate Owned(p: Path) { Root(p) in OWNED }

  // What comes before the first slash, if there is one.
  lemma {:induction false} RootIs(p: Path)
    ensures Root(p) <= p && '/' !in Root(p) && (Root(p) == p || p[|Root(p)|] == '/')
  {
    if p != [] && p[0] != '/' {
      RootIs(p[1..]);
      assert p == [p[0]] + p[1..];
    }
  }

  lemma {:induction false} RootOf(dir: string, rest: string)
    requires '/' !in dir && (rest == "" || rest[0] == '/')
    ensures Root(dir + rest) == dir
  {
    if dir == "" {
      assert dir + rest == rest;
    } else {
      assert (dir + rest)[0] == dir[0] && (dir + rest)[1..] == dir[1..] + rest;
      RootOf(dir[1..], rest);
    }
  }

  lemma UnderIff(p: Path, dir: string)
    requires '/' !in dir
    ensures Root(p) == dir <==> p == dir || dir + "/" <= p
  {
    RootIs(p);
    if Root(p) == dir && p != dir {
      assert p[..|dir| + 1] == p[..|dir|] + [p[|dir|]] == dir + "/";
    }
    if p == dir || dir + "/" <= p {
      var rest := p[|dir|..];
      assert p == dir + rest && (rest == "" || rest[0] == (dir + "/")[|dir|]);
      RootOf(dir, rest);
    }
  }

  // The owned paths are the owned root files and everything below an owned
  // directory.
  lemma OwnedIff(p: Path)
    ensures Owned(p) <==> exists dir :: dir in OWNED && (p == dir || dir + "/" <= p)
  {
    if Owned(p) {
      SlashFree(Root(p));
      UnderIff(p, Root(p));
    }
    if dir :| dir in OWNED && (p == dir || dir + "/" <= p) {
      SlashFree(dir);
      UnderIff(p, dir);
    }
  }

  lemma SlashFree(dir: string)
    ensures dir in OWNED ==> '/' !in dir
  {
  }

  // How far one CommitAll has come. `since` is the version every path had when
  // it began; `at` the version it had when staged.
  datatype Pc =
    | Idle
    | Locked(since: Path -> nat)
    | Scanned(since: Path -> nat, roots: set<string>)
    | Read(since: Path -> nat, roots: set<string>, base: Tree)
    | Staged(since: Path -> nat, roots: set<string>, base: Tree, scratch: Tree, at: Path -> nat)
    | Committed(since: Path -> nat, roots: set<string>)
    | Finished(ok: bool, since: Path -> nat, roots: set<string>)

  datatype Commit = Commit(tree: Tree, parent: Tree, roots: set<string>)

  // past(p) lists every content p has had, the last being the file now there;
  // dirs are the stage directories on disk, empty ones included. HEAD's content
  // of p is version `ver(p)` of it.
  datatype State = State(past: Path -> seq<Content>, dirs: set<string>, born: bool, head: Tree, ver: Path -> nat, index: Tree,
                         log: seq<Commit>, lock: Option<Tid>, pcs: map<Tid, Pc>)

  function Last(s: seq<Content>): Content { if s == [] then None else s[|s| - 1] }
  function LastVersion(s: seq<Content>): nat { if s == [] then 0 else |s| - 1 }

  function Work(s: State): Tree { p => Last(s.past(p)) }
  function Now(s: State): Path -> nat { p => LastVersion(s.past(p)) }

  // The scanned roots taken from one tree, everything else from another.
  function Mix(roots: set<string>, from: Tree, rest: Tree): Tree { p => if Root(p) in roots then from(p) else rest(p) }

  ghost predicate Same(a: Tree, b: Tree) { forall p :: a(p) == b(p) }

  function Empty(): Tree { p => None }

  ghost predicate Occupied(t: Tree, root: string) { exists p: Path :: Root(p) == root && t(p) != None }

  // Whether the root can be stat'ed: a file there, a file below, or a directory.
  ghost predicate OnDisk(s: State, root: string) { root in s.dirs || Occupied(Work(s), root) }

  // presentOwnedPaths: on disk, or still tracked by the real index.
  ghost function Present(s: State): set<string> {
    set r | r in OWNED && (OnDisk(s, r) || Occupied(s.index, r))
  }

  // A file written (Some), its directory with it, or removed (None) by any
  // writer; a stage directory made, or removed once empty; entries another party
  // stages outside the owned paths; one step of a thread's CommitAll, `fine`
  // telling whether the git command involved succeeds.
  datatype Action =
    | Put(path: Path, content: Content)
    | MakeDir(root: string)
    | RemoveDir(root: string)
    | StageForeign(path: Path, content: Content)
    | Begin(t: Tid)
    | Advance(t: Tid, fine: bool)

  function PcOf(s: State, t: Tid): Pc { if t in s.pcs then s.pcs[t] else Idle }

  function Goto(s: State, t: Tid, pc: Pc): State { s.(pcs := s.pcs[t := pc]) }

  function Finish(s: State, t: Tid, ok: bool, since: Path -> nat, roots: set<string>): State {
    Goto(s, t, Finished(ok, since, roots)).(lock := None)
  }

  // HEAD is known to hold the staged versions of the scanned roots.
  function Recorded(s: State, roots: set<string>, at: Path -> nat): State {
    s.(ver := p => if Root(p) in roots then at(p) else s.ver(p))
  }

  ghost function AdvanceFrom(s: State, t: Tid, pc: Pc, fine: bool): State {
    match pc
    case Idle => s
    case Finished(_, _, _) => Goto(s, t, Idle)
    case Locked(since) =>
      var roots := Present(s);
      if !fine then Finish(s, t, false, since, roots)
      else if roots == {} then Finish(s, t, true, since, roots)
      else Goto(s, t, Scanned(since, roots))
    case Scanned(since, roots) =>
      if !fine then Finish(s, t, false, since, roots)
      else Goto(s, t, Read(since, roots, if s.born then s.head else Empty()))
    case Read(since, roots, base) =>
      if !fine then Finish(s, t, false, since, roots)
      else Goto(s, t, Staged(since, roots, base, Mix(roots, Work(s), base), Now(s)))
    case Staged(since, roots, base, scratch, at) =>
      if !fine then Finish(s, t, false, since, roots)
      else if (s.born && Same(scratch, s.head)) || (!s.born && Same(scratch, Empty())) then
        Finish(Recorded(s, roots, at), t, true, since, roots)
      else
        var moved := Recorded(s, roots, at).(born := true, head := scratch, log := s.log + [Commit(scratch, base, roots)]);
        Goto(moved, t, Committed(since, roots))
    case Committed(since, roots) =>
      if !fine then Finish(s, t, false, since, roots)
      else Finish(s.(index := Mix(roots, Work(s), s.index)), t, true, since, roots)
  }

  ghost function Step(s: State, a: Action): State {
    match a
    case Put(p, c) =>
      s.(past := q => if q == p then s.past(q) + [c] else s.past(q),
         dirs := if c != None && p != Root(p) then s.dirs + {Root(p)} else s.dirs)
    case MakeDir(r) => s.(dirs := s.dirs + {r})
    case RemoveDir(r) => if Occupied(Work(s), r) then s else s.(dirs := s.dirs - {r})
    case StageForeign(p, c) => if Owned(p) then s else s.(index := q => if q == p then c else s.index(q))
    case Begin(t) =>
      if s.lock == None && PcOf(s, t) == Idle then Goto(s, t, Locked(Now(s))).(lock := Some(t)) else s
    case Advance(t, fine) => AdvanceFrom(s, t, PcOf(s, t), fine)
  }

  ghost function Exec(s: State, run: seq<Action>): State {
    if run == [] then s else Step(Exec(s, run[..|run| - 1]), run[|run| - 1])
  }

  // ---- the invariant ----

  predicate Holding(pc: Pc) { !pc.Idle? && !pc.Finished? }

  // HEAD is version `ver` of each owned path's past.
  ghost predicate HeadIsPast(s: State) {
    forall p | Owned(p) :: s.ver(p) < |s.past(p)| && s.head(p) == s.past(p)[s.ver(p)]
  }

  ghost predicate SinceIsPast(s: State, since: Path -> nat) {
    forall p | Owned(p) :: since(p) < |s.past(p)|
  }

  // A path outside the scanned roots had been removed by the time of the scan.
  ghost predicate GoneSince(s: State, since: Path -> nat, p: Path) {
    exists m: nat :: since(p) <= m < |s.past(p)| && s.past(p)[m] == None
  }

  ghost predicate ScanIsComplete(s: State, since: Path -> nat, roots: set<string>) {
    roots <= OWNED && forall p | Owned(p) && Root(p) !in roots :: GoneSince(s, since, p)
  }

  ghost predicate StagedIsPast(s: State, pc: Pc)
    requires pc.Staged?
  {
    forall p | Root(p) in pc.roots && Owned(p) ::
      && pc.since(p) <= pc.at(p) < |s.past(p)| && s.ver(p) <= pc.at(p)
      && pc.scratch(p) == s.past(p)[pc.at(p)]
  }

  // Once recorded, HEAD holds what was there when the call began, or later.
  ghost predicate HeadSince(s: State, since: Path -> nat, roots: set<string>) {
    forall p | Owned(p) && Root(p) in roots :: since(p) <= s.ver(p)
  }

  ghost predicate PcInv(s: State, pc: Pc) {
    match pc
    case Idle => true
    case Locked(since) => SinceIsPast(s, since)
    case Scanned(since, roots) => SinceIsPast(s, since) && ScanIsComplete(s, since, roots)
    case Read(since, roots, base) =>
      SinceIsPast(s, since) && ScanIsComplete(s, since, roots) && base == (if s.born then s.head else Empty())
    case Staged(since, roots, base, scratch, at) =>
      && SinceIsPast(s, since) && ScanIsComplete(s, since, roots) && base == (if s.born then s.head else Empty())
      && StagedIsPast(s, pc) && forall p | Root(p) !in roots :: scratch(p) == base(p)
    case Committed(since, roots) => SinceIsPast(s, since) && ScanIsComplete(s, since, roots) && HeadSince(s, since, roots)
    case Finished(ok, since, roots) =>
      SinceIsPast(s, since) && (ok ==> ScanIsComplete(s, since, roots) && HeadSince(s, since, roots))
  }

  ghost predicate Inv(s: State) {
    && HeadIsPast(s)
    && (!s.born ==> forall p :: s.head(p) == None)
    && (forall t | t in s.pcs :: Holding(s.pcs[t]) ==> s.lock == Some(t))
    && (forall t | t in s.pcs :: PcInv(s, s.pcs[t]))
  }

  // ---- what each step keeps ----

  // Histories only grow, HEAD only moves to later versions.
  ghost predicate Grows(s: State, s': State) {
    && (forall p :: s.past(p) <= s'.past(p))
    && (forall p | Owned(p) :: s.ver(p) <= s'.ver(p))
  }

  lemma GoneStaysGone(s: State, s': State, since: Path -> nat, p: Path)
    requires Grows(s, s') && GoneSince(s, since, p)
    ensures GoneSince(s', since, p)
  {
    var m: nat :| since(p) <= m < |s.past(p)| && s.past(p)[m] == None;
    assert s'.past(p)[m] == None;
  }

  lemma ScanStaysComplete(s: State, s': State, since: Path -> nat, roots: set<string>)
    requires Grows(s, s') && ScanIsComplete(s, since, roots)
    ensures ScanIsComplete(s', since, roots)
  {
    forall p | Owned(p) && Root(p) !in roots ensures GoneSince(s', since, p) {
      GoneStaysGone(s, s', since, p);
    }
  }

  // Another step cannot disturb what a thread has established, as long as it
  // leaves HEAD alone while the thread holds the mutex.
  lemma PcKept(s: State, s': State, pc: Pc)
    requires Grows(s, s') && PcInv(s, pc)
    requires pc.Read? || pc.Staged? ==> s'.born == s.born && s'.head == s.head && s'.ver == s.ver
    ensures PcInv(s', pc)
  {
    if !pc.Idle? && !pc.Locked? {
      if ScanIsComplete(s, pc.since, pc.roots) {
        ScanStaysComplete(s, s', pc.since, pc.roots);
      }
    }
    if pc.Staged? {
      assert forall p | Root(p) in pc.roots && Owned(p) :: s'.past(p)[pc.at(p)] == s.past(p)[pc.at(p)];
    }
  }

  lemma PutKeeps(s: State, p: Path, c: Content)
    requires Inv(s)
    ensures Inv(Step(s, Put(p, c)))
  {
    var s' := Step(s, Put(p, c));
    forall q | Owned(q) ensures s'.ver(q) < |s'.past(q)| && s'.head(q) == s'.past(q)[s'.ver(q)] {
      assert s.ver(q) < |s.past(q)| && s.head(q) == s.past(q)[s.ver(q)];
    }
    forall t | t in s'.pcs ensures PcInv(s', s'.pcs[t]) {
      PcKept(s, s', s.pcs[t]);
    }
  }

  lemma IndexChangeKeeps(s: State, index: Tree, dirs: set<string>)
    requires Inv(s)
    ensures Inv(s.(index := index, dirs := dirs))
  {
    var s' := s.(index := index, dirs := dirs);
    forall t | t in s'.pcs ensures PcInv(s', s'.pcs[t]) {
      PcKept(s, s', s.pcs[t]);
    }
  }

  // Moving one thread's program counter.
  lemma GotoKeeps(s: State, t: Tid, pc: Pc, lock: Option<Tid>)
    requires Inv(s) && PcInv(s, pc)
    requires Holding(pc) ==> lock == Some(t)
    requires forall u | u in s.pcs && u != t :: Holding(s.pcs[u]) ==> lock == Some(u)
    ensures Inv(Goto(s, t, pc).(lock := lock))
  {
    var s' := Goto(s, t, pc).(lock := lock);
    forall u | u in s'.pcs ensures PcInv(s', s'.pcs[u]) {
      PcKept(s, s', if u == t then pc else s.pcs[u]);
    }
  }

  lemma Alone(s: State, t: Tid, u: Tid)
    requires Inv(s) && t in s.pcs && Holding(s.pcs[t]) && u in s.pcs && u != t
    ensures !Holding(s.pcs[u])
  {
  }

  lemma FinishKeeps(s: State, t: Tid, ok: bool, since: Path -> nat, roots: set<string>)
    requires Inv(s) && t in s.pcs && Holding(s.pcs[t]) && PcInv(s, Finished(ok, since, roots))
    ensures Inv(Finish(s, t, ok, since, roots))
  {
    GotoKeeps(s, t, Finished(ok, since, roots), None);
  }

  lemma ScanFinds(s: State, since: Path -> nat)
    requires Inv(s) && SinceIsPast(s, since)
    ensures ScanIsComplete(s, since, Present(s))
  {
    forall p | Owned(p) && Root(p) !in Present(s) ensures GoneSince(s, since, p) {
      assert !Occupied(Work(s), Root(p));
      assert Work(s)(p) == None;
      assert s.past(p)[|s.past(p)| - 1] == None;
    }
  }

  lemma LockedKeeps(s: State, t: Tid, fine: bool)
    requires Inv(s) && t in s.pcs && s.pcs[t].Locked?
    ensures Inv(AdvanceFrom(s, t, s.pcs[t], fine))
  {
    var since, roots := s.pcs[t].since, Present(s);
    ScanFinds(s, since);
    if !fine {
      FinishKeeps(s, t, false, since, roots);
    } else if roots == {} {
      FinishKeeps(s, t, true, since, roots);
    } else {
      GotoKeeps(s, t, Scanned(since, roots), s.lock);
    }
  }

  lemma StageIsPast(s: State, since: Path -> nat, roots: set<string>, base: Tree)
    requires Inv(s) && SinceIsPast(s, since) && roots <= OWNED
    ensures StagedIsPast(s, Staged(since, roots, base, Mix(roots, Work(s), base), Now(s)))
  {
    forall p | Root(p) in roots && Owned(p)
      ensures since(p) <= Now(s)(p) < |s.past(p)| && s.ver(p) <= Now(s)(p)
              && Mix(roots, Work(s), base)(p) == s.past(p)[Now(s)(p)]
    {
      assert since(p) < |s.past(p)| && s.ver(p) < |s.past(p)|;
    }
  }

  lemma ReadKeeps(s: State, t: Tid, fine: bool)
    requires Inv(s) && t in s.pcs && (s.pcs[t].Scanned? || s.pcs[t].Read?)
    ensures Inv(AdvanceFrom(s, t, s.pcs[t], fine))
  {
    var pc := s.pcs[t];
    assert PcInv(s, pc);
    if !fine {
      FinishKeeps(s, t, false, pc.since, pc.roots);
    } else if pc.Scanned? {
      GotoKeeps(s, t, Read(pc.since, pc.roots, if s.born then s.head else Empty()), s.lock);
    } else {
      StageIsPast(s, pc.since, pc.roots, pc.base);
      GotoKeeps(s, t, Staged(pc.since, pc.roots, pc.base, Mix(pc.roots, Work(s), pc.base), Now(s)), s.lock);
    }
  }

  // HEAD moves to the staged tree, or is found to hold it already.
  ghost predicate MovesHead(s: State, s': State, pc: Pc)
    requires pc.Staged?
  {
    && s'.past == s.past && s'.index == s.index && s'.lock == s.lock && s'.pcs == s.pcs
    && s'.ver == Recorded(s, pc.roots, pc.at).ver
    && (s'.born <==> s.born || s'.log != s.log)
    && (forall p :: s'.head(p) == pc.scratch(p))
    && (!s'.born ==> forall p :: s'.head(p) == None)
  }

  lemma HeadKeeps(s: State, s': State, t: Tid)
    requires Inv(s) && t in s.pcs && s.pcs[t].Staged? && MovesHead(s, s', s.pcs[t])
    ensures Grows(s, s') && HeadIsPast(s') && HeadSince(s', s.pcs[t].since, s.pcs[t].roots)
    ensures ScanIsComplete(s', s.pcs[t].since, s.pcs[t].roots) && SinceIsPast(s', s.pcs[t].since)
  {
    var pc := s.pcs[t];
    assert PcInv(s, pc);
    forall p | Owned(p) ensures s'.ver(p) < |s'.past(p)| && s'.head(p) == s'.past(p)[s'.ver(p)] && s.ver(p) <= s'.ver(p) {
      assert s.ver(p) < |s.past(p)| && s.head(p) == s.past(p)[s.ver(p)];
    }
    ScanStaysComplete(s, s', pc.since, pc.roots);
  }

  // The thread that moved HEAD goes on; nobody else was relying on it.
  lemma SettleCommit(s: State, s': State, t: Tid, pc': Pc, lock: Option<Tid>)
    requires Inv(s) && t in s.pcs && s.pcs[t].Staged? && MovesHead(s, s', s.pcs[t])
    requires pc' == Committed(s.pcs[t].since, s.pcs[t].roots) || pc' == Finished(true, s.pcs[t].since, s.pcs[t].roots)
    requires lock == if pc'.Finished? then None else s.lock
    ensures Inv(Goto(s', t, pc').(lock := lock))
  {
    HeadKeeps(s, s', t);
    var s'' := Goto(s', t, pc').(lock := lock);
    forall u | u in s''.pcs ensures PcInv(s'', s''.pcs[u]) && (Holding(s''.pcs[u]) ==> s''.lock == Some(u)) {
      if u == t {
        PcKept(s', s'', pc');
      } else {
        Alone(s, t, u);
        PcKept(s, s'', s.pcs[u]);
      }
    }
  }

  lemma CommitKeeps(s: State, t: Tid, fine: bool)
    requires Inv(s) && t in s.pcs && s.pcs[t].Staged?
    ensures Inv(AdvanceFrom(s, t, s.pcs[t], fine))
  {
    var pc := s.pcs[t];
    assert PcInv(s, pc);
    if !fine {
      FinishKeeps(s, t, false, pc.since, pc.roots);
    } else {
      var same := (s.born && Same(pc.scratch, s.head)) || (!s.born && Same(pc.scratch, Empty()));
      var rec := Recorded(s, pc.roots, pc.at);
      var s' := if same then rec else rec.(born := true, head := pc.scratch,
          log := s.log + [Commit(pc.scratch, pc.base, pc.roots)]);
      assert MovesHead(s, s', pc);
      var pc' := if same then Finished(true, pc.since, pc.roots) else Committed(pc.since, pc.roots);
      hide Inv, PcInv, MovesHead, Same;
      SettleCommit(s, s', t, pc', if same then None else s.lock);
    }
  }

  lemma SyncKeeps(s: State, t: Tid, fine: bool)
    requires Inv(s) && t in s.pcs && s.pcs[t].Committed?
    ensures Inv(AdvanceFrom(s, t, s.pcs[t], fine))
  {
    var pc := s.pcs[t];
    assert PcInv(s, pc);
    if !fine {
      FinishKeeps(s, t, false, pc.since, pc.roots);
    } else {
      var s' := s.(index := Mix(pc.roots, Work(s), s.index));
      IndexChangeKeeps(s, Mix(pc.roots, Work(s), s.index), s.dirs);
      PcKept(s, s', Finished(true, pc.since, pc.roots));
      FinishKeeps(s', t, true, pc.since, pc.roots);
    }
  }

  lemma StepKeeps(s: State, a: Action)
    requires Inv(s)
    ensures Inv(Step(s, a))
  {
    match a
    case Put(p, c) => PutKeeps(s, p, c);
    case MakeDir(r) => IndexChangeKeeps(s, s.index, s.dirs + {r});
    case RemoveDir(r) => IndexChangeKeeps(s, s.index, s.dirs - {r});
    case StageForeign(p, c) => IndexChangeKeeps(s, q => if q == p then c else s.index(q), s.dirs);
    case Begin(t) =>
      if s.lock == None && PcOf(s, t) == Idle {
        GotoKeeps(s, t, Locked(Now(s)), Some(t));
      }
    case Advance(t, fine) =>
      if t in s.pcs {
        match s.pcs[t] {
          case Idle =>
          case Finished(_, _, _) => GotoKeeps(s, t, Idle, s.lock);
          case Locked(_) => LockedKeeps(s, t, fine);
          case Scanned(_, _) => ReadKeeps(s, t, fine);
          case Read(_, _, _) => ReadKeeps(s, t, fine);
          case Staged(_, _, _, _, _) => CommitKeeps(s, t, fine);
          case Committed(_, _) => SyncKeeps(s, t, fine);
        }
      }
  }

  lemma {:induction false} EveryRunKeepsInv(s: State, run: seq<Action>)
    requires Inv(s)
    ensures Inv(Exec(s, run))
  {
    if run != [] {
      EveryRunKeepsInv(s, run[..|run| - 1]);
      StepKeeps(Exec(s, run[..|run| - 1]), run[|run| - 1]);
    }
  }

  // ---- every commit is a snapshot ----

  // The tree is the working tree as it stood after k steps, for the scanned
  // roots, and the parent everywhere else.
  ghost predicate Snapshot(s: State, run: seq<Action>, k: nat, tree: Tree, parent: Tree, roots: set<string>) {
    && k <= |run| && roots <= OWNED
    && forall p :: tree(p) == if Root(p) in roots then Work(Exec(s, run[..k]))(p) else parent(p)
  }

  ghost predicate Staging(s: State, run: seq<Action>, pc: Pc) {
    pc.Staged? ==> exists k :: Snapshot(s, run, k, pc.scratch, pc.base, pc.roots)
  }

  ghost predicate IsSnapshot(s: State, run: seq<Action>, c: Commit) {
    exists k :: Snapshot(s, run, k, c.tree, c.parent, c.roots)
  }

  function HeadTree(s: State): Tree { if s.born then s.head else Empty() }

  // Each commit's parent is the one before it, and HEAD is the last.
  ghost predicate Chained(first: Tree, log: seq<Commit>, head: Tree) {
    && (forall i | 0 <= i < |log| :: log[i].parent == Before(first, log, i))
    && head == Before(first, log, |log|)
  }

  function Before(first: Tree, log: seq<Commit>, i: nat): Tree
    requires i <= |log|
  {
    if i == 0 then first else log[i - 1].tree
  }

  lemma ChainGrows(first: Tree, log: seq<Commit>, head: Tree, c: Commit)
    requires Chained(first, log, head) && c.parent == head
    ensures Chained(first, log + [c], c.tree)
  {
    var more := log + [c];
    forall i | 0 <= i < |more| ensures more[i].parent == Before(first, more, i) {
      assert i < |log| ==> log[i].parent == Before(first, log, i);
    }
  }

  ghost predicate Fresh(s: State) {
    Inv(s) && s.log == [] && forall t | t in s.pcs :: s.pcs[t] == Idle
  }

  // Any repository and vault can be where a run starts.
  function Start(born: bool, head: Tree, work: Tree, dirs: set<string>, index: Tree): State {
    State(p => [if born then head(p) else None, work(p)], dirs, born, if born then head else Empty(), p => 0, index, [],
        None, map[])
  }

  lemma StartIsFresh(born: bool, head: Tree, work: Tree, dirs: set<string>, index: Tree)
    ensures Fresh(Start(born, head, work, dirs, index))
    ensures forall p :: Work(Start(born, head, work, dirs, index))(p) == work(p)
  {
    var s := Start(born, head, work, dirs, index);
    forall p ensures s.ver(p) < |s.past(p)| && s.head(p) == s.past(p)[s.ver(p)] {
    }
    hide Owned;
  }

  ghost predicate RunInv(s: State, run: seq<Action>) {
    var now := Exec(s, run);
    && (forall t | t in now.pcs :: Staging(s, run, now.pcs[t]))
    && (forall i | 0 <= i < |now.log| :: IsSnapshot(s, run, now.log[i]))
    && Chained(HeadTree(s), now.log, HeadTree(now))
  }

  lemma SnapshotStands(s: State, run: seq<Action>, a: Action, k: nat, tree: Tree, parent: Tree, roots: set<string>)
    requires Snapshot(s, run, k, tree, parent, roots)
    ensures Snapshot(s, run + [a], k, tree, parent, roots)
  {
    assert (run + [a])[..k] == run[..k];
  }

  lemma StagingStands(s: State, run: seq<Action>, a: Action, pc: Pc)
    requires Staging(s, run, pc)
    ensures Staging(s, run + [a], pc)
  {
    if pc.Staged? {
      var k :| Snapshot(s, run, k, pc.scratch, pc.base, pc.roots);
      SnapshotStands(s, run, a, k, pc.scratch, pc.base, pc.roots);
    }
  }

  lemma CommitStands(s: State, run: seq<Action>, a: Action, c: Commit)
    requires IsSnapshot(s, run, c)
    ensures IsSnapshot(s, run + [a], c)
  {
    var k :| Snapshot(s, run, k, c.tree, c.parent, c.roots);
    SnapshotStands(s, run, a, k, c.tree, c.parent, c.roots);
  }

  // A step changes one thread's counter at most, and adds one commit at most:
  // the tree that thread had staged.
  lemma StepShape(now: State, a: Action, t: Tid)
    ensures var next := Step(now, a);
            && (t in next.pcs ==>
                  (t in now.pcs && next.pcs[t] == now.pcs[t]) || !next.pcs[t].Staged? || (a.Advance? && a.t == t))
            && (!a.Advance? || !PcOf(now, a.t).Staged? ==> next.log == now.log && HeadTree(next) == HeadTree(now))
  {
    hide Same, Present, Occupied, Mix;
  }

  lemma StagedStep(now: State, t: Tid, fine: bool)
    requires PcOf(now, t).Staged?
    ensures var pc, next := PcOf(now, t), Step(now, Advance(t, fine));
            && !PcOf(next, t).Staged?
            && ((next.log == now.log && HeadTree(next) == HeadTree(now))
                || (next.log == now.log + [Commit(pc.scratch, pc.base, pc.roots)] && HeadTree(next) == pc.scratch))
  {
  }

  lemma StageStep(s: State, run: seq<Action>, t: Tid, fine: bool)
    requires Fresh(s) && !PcOf(Exec(s, run), t).Staged?
    ensures var next := Step(Exec(s, run), Advance(t, fine));
            t in next.pcs ==> Staging(s, run + [Advance(t, fine)], next.pcs[t])
  {
    var now, a := Exec(s, run), Advance(t, fine);
    var next := Step(now, a);
    EveryRunKeepsInv(s, run);
    if t in next.pcs && next.pcs[t].Staged? {
      var pc := next.pcs[t];
      assert t in now.pcs && now.pcs[t].Read? && PcInv(now, now.pcs[t]);
      assert (run + [a])[..|run|] == run;
      assert Snapshot(s, run + [a], |run|, pc.scratch, pc.base, pc.roots);
    }
  }

  lemma BaseIsHead(now: State, t: Tid)
    requires Inv(now) && PcOf(now, t).Staged?
    ensures PcOf(now, t).base == HeadTree(now)
  {
    assert PcInv(now, now.pcs[t]);
  }

  lemma PcStep(s: State, run: seq<Action>, a: Action, t: Tid)
    requires Fresh(s) && RunInv(s, run) && t in Step(Exec(s, run), a).pcs
    ensures Staging(s, run + [a], Step(Exec(s, run), a).pcs[t])
  {
    var now := Exec(s, run);
    StepShape(now, a, t);
    if a.Advance? && a.t == t {
      if PcOf(now, t).Staged? {
        StagedStep(now, t, a.fine);
      } else {
        StageStep(s, run, t, a.fine);
      }
    } else if t in now.pcs && Step(now, a).pcs[t] == now.pcs[t] {
      StagingStands(s, run, a, now.pcs[t]);
    }
  }

  // The log after one more step, and where HEAD is then.
  lemma LogStep(s: State, run: seq<Action>, a: Action)
    requires Fresh(s) && RunInv(s, run)
    ensures var next := Step(Exec(s, run), a);
            && (forall i | 0 <= i < |next.log| :: IsSnapshot(s, run + [a], next.log[i]))
            && Chained(HeadTree(s), next.log, HeadTree(next))
  {
    var now := Exec(s, run);
    var next := Step(now, a);
    forall c | c in now.log ensures IsSnapshot(s, run + [a], c) {
      var i :| 0 <= i < |now.log| && now.log[i] == c;
      CommitStands(s, run, a, c);
    }
    if a.Advance? && PcOf(now, a.t).Staged? {
      var pc := PcOf(now, a.t);
      EveryRunKeepsInv(s, run);
      StagedStep(now, a.t, a.fine);
      BaseIsHead(now, a.t);
      StagingStands(s, run, a, pc);
      hide Step, Exec, HeadTree, Snapshot, Inv, Fresh, Staging;
      CommitIsStaged(s, run + [a], pc);
      ChainGrows(HeadTree(s), now.log, HeadTree(now), Commit(pc.scratch, pc.base, pc.roots));
    } else {
      StepShape(now, a, 0);
    }
  }

  lemma CommitIsStaged(s: State, run: seq<Action>, pc: Pc)
    requires pc.Staged? && Staging(s, run, pc)
    ensures IsSnapshot(s, run, Commit(pc.scratch, pc.base, pc.roots))
  {
    var k :| Snapshot(s, run, k, pc.scratch, pc.base, pc.roots);
  }

  lemma RunStep(s: State, run: seq<Action>, a: Action)
    requires Fresh(s) && RunInv(s, run)
    ensures RunInv(s, run + [a])
  {
    var next, more := Step(Exec(s, run), a), run + [a];
    assert more[..|run|] == run && Exec(s, more) == next;
    forall t | t in next.pcs ensures Staging(s, more, next.pcs[t]) {
      PcStep(s, run, a, t);
    }
    LogStep(s, run, a);
  }

  lemma {:induction false} EveryRunSnapshots(s: State, run: seq<Action>)
    requires Fresh(s)
    ensures RunInv(s, run)
  {
    if run == [] {
    } else {
      EveryRunSnapshots(s, run[..|run| - 1]);
      assert run[..|run| - 1] + [run[|run| - 1]] == run;
      RunStep(s, run[..|run| - 1], run[|run| - 1]);
    }
  }

  // In every run, whatever files land between the steps: each commit is one
  // moment's working tree for the roots it scanned, and its parent elsewhere;
  // commits form one chain that ends at HEAD.
  lemma EveryCommitIsASnapshot(s: State, run: seq<Action>, i: nat)
    requires Fresh(s) && i < |Exec(s, run).log|
    ensures var log := Exec(s, run).log;
            && IsSnapshot(s, run, log[i])
            && log[i].parent == Before(HeadTree(s), log, i)
            && HeadTree(Exec(s, run)) == Before(HeadTree(s), log, |log|)
  {
    EveryRunSnapshots(s, run);
  }

  // Nothing outside the owned paths is ever committed.
  lemma {:induction false} ForeignPathsAreNeverCommitted(s: State, run: seq<Action>, i: nat, p: Path)
    requires Fresh(s) && i < |Exec(s, run).log| && !Owned(p)
    ensures Exec(s, run).log[i].tree(p) == HeadTree(s)(p)
    decreases i
  {
    var c := Exec(s, run).log[i];
    EveryCommitIsASnapshot(s, run, i);
    var k :| Snapshot(s, run, k, c.tree, c.parent, c.roots);
    if i > 0 {
      ForeignPathsAreNeverCommitted(s, run, i - 1, p);
    }
  }

  lemma ForeignIndexStep(now: State, a: Action, p: Path)
    requires Inv(now) && !Owned(p) && !(a.StageForeign? && a.path == p)
    ensures Step(now, a).index(p) == now.index(p)
  {
    if a.Advance? && a.t in now.pcs {
      assert PcInv(now, now.pcs[a.t]);
    }
  }

  // And no step of a commit, or of a writer, touches what another party staged.
  lemma {:induction false} ForeignStagingIsUntouched(s: State, run: seq<Action>, p: Path)
    requires Fresh(s) && !Owned(p)
    requires forall i | 0 <= i < |run| :: !(run[i].StageForeign? && run[i].path == p)
    ensures Exec(s, run).index(p) == s.index(p)
  {
    if run != [] {
      ForeignStagingIsUntouched(s, run[..|run| - 1], p);
      EveryRunKeepsInv(s, run[..|run| - 1]);
      ForeignIndexStep(Exec(s, run[..|run| - 1]), run[|run| - 1], p);
    }
  }

  // ---- a writer's own commit ----

  // Whichever call a thread has in flight, it began when `since` was current.
  ghost predicate SinceIs(pc: Pc, since: Path -> nat) { pc.Idle? || pc.since == since }

  lemma SinceStep(now: State, a: Action, t: Tid, since: Path -> nat)
    requires SinceIs(PcOf(now, t), since) && a != Begin(t)
    ensures SinceIs(PcOf(Step(now, a), t), since)
  {
  }

  lemma {:induction false} SinceIsKept(s: State, run: seq<Action>, t: Tid, since: Path -> nat)
    requires SinceIs(PcOf(s, t), since) && BeginsOnce(run, t)
    ensures SinceIs(PcOf(Exec(s, run), t), since)
  {
    if run != [] {
      SinceIsKept(s, run[..|run| - 1], t, since);
      SinceStep(Exec(s, run[..|run| - 1]), run[|run| - 1], t, since);
    }
  }

  predicate BeginsOnce(run: seq<Action>, t: Tid) { forall i | 0 <= i < |run| :: run[i] != Begin(t) }

  // HEAD holds version `written` of a path or a later one. Only if nothing under
  // the path's root was left to scan is it otherwise, and then the path has been
  // removed since.
  ghost predicate IsRecorded(s: State, roots: set<string>, p: Path, written: nat) {
    if Root(p) in roots then exists m | written <= m < |s.past(p)| :: s.head(p) == s.past(p)[m]
    else exists m | written <= m < |s.past(p)| :: s.past(p)[m] == None
  }

  lemma RecordedOnReturn(s: State, t: Tid, p: Path)
    requires Inv(s) && Owned(p) && PcOf(s, t).Finished? && PcOf(s, t).ok
    ensures IsRecorded(s, PcOf(s, t).roots, p, PcOf(s, t).since(p))
  {
    var pc := PcOf(s, t);
    assert t in s.pcs && PcInv(s, pc);
    if Root(p) in pc.roots {
      assert s.head(p) == s.past(p)[s.ver(p)];
    } else {
      assert GoneSince(s, pc.since, p);
    }
  }

  // A thread that wrote a path, then calls CommitAll, and sees it return without
  // error, finds what it wrote recorded, whatever ran in between.
  lemma {:induction false} ReturnMeansRecorded(s: State, run: seq<Action>, t: Tid, p: Path)
    requires Inv(s) && s.lock == None && PcOf(s, t) == Idle && Owned(p)
    ensures var end := Exec(Step(s, Begin(t)), run);
            BeginsOnce(run, t) && PcOf(end, t).Finished? && PcOf(end, t).ok ==>
              IsRecorded(end, PcOf(end, t).roots, p, LastVersion(s.past(p)))
  {
    var begun := Step(s, Begin(t));
    var end := Exec(begun, run);
    BeginIsSince(s, t);
    StepKeeps(s, Begin(t));
    hide Step, Exec, Inv, IsRecorded;
    EveryRunKeepsInv(begun, run);
    if BeginsOnce(run, t) && PcOf(end, t).Finished? && PcOf(end, t).ok {
      SinceIsKept(begun, run, t, Now(s));
      RecordedOnReturn(end, t, p);
    }
  }

  lemma BeginIsSince(s: State, t: Tid)
    requires s.lock == None && PcOf(s, t) == Idle
    ensures SinceIs(PcOf(Step(s, Begin(t)), t), Now(s))
  {
  }

  // ---- a removal is recorded only while its root is still in sight ----

  // One whole CommitAll with nobody in the way: it takes five steps once begun.
  ghost function Steps(s: State, t: Tid, n: nat): State {
    if n == 0 then Step(s, Begin(t)) else Step(Steps(s, t, n - 1), Advance(t, true))
  }

  ghost predicate OthersStay(s: State, s': State, t: Tid) {
    forall u | u in s'.pcs && u != t :: u in s.pcs && s'.pcs[u] == s.pcs[u]
  }

  lemma AloneScans(s: State, t: Tid)
    requires s.lock == None && PcOf(s, t) == Idle && Present(s) != {}
    ensures var a := Steps(s, t, 1);
            a.past == s.past && a.dirs == s.dirs && a.head == s.head && a.born == s.born && a.index == s.index
            && t in a.pcs && a.pcs[t] == Scanned(Now(s), Present(s)) && OthersStay(s, a, t)
  {
    var begun := Steps(s, t, 0);
    PresentLooksAtTrees(s, begun);
    assert Steps(s, t, 1) == Step(begun, Advance(t, true));
  }

  lemma PresentLooksAtTrees(s: State, s': State)
    requires s'.past == s.past && s'.dirs == s.dirs && s'.index == s.index
    ensures Present(s') == Present(s)
  {
    assert forall r :: Occupied(Work(s'), r) == Occupied(Work(s), r);
  }

  lemma AloneStages(s: State, t: Tid)
    requires s.lock == None && PcOf(s, t) == Idle && Present(s) != {}
    ensures var a := Steps(s, t, 3);
            && a.past == s.past && a.dirs == s.dirs && a.head == s.head && a.born == s.born && a.index == s.index
            && t in a.pcs && a.pcs[t].Staged? && a.pcs[t].roots == Present(s) && OthersStay(s, a, t)
            && forall p :: a.pcs[t].scratch(p) == Mix(Present(s), Work(s), HeadTree(s))(p)
  {
    AloneScans(s, t);
    var scanned := Steps(s, t, 1);
    var read := Step(scanned, Advance(t, true));
    assert Steps(s, t, 2) == read;
    assert Steps(s, t, 3) == Step(read, Advance(t, true));
  }

  lemma AloneMoves(s: State, t: Tid)
    requires t in s.pcs && s.pcs[t].Staged? && s.born
    ensures var a := Step(s, Advance(t, true));
            && a.past == s.past && a.dirs == s.dirs && a.index == s.index && a.born
            && (forall p :: a.head(p) == s.pcs[t].scratch(p))
            && t in a.pcs && (a.pcs[t].Committed? || a.pcs[t].Finished?) && OthersStay(s, a, t)
  {
  }

  lemma AloneEnds(s: State, t: Tid, fine: bool)
    requires t in s.pcs && (s.pcs[t].Committed? || s.pcs[t].Finished?)
    ensures var a := Step(s, Advance(t, fine));
            && a.past == s.past && a.dirs == s.dirs && a.head == s.head && a.born == s.born && (!fine ==> a.index == s.index)
            && t in a.pcs && (a.pcs[t].Idle? || a.pcs[t].Finished?) && OthersStay(s, a, t)
  {
  }

  // With nothing owned in sight it ends at once.
  lemma AloneFindsNothing(s: State, t: Tid)
    requires s.lock == None && PcOf(s, t) == Idle && Present(s) == {}
    ensures Steps(s, t, 5).head == s.head
  {
    var begun := Steps(s, t, 0);
    PresentLooksAtTrees(s, begun);
    assert Steps(s, t, 1) == Step(begun, Advance(t, true));
    hide Present;
    assert Steps(s, t, 1).head == s.head && PcOf(Steps(s, t, 1), t).Finished?;
    assert Steps(s, t, 2) == Step(Steps(s, t, 1), Advance(t, true));
    assert Steps(s, t, 3) == Step(Steps(s, t, 2), Advance(t, true));
    assert Steps(s, t, 4) == Step(Steps(s, t, 3), Advance(t, true));
    assert Steps(s, t, 5) == Step(Steps(s, t, 4), Advance(t, true));
  }

  // A removal reaches HEAD exactly when its root still exists, an empty
  // directory being enough, or the real index still tracks something under it.
  lemma RemovalIsRecordedIff(s: State, t: Tid, p: Path)
    requires s.lock == None && PcOf(s, t) == Idle && s.born
    requires Owned(p) && Work(s)(p) == None && s.head(p) != None
    ensures Steps(s, t, 5).head(p) == None <==> OnDisk(s, Root(p)) || Occupied(s.index, Root(p))
  {
    if Present(s) == {} {
      AloneFindsNothing(s, t);
      assert Root(p) !in Present(s);
      return;
    }
    AloneStages(s, t);
    var staged := Steps(s, t, 3);
    AloneMoves(staged, t);
    assert Steps(s, t, 4) == Step(staged, Advance(t, true));
    AloneEnds(Steps(s, t, 4), t, true);
    assert Steps(s, t, 5) == Step(Steps(s, t, 4), Advance(t, true));
  }

  // Out of sight: not on disk, not tracked, in no commit that is under way.
  ghost predicate Unseen(s: State, root: string) {
    && root !in Present(s)
    && forall t | t in s.pcs && Holding(s.pcs[t]) && !s.pcs[t].Locked? :: root !in s.pcs[t].roots
  }

  predicate Recreates(a: Action, root: string) {
    (a.Put? && a.content != None && Root(a.path) == root) || (a.MakeDir? && a.root == root)
  }

  ghost predicate Bare(t: Tree, root: string) { forall q | Root(q) == root :: t(q) == None }

  lemma AbsentIsBare(s: State, root: string)
    requires root in OWNED
    ensures root !in Present(s) <==> root !in s.dirs && Bare(Work(s), root) && Bare(s.index, root)
  {
  }

  // What one step of a commit that does not know of the root leaves alone.
  ghost predicate Blind(s: State, s': State, t: Tid, root: string) {
    && s'.born && s'.past == s.past && s'.dirs == s.dirs && t in s'.pcs
    && (forall q | Root(q) == root :: s'.head(q) == s.head(q) && s'.index(q) == s.index(q))
    && (Holding(s'.pcs[t]) && !s'.pcs[t].Locked? ==> root !in s'.pcs[t].roots)
    && OthersStay(s, s', t)
  }

  lemma StagedIsBlind(s: State, t: Tid, fine: bool, root: string)
    requires Inv(s) && s.born && t in s.pcs && s.pcs[t].Staged? && root !in s.pcs[t].roots
    ensures Blind(s, AdvanceFrom(s, t, s.pcs[t], fine), t, root)
  {
    var pc := s.pcs[t];
    assert PcInv(s, pc);
    assert forall q | Root(q) == root :: pc.scratch(q) == s.head(q);
    hide Inv, PcInv, Root;
  }

  lemma LockedIsBlind(s: State, t: Tid, fine: bool, root: string)
    requires s.born && root !in Present(s) && t in s.pcs && s.pcs[t].Locked?
    ensures Blind(s, AdvanceFrom(s, t, s.pcs[t], fine), t, root)
  {
    hide Present, Root;
  }

  lemma UnscannedIsBlind(s: State, t: Tid, fine: bool, root: string)
    requires s.born && t in s.pcs && !s.pcs[t].Locked? && !s.pcs[t].Staged?
    requires Holding(s.pcs[t]) ==> root !in s.pcs[t].roots
    ensures Blind(s, AdvanceFrom(s, t, s.pcs[t], fine), t, root)
  {
    hide Root;
  }

  lemma AdvanceIsBlind(s: State, t: Tid, fine: bool, root: string)
    requires Inv(s) && s.born && Unseen(s, root) && t in s.pcs
    ensures Blind(s, AdvanceFrom(s, t, s.pcs[t], fine), t, root)
  {
    if s.pcs[t].Staged? {
      StagedIsBlind(s, t, fine, root);
    } else if s.pcs[t].Locked? {
      LockedIsBlind(s, t, fine, root);
    } else {
      UnscannedIsBlind(s, t, fine, root);
    }
  }

  lemma PutShows(s: State, p: Path, c: Content)
    ensures forall q :: Work(Step(s, Put(p, c)))(q) == if q == p then c else Work(s)(q)
  {
  }

  lemma OtherStepIsBlind(s: State, a: Action, root: string)
    requires Unseen(s, root) && !Recreates(a, root) && root in OWNED && !a.Advance? && Bare(Work(s), root)
    ensures var s' := Step(s, a);
            && s'.born == s.born && s'.head == s.head && (root in s'.dirs ==> root in s.dirs) && Bare(Work(s'), root)
            && (forall q | Root(q) == root :: s'.index(q) == s.index(q))
            && (forall u | u in s'.pcs :: s'.pcs[u].Locked? || (u in s.pcs && s'.pcs[u] == s.pcs[u]))
  {
    if a.Put? {
      PutShows(s, a.path, a.content);
    }
    hide OnDisk, Present, Occupied, Last;
  }

  lemma UnseenStep(s: State, a: Action, root: string)
    requires Inv(s) && s.born && root in OWNED && Unseen(s, root) && !Recreates(a, root)
    ensures var s' := Step(s, a); s'.born && Unseen(s', root) && forall q | Root(q) == root :: s'.head(q) == s.head(q)
  {
    hide Inv, Step, AdvanceFrom, Present, OnDisk, Occupied;
    AbsentIsBare(s, root);
    AbsentIsBare(Step(s, a), root);
    if a.Advance? {
      AdvanceStep(s, a.t, a.fine);
      if a.t in s.pcs {
        AdvanceIsBlind(s, a.t, a.fine, root);
      }
    } else {
      OtherStepIsBlind(s, a, root);
    }
  }

  lemma AdvanceStep(s: State, t: Tid, fine: bool)
    ensures Step(s, Advance(t, fine)) == if t in s.pcs then AdvanceFrom(s, t, s.pcs[t], fine) else s
  {
  }

  // Once out of sight a root stays in HEAD as it was, whatever is written,
  // committed or refused elsewhere, until something is made under it again.
  lemma {:induction false} StaysForgotten(s: State, run: seq<Action>, root: string)
    requires Inv(s) && s.born && root in OWNED && Unseen(s, root)
    requires forall i | 0 <= i < |run| :: !Recreates(run[i], root)
    ensures var end := Exec(s, run); end.born && Unseen(end, root) && forall q | Root(q) == root :: end.head(q) == s.head(q)
  {
    if run != [] {
      StaysForgotten(s, run[..|run| - 1], root);
      EveryRunKeepsInv(s, run[..|run| - 1]);
      UnseenStep(Exec(s, run[..|run| - 1]), run[|run| - 1], root);
    }
  }

  // ---- how a root gets there ----

  // The only file under its root goes, and the directory with it, between a
  // commit and the update of the real index, which git then refuses for want of
  // anything that matches.
  function CommitSteps(t: Tid, n: nat): seq<Action> {
    if n == 0 then [Begin(t)] else CommitSteps(t, n - 1) + [Advance(t, true)]
  }

  function Vanishing(t: Tid, p: Path): seq<Action> {
    CommitSteps(t, 4) + [Put(p, None)] + [RemoveDir(Root(p))] + [Advance(t, false)]
  }

  lemma ExecSnoc(s: State, run: seq<Action>, a: Action)
    ensures Exec(s, run + [a]) == Step(Exec(s, run), a)
  {
    assert (run + [a])[..|run|] == run;
  }

  lemma {:induction false} ExecIsSteps(s: State, t: Tid, n: nat)
    ensures Exec(s, CommitSteps(t, n)) == Steps(s, t, n)
  {
    hide Step;
    if n == 0 {
      assert [] + [Begin(t)] == [Begin(t)];
      ExecSnoc(s, [], Begin(t));
    } else {
      ExecIsSteps(s, t, n - 1);
      ExecSnoc(s, CommitSteps(t, n - 1), Advance(t, true));
    }
  }

  ghost predicate OnlyFile(t: Tree, p: Path) { t(p) != None && forall q | Root(q) == Root(p) && q != p :: t(q) == None }

  lemma Vanishes(s: State, t: Tid, p: Path)
    requires Inv(s) && s.born && s.lock == None && PcOf(s, t) == Idle && Owned(p)
    requires OnlyFile(Work(s), p) && !Occupied(s.index, Root(p))
    ensures var end := Exec(s, Vanishing(t, p));
            Inv(end) && end.born && Unseen(end, Root(p)) && end.head(p) == Work(s)(p)
  {
    var moved := Steps(s, t, 4);
    var gone := Step(Step(moved, Put(p, None)), RemoveDir(Root(p)));
    VanishingSteps(s, t, p);
    EveryRunKeepsInv(s, Vanishing(t, p));
    CommitMoves(s, t, p);
    assert OnlyFile(Work(moved), p) && Bare(s.index, Root(p));
    Empties(moved, p);
    AloneEnds(gone, t, false);
    hide Inv, Step, Exec, Steps, OnDisk, Occupied, Present, OnlyFile;
    AbsentIsBare(Exec(s, Vanishing(t, p)), Root(p));
    NobodyHolds(s, t);
  }

  lemma NobodyHolds(s: State, t: Tid)
    requires Inv(s) && s.lock == None
    ensures forall u | u in s.pcs :: !Holding(s.pcs[u])
  {
  }

  lemma VanishingSteps(s: State, t: Tid, p: Path)
    ensures Exec(s, Vanishing(t, p)) == Step(Step(Step(Steps(s, t, 4), Put(p, None)), RemoveDir(Root(p))), Advance(t, false))
  {
    hide Step;
    ExecIsSteps(s, t, 4);
    ExecSnoc(s, CommitSteps(t, 4), Put(p, None));
    ExecSnoc(s, CommitSteps(t, 4) + [Put(p, None)], RemoveDir(Root(p)));
    ExecSnoc(s, CommitSteps(t, 4) + [Put(p, None)] + [RemoveDir(Root(p))], Advance(t, false));
  }

  lemma CommitMoves(s: State, t: Tid, p: Path)
    requires s.lock == None && PcOf(s, t) == Idle && s.born && Owned(p) && Work(s)(p) != None
    ensures var a := Steps(s, t, 4);
            && a.past == s.past && a.dirs == s.dirs && a.index == s.index && a.born && a.head(p) == Work(s)(p)
            && t in a.pcs && (a.pcs[t].Committed? || a.pcs[t].Finished?) && OthersStay(s, a, t)
  {
    assert Occupied(Work(s), Root(p)) && Root(p) in Present(s);
    AloneStages(s, t);
    AloneMoves(Steps(s, t, 3), t);
    assert Steps(s, t, 4) == Step(Steps(s, t, 3), Advance(t, true));
  }

  lemma Empties(s: State, p: Path)
    requires OnlyFile(Work(s), p)
    ensures var a := Step(Step(s, Put(p, None)), RemoveDir(Root(p)));
            && Bare(Work(a), Root(p)) && Root(p) !in a.dirs
            && a.head == s.head && a.born == s.born && a.index == s.index && a.pcs == s.pcs
  {
    PutShows(s, p, None);
  }

  // From any repository: a file alone under its root is committed, and then
  // removed with its directory before the real index learns of it. HEAD shows
  // it for good, whatever anyone writes or commits next, until something is
  // made under that root again.
  lemma RemovalIsForgotten(head: Tree, work: Tree, dirs: set<string>, index: Tree, t: Tid, p: Path, more: seq<Action>)
    requires Owned(p) && OnlyFile(work, p) && !Occupied(index, Root(p))
    requires forall i | 0 <= i < |more| :: !Recreates(more[i], Root(p))
    ensures var s := Start(true, head, work, dirs, index);
            var end := Exec(Exec(s, Vanishing(t, p)), more);
            Fresh(s) && Work(end)(p) == None && end.head(p) == work(p) != None
  {
    var s := Start(true, head, work, dirs, index);
    StartIsFresh(true, head, work, dirs, index);
    assert OnlyFile(Work(s), p) && !Occupied(s.index, Root(p));
    Vanishes(s, t, p);
    hide Inv, Exec, Unseen, OnDisk, Occupied, Present, OnlyFile, Start;
    StaysForgotten(Exec(s, Vanishing(t, p)), more, Root(p));
    UnseenIsBare(Exec(Exec(s, Vanishing(t, p)), more), Root(p));
  }

  lemma UnseenIsBare(s: State, root: string)
    requires root in OWNED && Unseen(s, root)
    ensures Bare(Work(s), root)
  {
    AbsentIsBare(s, root);
  }
}

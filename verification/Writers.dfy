// Concurrent writers of one vault: the MCP write path (Write, Edit,
// restore_note), the compile pass's rewrite and move, and history commits.
// Every thread is a program counter over shared files and mutexes, and one
// step of one thread is one atomic action; a run is any interleaving.
module Writers {
  import opened Text
  import opened PathLocking

  type Path = string
  type Bytes = string
  type Tid = nat

  // BLAKE3, taken as injective: a digest names the bytes it was computed from.
  datatype Digest = Blake3(of: Bytes)

  // One mutex per vault path, and the mutex around git's index.
  datatype Resource = PathLock(path: Path) | GitIndex

  datatype Request =
    | Write(content: Bytes)
    | Edit(oldStr: Bytes, newStr: Bytes)
    | Restore(version: Option<Bytes>) // None: the ref does not hold a valid note

  // ensureNoteID, rejectIDChange and Validate as one function of the path, the
  // file now on disk and the content to write; None refuses the write.
  type Prepare = (Path, Option<Bytes>, Bytes) -> Option<Bytes>

  // ---- what a request does to the file it finds ----

  // strings.Count: non-overlapping occurrences, left to right.
  function Count(s: Bytes, pat: Bytes): nat
    requires pat != []
    decreases |s|
  {
    match Index(s, pat)
    case None => 0
    case Some(i) => 1 + Count(s[i + |pat|..], pat)
  }

  // strings.Replace(s, pat, repl, 1).
  function ReplaceFirst(s: Bytes, pat: Bytes, repl: Bytes): Bytes {
    match Index(s, pat)
    case None => s
    case Some(i) => s[..i] + repl + s[i + |pat|..]
  }

  function Respond(prep: Prepare, rel: Path, req: Request, cur: Option<Bytes>): Option<Bytes> {
    match req
    case Write(content) => prep(rel, cur, content)
    case Edit(o, n) =>
      if o == [] || o == n || cur.None? || Count(cur.value, o) != 1 then None
      else prep(rel, cur, ReplaceFirst(cur.value, o, n))
    case Restore(version) => version
  }

  lemma AtShifted(s: Bytes, pat: Bytes, k: nat, j: nat)
    requires k <= |s|
    ensures At(s[k..], pat, j) <==> At(s, pat, k + j)
  {
    if k + j + |pat| <= |s| {
      assert s[k..][j..j + |pat|] == s[k + j..k + j + |pat|];
    }
  }

  lemma AtAfter(s: Bytes, pat: Bytes, k: nat)
    requires k <= |s|
    ensures Index(s[k..], pat).None? <==> forall j: nat | At(s, pat, j) :: j < k
  {
    if Index(s[k..], pat).None? {
      forall j: nat | At(s, pat, j) ensures j < k {
        if k <= j { AtShifted(s, pat, k, j - k); }
      }
    } else {
      AtShifted(s, pat, k, Index(s[k..], pat).value);
    }
  }

  // A match that every other match overlaps without starting before it.
  ghost predicate Lone(s: Bytes, pat: Bytes, i: nat) {
    At(s, pat, i) && forall j: nat | At(s, pat, j) :: i <= j < i + |pat|
  }

  // Edit promises a unique match. Counting without overlaps, it accepts exactly
  // when there is a match and every other match overlaps the first one.
  lemma EditAcceptsIff(s: Bytes, pat: Bytes)
    requires pat != []
    ensures Count(s, pat) == 1 <==> exists i: nat :: Lone(s, pat, i)
  {
    var first := Index(s, pat);
    if first.Some? {
      var k := first.value + |pat|;
      assert Count(s, pat) == 1 <==> Index(s[k..], pat).None?;
      AtAfter(s, pat, k);
      assert forall j: nat | At(s, pat, j) :: first.value <= j;
      assert Index(s[k..], pat).None? ==> Lone(s, pat, first.value);
      if i: nat :| Lone(s, pat, i) {
        assert i == first.value;
      }
    }
  }

  // So two overlapping matches pass as unique: "aa" in "aaa".
  lemma OverlapPassesAsUnique()
    ensures Count("aaa", "aa") == 1 && At("aaa", "aa", 0) && At("aaa", "aa", 1)
  {
    assert "aaa"[0..2] == "aa" && "aaa"[1..3] == "aa";
    IndexIs("aaa", "aa", 0);
    assert "aaa"[2..] == "a";
    assert Index("a", "aa").None?;
  }

  // A proper prefix of the pattern that is also its suffix, `k` characters on.
  predicate Border(pat: Bytes, k: nat) { 0 < k < |pat| && pat[k..] == pat[..|pat| - k] }

  lemma OverlapIsABorder(s: Bytes, pat: Bytes, i: nat, j: nat)
    requires At(s, pat, i) && At(s, pat, j) && i < j < i + |pat|
    ensures Border(pat, j - i)
  {
    var k := j - i;
    assert pat[k..] == s[i..i + |pat|][k..] == s[j..i + |pat|];
    assert pat[..|pat| - k] == s[j..j + |pat|][..|pat| - k] == s[j..i + |pat|];
  }

  // What a caller, who cannot see the file, can check: for a pattern without a
  // border Edit accepts exactly a unique match.
  lemma UnborderedIsUnique(s: Bytes, pat: Bytes)
    requires pat != [] && forall k | 0 < k < |pat| :: !Border(pat, k)
    ensures Count(s, pat) == 1 <==> exists i: nat :: At(s, pat, i) && forall j: nat | At(s, pat, j) :: j == i
  {
    EditAcceptsIff(s, pat);
    hide At, Count, Border;
    if i: nat :| Lone(s, pat, i) {
      forall j: nat | At(s, pat, j) ensures j == i {
        if i < j {
          OverlapIsABorder(s, pat, i, j);
        }
      }
    }
    if i: nat :| At(s, pat, i) && forall j: nat | At(s, pat, j) :: j == i {
      assert Lone(s, pat, i);
    }
  }

  // And for every pattern with one, some file holds two matches and passes.
  lemma BorderedCanPassTwice(pat: Bytes, k: nat)
    requires Border(pat, k)
    ensures var s := pat[..k] + pat; Count(s, pat) == 1 && At(s, pat, 0) && At(s, pat, k)
  {
    var s := pat[..k] + pat;
    assert s[..|pat|] == pat[..k] + pat[..|pat| - k] == pat[..k] + pat[k..] == pat;
    assert s[k..k + |pat|] == pat;
    assert At(s, pat, 0) && Lone(s, pat, 0);
    EditAcceptsIff(s, pat);
  }

  // ---- threads ----

  datatype Thread =
    // Write, Edit and restore_note
    | WStart(req: Request, rel: Path)
    | WLocked(req: Request, rel: Path)
    | WReady(req: Request, rel: Path, seen: Option<Bytes>, answer: Option<Bytes>)
    | WWritten(rel: Path) // on disk, about to commit
    | WCommit(rel: Path)  // inside CommitAll
    | WIndex(rel: Path)
    // one note of a compile pass; base is what its digest was computed from
    | PWalk(path: Path)
    | PIdle(path: Path, base: Bytes)
    | PRewriteWait(path: Path, base: Bytes, out: Bytes)
    | PRewriteLocked(path: Path, base: Bytes, out: Bytes)
    | PRewriteChecked(path: Path, base: Bytes, out: Bytes)
    | PRewriteWritten(path: Path, base: Bytes)
    | PMoveWait(src: Path, dest: Path, base: Bytes, out: Bytes)
    | PMoveHalf(src: Path, dest: Path, base: Bytes, out: Bytes)
    | PMoveLocked(src: Path, dest: Path, base: Bytes, out: Bytes)
    | PMoveChecked(src: Path, dest: Path, base: Bytes, out: Bytes)
    | PMoveWrote(src: Path, dest: Path, base: Bytes, out: Bytes)
    | PMoveRemoved(src: Path, dest: Path, out: Bytes)
    // CommitAll on its own: the end of a compile run, a reconcile
    | CStart
    | CHold
    | Done

  function Held(th: Thread): set<Resource> {
    match th
    case WLocked(_, rel) => {PathLock(rel)}
    case WReady(_, rel, _, _) => {PathLock(rel)}
    case WWritten(rel) => {PathLock(rel)}
    case WCommit(rel) => {PathLock(rel), GitIndex}
    case WIndex(rel) => {PathLock(rel)}
    case PRewriteLocked(p, _, _) => {PathLock(p)}
    case PRewriteChecked(p, _, _) => {PathLock(p)}
    case PRewriteWritten(p, _) => {PathLock(p)}
    case PMoveHalf(s, d, _, _) => {PathLock(First(s, d))}
    case PMoveLocked(s, d, _, _) => {PathLock(s), PathLock(d)}
    case PMoveChecked(s, d, _, _) => {PathLock(s), PathLock(d)}
    case PMoveWrote(s, d, _, _) => {PathLock(s), PathLock(d)}
    case PMoveRemoved(s, d, _) => {PathLock(s), PathLock(d)}
    case CHold => {GitIndex}
    case _ => {}
  }

  // The mutex a thread is blocked on, if any.
  function Wants(th: Thread): Option<Resource> {
    match th
    case WStart(_, rel) => Some(PathLock(rel))
    case WWritten(_) => Some(GitIndex)
    case PRewriteWait(p, _, _) => Some(PathLock(p))
    case PMoveWait(s, d, _, _) => Some(PathLock(First(s, d)))
    case PMoveHalf(s, d, _, _) => Some(PathLock(Second(s, d)))
    case CStart => Some(GitIndex)
    case _ => None
  }

  // ---- the world and its steps ----

  datatype Cause =
    | Answered(req: Request)
    | Rewrote(base: Bytes)
    | MovedIn(base: Bytes)
    | MovedOut(base: Bytes)

  // One change of one file: what it held, what it holds.
  datatype Event = Event(path: Path, cause: Cause, before: Option<Bytes>, after: Option<Bytes>)

  datatype World = World(
    files: map<Path, Bytes>,
    owner: map<Resource, Tid>,
    threads: map<Tid, Thread>,
    log: seq<Event>)

  // What an idle pass does next. Any other thread has one way forward, or its
  // next call fails: it returns the error, and its deferred releases run.
  datatype Choice = Go | Fail | ChooseRewrite(out: Bytes) | ChooseMove(dest: Path, out: Bytes)

  // assertUnchanged: a missing file is not a conflict.
  predicate Unchanged(files: map<Path, Bytes>, rel: Path, want: Digest) {
    match Get(files, rel)
    case None => true
    case Some(cur) => Blake3(cur) == want
  }

  // What a thread's next step does to the shared state.
  datatype Action =
    | Stuck
    | Goto(next: Thread)
    | Acquire(r: Resource, next: Thread)
    | Release(rs: set<Resource>, next: Thread)
    | Store(path: Path, bytes: Bytes, cause: Cause, next: Thread)
    | Remove(path: Path, cause: Cause, next: Thread)

  // A lock cannot fail; what comes before the one around git can.
  predicate CanFail(th: Thread) { th.WWritten? || (Wants(th).None? && !th.Done?) }

  function Advance(prep: Prepare, files: map<Path, Bytes>, th: Thread, c: Choice): Action {
    if c == Fail && CanFail(th) then Release(Held(th), Done) else
    match th
    case WStart(req, rel) => Acquire(PathLock(rel), WLocked(req, rel))
    case WLocked(req, rel) =>
      var cur := Get(files, rel);
      Goto(WReady(req, rel, cur, Respond(prep, rel, req, cur)))
    case WReady(req, rel, _, None) => Release({PathLock(rel)}, Done)
    case WReady(req, rel, _, Some(out)) => Store(rel, out, Answered(req), WWritten(rel))
    case WWritten(rel) => Acquire(GitIndex, WCommit(rel))
    case WCommit(rel) => Release({GitIndex}, WIndex(rel))
    case WIndex(rel) => Release({PathLock(rel)}, Done)
    case PWalk(p) => Goto(if p in files then PIdle(p, files[p]) else Done)
    case PIdle(p, base) =>
      (match c
       case Go => Goto(Done)
       case Fail => Goto(Done)
       case ChooseRewrite(out) => Goto(PRewriteWait(p, base, out))
       case ChooseMove(dest, out) => if dest == p then Stuck else Goto(PMoveWait(p, dest, base, out)))
    case PRewriteWait(p, base, out) => Acquire(PathLock(p), PRewriteLocked(p, base, out))
    case PRewriteLocked(p, base, out) =>
      if Unchanged(files, p, Blake3(base)) then Goto(PRewriteChecked(p, base, out))
      else Release({PathLock(p)}, Done)
    case PRewriteChecked(p, base, out) => Store(p, out, Rewrote(base), PRewriteWritten(p, out))
    case PRewriteWritten(p, base) => Release({PathLock(p)}, PIdle(p, base))
    case PMoveWait(s, d, base, out) => Acquire(PathLock(First(s, d)), PMoveHalf(s, d, base, out))
    case PMoveHalf(s, d, base, out) => Acquire(PathLock(Second(s, d)), PMoveLocked(s, d, base, out))
    case PMoveLocked(s, d, base, out) =>
      if d !in files && Unchanged(files, s, Blake3(base)) then Goto(PMoveChecked(s, d, base, out))
      else Release({PathLock(s), PathLock(d)}, Done)
    case PMoveChecked(s, d, base, out) => Store(d, out, MovedIn(base), PMoveWrote(s, d, base, out))
    case PMoveWrote(s, d, base, out) => Remove(s, MovedOut(base), PMoveRemoved(s, d, out))
    case PMoveRemoved(s, d, _) => Release({PathLock(s), PathLock(d)}, Done)
    case CStart => Acquire(GitIndex, CHold)
    case CHold => Release({GitIndex}, Done)
    case Done => Stuck
  }

  // One step of thread t, or None while it is blocked or finished.
  function Step(prep: Prepare, w: World, t: Tid, c: Choice): Option<World> {
    if t !in w.threads then None else
    match Advance(prep, w.files, w.threads[t], c)
    case Stuck => None
    case Goto(next) => Some(w.(threads := w.threads[t := next]))
    case Acquire(r, next) =>
      if r in w.owner then None
      else Some(w.(threads := w.threads[t := next], owner := w.owner[r := t]))
    case Release(rs, next) => Some(w.(threads := w.threads[t := next], owner := w.owner - rs))
    case Store(p, b, cause, next) =>
      Some(w.(threads := w.threads[t := next], files := w.files[p := b],
              log := w.log + [Event(p, cause, Get(w.files, p), Some(b))]))
    case Remove(p, cause, next) =>
      Some(w.(threads := w.threads[t := next], files := w.files - {p},
              log := w.log + [Event(p, cause, Get(w.files, p), None)]))
  }

  // A run under any schedule; scheduling a blocked thread changes nothing.
  ghost function Exec(prep: Prepare, w: World, schedule: seq<(Tid, Choice)>): World
    decreases |schedule|
  {
    if schedule == [] then w else
    var (t, c) := schedule[|schedule| - 1];
    var v := Exec(prep, w, schedule[..|schedule| - 1]);
    match Step(prep, v, t, c) case None => v case Some(v') => v'
  }

  predicate Fresh(th: Thread) {
    th.WStart? || th.PWalk? || th.CStart?
  }

  ghost predicate Initial(w: World) {
    w.owner == map[] && w.log == [] && forall t | t in w.threads :: Fresh(w.threads[t])
  }

  // ---- invariant ----

  predicate OneOf(o: Option<Bytes>, base: Bytes) { o == None || o == Some(base) }

  ghost predicate Local(prep: Prepare, files: map<Path, Bytes>, th: Thread) {
    match th
    case WReady(req, rel, seen, answer) => Get(files, rel) == seen && answer == Respond(prep, rel, req, seen)
    case PRewriteChecked(p, base, _) => OneOf(Get(files, p), base)
    case PMoveWait(s, d, _, _) => s != d
    case PMoveHalf(s, d, _, _) => s != d
    case PMoveLocked(s, d, _, _) => s != d
    case PMoveChecked(s, d, base, _) => s != d && d !in files && OneOf(Get(files, s), base)
    case PMoveWrote(s, d, base, out) => s != d && Get(files, d) == Some(out) && OneOf(Get(files, s), base)
    case PMoveRemoved(s, d, out) => s != d && Get(files, d) == Some(out) && s !in files
    case _ => true
  }

  // Mutexes and program counters agree: at most one owner, and it knows.
  ghost predicate LocksAgree(w: World) {
    && (forall r | r in w.owner :: w.owner[r] in w.threads && r in Held(w.threads[w.owner[r]]))
    && (forall t, r | t in w.threads && r in Held(w.threads[t]) :: r in w.owner && w.owner[r] == t)
  }

  ghost predicate Inv(prep: Prepare, w: World) {
    LocksAgree(w) && forall t | t in w.threads :: Local(prep, w.files, w.threads[t])
  }

  // The mutexes a thread holds follow from its program counter.
  lemma AdvanceHolds(prep: Prepare, files: map<Path, Bytes>, th: Thread, c: Choice)
    ensures match Advance(prep, files, th, c)
            case Stuck => true
            case Goto(next) => Wants(th).None? && Held(next) == Held(th)
            case Acquire(r, next) => Wants(th) == Some(r) && Held(next) == Held(th) + {r}
            case Release(rs, next) => CanFail(th) && rs <= Held(th) && Held(next) == Held(th) - rs
            case Store(p, _, _, next) => Wants(th).None? && Held(next) == Held(th) && PathLock(p) in Held(th)
            case Remove(p, _, next) => Wants(th).None? && Held(next) == Held(th) && PathLock(p) in Held(th)
  {
  }

  // What a thread knows after a step, it knows of the files as they then are.
  lemma AdvanceKnows(prep: Prepare, files: map<Path, Bytes>, th: Thread, c: Choice)
    requires Local(prep, files, th)
    ensures match Advance(prep, files, th, c)
            case Stuck => true
            case Goto(next) => Local(prep, files, next)
            case Acquire(_, next) => Local(prep, files, next)
            case Release(_, next) => Local(prep, files, next)
            case Store(p, b, cause, next) =>
              Local(prep, files[p := b], next) && Faithful(prep, Event(p, cause, Get(files, p), Some(b)))
            case Remove(p, cause, next) =>
              Local(prep, files - {p}, next) && Faithful(prep, Event(p, cause, Get(files, p), None))
  {
  }

  lemma LocksAgreeAfter(w: World, w': World, t: Tid)
    requires LocksAgree(w) && t in w.threads && t in w'.threads && w'.threads == w.threads[t := w'.threads[t]]
    requires var held, kept := Held(w.threads[t]), Held(w'.threads[t]);
             || (kept <= held && w'.owner == w.owner - (held - kept))
             || exists r :: r !in w.owner && w'.owner == w.owner[r := t] && kept == held + {r}
    ensures LocksAgree(w')
  {
    hide Held;
    forall u, r | u in w'.threads && r in Held(w'.threads[u]) ensures r in w'.owner && w'.owner[r] == u {
      if u != t {
        assert w'.threads[u] == w.threads[u] && w.owner[r] == u;
        assert r !in Held(w.threads[t]);
      }
    }
  }

  lemma StepKeepsLocks(prep: Prepare, w: World, t: Tid, c: Choice)
    requires LocksAgree(w) && Step(prep, w, t, c).Some?
    ensures LocksAgree(Step(prep, w, t, c).value)
  {
    var w' := Step(prep, w, t, c).value;
    AdvanceHolds(prep, w.files, w.threads[t], c);
    var held, kept := Held(w.threads[t]), Held(w'.threads[t]);
    match Advance(prep, w.files, w.threads[t], c) {
      case Stuck =>
      case Acquire(r, _) =>
      case Release(rs, _) => assert held - kept == rs;
      case _ => assert held - kept == {};
    }
    LocksAgreeAfter(w, w', t);
  }

  // A thread writes only the files it has locked.
  lemma StepWritesLocked(prep: Prepare, w: World, t: Tid, c: Choice, p: Path)
    requires Step(prep, w, t, c).Some?
    requires PathLock(p) !in Held(w.threads[t])
    ensures Get(Step(prep, w, t, c).value.files, p) == Get(w.files, p)
  {
    AdvanceHolds(prep, w.files, w.threads[t], c);
  }

  lemma OthersKeepLocal(prep: Prepare, w: World, t: Tid, c: Choice, u: Tid)
    requires Inv(prep, w) && Step(prep, w, t, c).Some? && u in w.threads && u != t
    ensures Local(prep, Step(prep, w, t, c).value.files, w.threads[u])
  {
    var w' := Step(prep, w, t, c).value;
    forall p | PathLock(p) in Held(w.threads[u]) ensures Get(w'.files, p) == Get(w.files, p) {
      assert w.owner[PathLock(p)] == u;
      StepWritesLocked(prep, w, t, c, p);
    }
    LocalReadsLocked(prep, w.files, w'.files, w.threads[u]);
  }

  lemma StepKeepsInv(prep: Prepare, w: World, t: Tid, c: Choice)
    requires Inv(prep, w) && Step(prep, w, t, c).Some?
    ensures Inv(prep, Step(prep, w, t, c).value)
  {
    var w' := Step(prep, w, t, c).value;
    StepKeepsLocks(prep, w, t, c);
    AdvanceKnows(prep, w.files, w.threads[t], c);
    forall u | u in w'.threads ensures Local(prep, w'.files, w'.threads[u]) {
      if u != t {
        OthersKeepLocal(prep, w, t, c, u);
      }
    }
  }

  lemma LocalReadsLocked(prep: Prepare, f: map<Path, Bytes>, g: map<Path, Bytes>, th: Thread)
    requires Local(prep, f, th)
    requires forall p | PathLock(p) in Held(th) :: Get(g, p) == Get(f, p)
    ensures Local(prep, g, th)
  {
    match th
    case WReady(_, rel, _, _) => assert PathLock(rel) in Held(th);
    case PRewriteChecked(p, _, _) => assert PathLock(p) in Held(th);
    case PMoveChecked(s, d, _, _) => assert PathLock(s) in Held(th) && PathLock(d) in Held(th);
    case PMoveWrote(s, d, _, _) => assert PathLock(s) in Held(th) && PathLock(d) in Held(th);
    case PMoveRemoved(s, d, _) => assert PathLock(s) in Held(th) && PathLock(d) in Held(th);
    case _ =>
  }

  lemma {:induction false} ReachableInv(prep: Prepare, w0: World, schedule: seq<(Tid, Choice)>)
    requires Initial(w0)
    ensures Inv(prep, Exec(prep, w0, schedule))
    decreases |schedule|
  {
    if schedule != [] {
      var n := |schedule| - 1;
      ReachableInv(prep, w0, schedule[..n]);
      var (t, c) := schedule[n];
      var v := Exec(prep, w0, schedule[..n]);
      if Step(prep, v, t, c).Some? {
        StepKeepsInv(prep, v, t, c);
      }
    }
  }

  // ---- no lost update ----

  // A change was computed from exactly what it replaced. Write and restore
  // supply whole content; they answer to what they saw under the lock.
  ghost predicate Faithful(prep: Prepare, e: Event) {
    match e.cause
    case Answered(req) => e.after.Some? && Respond(prep, e.path, req, e.before) == e.after
    case Rewrote(base) => e.after.Some? && OneOf(e.before, base)
    case MovedIn(_) => e.after.Some? && e.before == None
    case MovedOut(base) => e.after == None && OneOf(e.before, base)
  }

  // The files some prefix of the log leaves behind.
  ghost function Replay(files: map<Path, Bytes>, log: seq<Event>): map<Path, Bytes> {
    if log == [] then files else
    var f := Replay(files, log[..|log| - 1]);
    var e := log[|log| - 1];
    if e.after.Some? then f[e.path := e.after.value] else f - {e.path}
  }

  ghost predicate LogFaithful(prep: Prepare, files: map<Path, Bytes>, log: seq<Event>) {
    forall i | 0 <= i < |log| ::
      Faithful(prep, log[i]) && log[i].before == Get(Replay(files, log[..i]), log[i].path)
  }

  lemma ReplaySnoc(files: map<Path, Bytes>, log: seq<Event>, e: Event)
    ensures Replay(files, log + [e]) ==
            if e.after.Some? then Replay(files, log)[e.path := e.after.value] else Replay(files, log) - {e.path}
  {
    assert (log + [e])[..|log|] == log;
  }

  lemma LogFaithfulExtends(prep: Prepare, files: map<Path, Bytes>, log: seq<Event>, e: Event)
    requires LogFaithful(prep, files, log)
    requires Faithful(prep, e) && e.before == Get(Replay(files, log), e.path)
    ensures LogFaithful(prep, files, log + [e])
  {
    var all := log + [e];
    assert all[..|log|] == log;
    forall i | 0 <= i < |all|
      ensures Faithful(prep, all[i]) && all[i].before == Get(Replay(files, all[..i]), all[i].path)
    {
      if i < |log| {
        assert all[..i] == log[..i];
      }
    }
  }

  // Every change is faithful to the state all earlier changes produced.
  lemma {:induction false} NoLostUpdate(prep: Prepare, w0: World, schedule: seq<(Tid, Choice)>)
    requires Initial(w0)
    ensures var w := Exec(prep, w0, schedule);
            w.files == Replay(w0.files, w.log) && LogFaithful(prep, w0.files, w.log)
    decreases |schedule|
  {
    if schedule != [] {
      var n := |schedule| - 1;
      NoLostUpdate(prep, w0, schedule[..n]);
      ReachableInv(prep, w0, schedule[..n]);
      var (t, c) := schedule[n];
      var v := Exec(prep, w0, schedule[..n]);
      var w := Exec(prep, w0, schedule);
      if Step(prep, v, t, c).Some? {
        AdvanceKnows(prep, v.files, v.threads[t], c);
        if w.log != v.log {
          LogFaithfulExtends(prep, w0.files, v.log, w.log[|v.log|]);
          ReplaySnoc(w0.files, v.log, w.log[|v.log|]);
        }
      }
    }
  }

  // Between two neighbouring changes of one file nothing is reverted: the
  // later one starts from what the earlier one left.
  lemma NeighboursChain(prep: Prepare, w0: World, schedule: seq<(Tid, Choice)>, i: nat, j: nat)
    requires Initial(w0)
    requires i < j < |Exec(prep, w0, schedule).log|
    requires var log := Exec(prep, w0, schedule).log;
             log[i].path == log[j].path && forall k | i < k < j :: log[k].path != log[i].path
    ensures var log := Exec(prep, w0, schedule).log;
            && log[j].before == log[i].after
            && (log[j].cause.Rewrote? || log[j].cause.MovedOut? ==> OneOf(log[i].after, log[j].cause.base))
  {
    var log := Exec(prep, w0, schedule).log;
    NoLostUpdate(prep, w0, schedule);
    assert log[..j][i] == log[i];
    ReplayKeeps(w0.files, log[..j], i);
    assert Faithful(prep, log[j]);
  }

  lemma {:induction false} ReplayKeeps(files: map<Path, Bytes>, log: seq<Event>, i: nat)
    requires i < |log| && forall k | i < k < |log| :: log[k].path != log[i].path
    ensures Get(Replay(files, log), log[i].path) == log[i].after
    decreases |log|
  {
    var n := |log| - 1;
    if i < n {
      assert log[..n][i] == log[i];
      ReplayKeeps(files, log[..n], i);
    }
  }

  // ---- every interleaving is a serial run of whole operations ----

  // A half move wrote its destination and then failed.
  datatype Atomic =
    | Stutter
    | Answer(rel: Path, req: Request)
    | Rewrite(path: Path, base: Bytes, out: Bytes)
    | Move(src: Path, dest: Path, base: Bytes, out: Bytes)
    | HalfMove(src: Path, dest: Path, base: Bytes, out: Bytes)

  // One whole operation on the files, None where it must not happen.
  ghost function Effect(prep: Prepare, op: Atomic, files: map<Path, Bytes>): Option<map<Path, Bytes>> {
    match op
    case Stutter => Some(files)
    case Answer(rel, req) =>
      var out := Respond(prep, rel, req, Get(files, rel));
      if out.Some? then Some(files[rel := out.value]) else None
    case Rewrite(p, base, out) =>
      if OneOf(Get(files, p), base) then Some(files[p := out]) else None
    case Move(s, d, base, out) =>
      if s != d && d !in files && OneOf(Get(files, s), base) then Some((files - {s})[d := out]) else None
    case HalfMove(s, d, base, out) =>
      if s != d && d !in files && OneOf(Get(files, s), base) then Some(files[d := out]) else None
  }

  ghost function Serial(prep: Prepare, files: map<Path, Bytes>, ops: seq<Atomic>): Option<map<Path, Bytes>> {
    if ops == [] then Some(files) else
    match Serial(prep, files, ops[..|ops| - 1])
    case None => None
    case Some(f) => Effect(prep, ops[|ops| - 1], f)
  }

  // The step at which a thread's operation takes effect as a whole: a move's is
  // the removal of its source, or the failure that spares it.
  ghost function Linearized(th: Thread, c: Choice): Atomic {
    match th
    case WReady(req, rel, _, answer) => if answer.Some? && c != Fail then Answer(rel, req) else Stutter
    case PRewriteChecked(p, base, out) => if c != Fail then Rewrite(p, base, out) else Stutter
    case PMoveWrote(s, d, base, out) => if c != Fail then Move(s, d, base, out) else HalfMove(s, d, base, out)
    case _ => Stutter
  }

  ghost function Ops(prep: Prepare, w: World, schedule: seq<(Tid, Choice)>): seq<Atomic>
    decreases |schedule|
  {
    if schedule == [] then [] else
    var (t, c) := schedule[|schedule| - 1];
    var v := Exec(prep, w, schedule[..|schedule| - 1]);
    Ops(prep, w, schedule[..|schedule| - 1])
    + [if Step(prep, v, t, c).Some? then Linearized(v.threads[t], c) else Stutter]
  }

  // The destination of a move still under way has not arrived yet.
  ghost predicate Arriving(w: World, p: Path) {
    exists t | t in w.threads :: w.threads[t].PMoveWrote? && w.threads[t].dest == p
  }

  ghost function Visible(w: World): map<Path, Bytes> {
    map p | p in w.files && !Arriving(w, p) :: w.files[p]
  }

  // At most one thread is moving to a path.
  lemma OneArrives(w: World, t: Tid, u: Tid)
    requires LocksAgree(w) && t in w.threads && u in w.threads
    requires w.threads[t].PMoveWrote? && w.threads[u].PMoveWrote? && w.threads[t].dest == w.threads[u].dest
    ensures t == u
  {
    var r := PathLock(w.threads[t].dest);
    assert w.owner[r] == t && w.owner[r] == u;
  }

  // A destination is written from one program point, by a step that succeeds.
  predicate StartsArriving(th: Thread, c: Choice) { th.PMoveChecked? && c != Fail }

  lemma ArrivingStep(prep: Prepare, w: World, t: Tid, c: Choice, p: Path)
    requires LocksAgree(w) && Step(prep, w, t, c).Some?
    ensures var w' := Step(prep, w, t, c).value; var th := w.threads[t];
            Arriving(w', p) <==> if StartsArriving(th, c) then Arriving(w, p) || p == th.dest
                                 else Arriving(w, p) && !(th.PMoveWrote? && p == th.dest)
  {
    var w' := Step(prep, w, t, c).value;
    StepStartsArriving(prep, w, t, c);
    ArrivingUpdate(w, w', t, c, p);
  }

  lemma StepStartsArriving(prep: Prepare, w: World, t: Tid, c: Choice)
    requires Step(prep, w, t, c).Some?
    ensures var next := Step(prep, w, t, c).value.threads[t];
            && (next.PMoveWrote? <==> StartsArriving(w.threads[t], c))
            && (next.PMoveWrote? ==> next.dest == w.threads[t].dest)
  {
    var next := Advance(prep, w.files, w.threads[t], c).next;
    assert next.PMoveWrote? <==> StartsArriving(w.threads[t], c);
  }

  lemma ArrivingUpdate(w: World, w': World, t: Tid, c: Choice, p: Path)
    requires LocksAgree(w) && t in w.threads && t in w'.threads && w'.threads == w.threads[t := w'.threads[t]]
    requires w'.threads[t].PMoveWrote? <==> StartsArriving(w.threads[t], c)
    requires w'.threads[t].PMoveWrote? ==> w'.threads[t].dest == w.threads[t].dest
    ensures var th := w.threads[t];
            Arriving(w', p) <==> if StartsArriving(th, c) then Arriving(w, p) || p == th.dest
                                 else Arriving(w, p) && !(th.PMoveWrote? && p == th.dest)
  {
    if Arriving(w, p) {
      var u :| u in w.threads && w.threads[u].PMoveWrote? && w.threads[u].dest == p;
      if u != t {
        assert w'.threads[u] == w.threads[u];
        if w.threads[t].PMoveWrote? && w.threads[t].dest == p {
          OneArrives(w, t, u);
        }
      }
    }
    if Arriving(w', p) {
      var u :| u in w'.threads && w'.threads[u].PMoveWrote? && w'.threads[u].dest == p;
      if u != t {
        assert w.threads[u] == w'.threads[u];
        if w.threads[t].PMoveWrote? && w.threads[t].dest == p {
          OneArrives(w, t, u);
        }
      }
    }
    if StartsArriving(w.threads[t], c) {
      assert w'.threads[t].dest == w.threads[t].dest;
    }
  }

  // No thread but its owner can be moving to a locked path.
  lemma LockedByMe(prep: Prepare, w: World, t: Tid, p: Path)
    requires Inv(prep, w) && t in w.threads && PathLock(p) in Held(w.threads[t])
    requires w.threads[t].PMoveWrote? ==> w.threads[t].dest != p
    ensures !Arriving(w, p)
  {
    forall u | u in w.threads && w.threads[u].PMoveWrote? ensures w.threads[u].dest != p {
      assert w.owner[PathLock(w.threads[u].dest)] == u;
      assert w.owner[PathLock(p)] == t;
    }
  }

  // The steps that change files are the ones that stand for an operation, and
  // the write that begins a move.
  lemma AdvanceEffect(prep: Prepare, files: map<Path, Bytes>, th: Thread, c: Choice)
    ensures var a := Advance(prep, files, th, c);
            && (a.Store? <==> StartsArriving(th, c) || (Linearized(th, c) != Stutter && !th.PMoveWrote?))
            && (a.Remove? <==> th.PMoveWrote? && c != Fail)
  {
  }

  lemma StepIsAtomic(prep: Prepare, w: World, t: Tid, c: Choice)
    requires Inv(prep, w) && Step(prep, w, t, c).Some?
    ensures Effect(prep, Linearized(w.threads[t], c), Visible(w)) == Some(Visible(Step(prep, w, t, c).value))
  {
    var w' := Step(prep, w, t, c).value;
    var th := w.threads[t];
    forall p: Path {
      ArrivingStep(prep, w, t, c, p);
    }
    assert Local(prep, w.files, th);
    if StartsArriving(th, c) {
      LockedByMe(prep, w, t, th.dest);
      assert Visible(w') == Visible(w);
    } else if th.PMoveWrote? {
      MoveIsAtomic(prep, w, w', t, c);
    } else if Linearized(th, c) != Stutter {
      var p := if th.WReady? then th.rel else th.path;
      LockedByMe(prep, w, t, p);
      assert Visible(w') == Visible(w)[p := w'.files[p]];
    } else {
      AdvanceEffect(prep, w.files, th, c);
      SameVisible(w, w');
    }
  }

  lemma MoveIsAtomic(prep: Prepare, w: World, w': World, t: Tid, c: Choice)
    requires Inv(prep, w) && t in w.threads && w.threads[t].PMoveWrote?
    requires w'.files == if c == Fail then w.files else w.files - {w.threads[t].src}
    requires forall p: Path :: Arriving(w', p) <==> Arriving(w, p) && p != w.threads[t].dest
    ensures Effect(prep, Linearized(w.threads[t], c), Visible(w)) == Some(Visible(w'))
  {
    var th := w.threads[t];
    assert Local(prep, w.files, th) && Arriving(w, th.dest);
    LockedByMe(prep, w, t, th.src);
    if c == Fail {
      assert Visible(w') == Visible(w)[th.dest := th.out];
    } else {
      assert Visible(w') == (Visible(w) - {th.src})[th.dest := th.out];
    }
  }

  lemma SameVisible(w: World, w': World)
    requires w'.files == w.files && forall p: Path :: Arriving(w', p) <==> Arriving(w, p)
    ensures Visible(w') == Visible(w)
  {
  }

  // The main refinement: what any interleaving leaves visible, whichever calls
  // fail in it, is what the serial run of its whole operations leaves, each of
  // them allowed.
  lemma {:induction false} EveryRunIsSerial(prep: Prepare, w0: World, schedule: seq<(Tid, Choice)>)
    requires Initial(w0)
    ensures Serial(prep, w0.files, Ops(prep, w0, schedule)) == Some(Visible(Exec(prep, w0, schedule)))
    decreases |schedule|
  {
    if schedule == [] {
      assert forall p :: !Arriving(w0, p);
      assert Visible(w0) == w0.files;
    } else {
      var n := |schedule| - 1;
      EveryRunIsSerial(prep, w0, schedule[..n]);
      ReachableInv(prep, w0, schedule[..n]);
      var (t, c) := schedule[n];
      var v := Exec(prep, w0, schedule[..n]);
      var ops := Ops(prep, w0, schedule);
      assert ops[..|ops| - 1] == Ops(prep, w0, schedule[..n]);
      if Step(prep, v, t, c).Some? {
        StepIsAtomic(prep, v, t, c);
      }
    }
  }

  // Outside the locks the disk is exactly that serial state.
  lemma UnlockedIsSettled(prep: Prepare, w0: World, schedule: seq<(Tid, Choice)>, p: Path)
    requires Initial(w0)
    requires PathLock(p) !in Exec(prep, w0, schedule).owner
    ensures var w := Exec(prep, w0, schedule); Get(w.files, p) == Get(Visible(w), p)
  {
    var w := Exec(prep, w0, schedule);
    ReachableInv(prep, w0, schedule);
    hide Exec;
    forall u | u in w.threads && w.threads[u].PMoveWrote? ensures w.threads[u].dest != p {
      assert PathLock(w.threads[u].dest) in Held(w.threads[u]);
    }
  }

  // ---- what a move leaves behind ----

  // Steps of everyone but t.
  predicate Spares(schedule: seq<(Tid, Choice)>, t: Tid) { forall k | 0 <= k < |schedule| :: schedule[k].0 != t }

  ghost predicate KeepsMine(w: World, w': World, t: Tid)
    requires t in w.threads
  {
    && t in w'.threads && w'.threads[t] == w.threads[t]
    && forall p | PathLock(p) in Held(w.threads[t]) :: Get(w'.files, p) == Get(w.files, p)
  }

  // While others run, a thread's counter and the files it has locked stay.
  lemma {:induction false} OthersKeepMine(prep: Prepare, w: World, schedule: seq<(Tid, Choice)>, t: Tid)
    requires Inv(prep, w) && t in w.threads && Spares(schedule, t)
    ensures var w' := Exec(prep, w, schedule); Inv(prep, w') && KeepsMine(w, w', t)
    decreases |schedule|
  {
    if schedule != [] {
      var n := |schedule| - 1;
      OthersKeepMine(prep, w, schedule[..n], t);
      OtherKeepsMine(prep, Exec(prep, w, schedule[..n]), t, schedule[n].0, schedule[n].1);
    }
  }

  lemma OtherKeepsMine(prep: Prepare, w: World, t: Tid, u: Tid, c: Choice)
    requires Inv(prep, w) && t in w.threads && u != t
    ensures Step(prep, w, u, c).Some? ==> var w' := Step(prep, w, u, c).value; Inv(prep, w') && KeepsMine(w, w', t)
  {
    if Step(prep, w, u, c).Some? {
      StepKeepsInv(prep, w, u, c);
      forall p | PathLock(p) in Held(w.threads[t]) ensures Get(Step(prep, w, u, c).value.files, p) == Get(w.files, p) {
        assert w.owner[PathLock(p)] == t;
        StepWritesLocked(prep, w, u, c, p);
      }
    }
  }

  function After(prep: Prepare, w: World, t: Tid, c: Choice): World {
    match Step(prep, w, t, c) case None => w case Some(w') => w'
  }

  lemma ExecSnoc(prep: Prepare, w: World, schedule: seq<(Tid, Choice)>, t: Tid, c: Choice)
    ensures Exec(prep, w, schedule + [(t, c)]) == After(prep, Exec(prep, w, schedule), t, c)
  {
    assert (schedule + [(t, c)])[..|schedule|] == schedule;
  }

  lemma {:induction false} ExecAppend(prep: Prepare, w: World, a: seq<(Tid, Choice)>, b: seq<(Tid, Choice)>)
    ensures Exec(prep, w, a + b) == Exec(prep, Exec(prep, w, a), b)
    decreases |b|
  {
    hide Step, After, Exec;
    if b == [] {
      assert a + b == a;
      NoRun(prep, Exec(prep, w, a));
    } else {
      var n := |b| - 1;
      var (t, c) := b[n];
      ExecAppend(prep, w, a, b[..n]);
      assert b == b[..n] + [(t, c)] && a + b == a + b[..n] + [(t, c)];
      ExecSnoc(prep, w, a + b[..n], t, c);
      ExecSnoc(prep, Exec(prep, w, a), b[..n], t, c);
    }
  }

  lemma NoRun(prep: Prepare, w: World)
    ensures Exec(prep, w, []) == w
  {
  }

  // Free of its locks and done.
  predicate Out(w: World, t: Tid, s: Path, d: Path) {
    t in w.threads && w.threads[t] == Done && PathLock(s) !in w.owner && PathLock(d) !in w.owner
  }

  // From the write of its destination on, whatever others do between its steps:
  // a move that fails next, in its indexing or in the removal, is out with its
  // source as it was.
  lemma FailedMoveKeepsSource(prep: Prepare, w: World, t: Tid, b: seq<(Tid, Choice)>)
    requires Inv(prep, w) && t in w.threads && w.threads[t].PMoveChecked? && Spares(b, t)
    ensures var th, end := w.threads[t], Exec(prep, w, [(t, Go)] + b + [(t, Fail)]);
            && Out(end, t, th.src, th.dest) && Get(end.files, th.dest) == Some(th.out)
            && Get(end.files, th.src) == Get(w.files, th.src)
  {
    hide Step, Exec, After, Inv;
    var wrote := After(prep, w, t, Go);
    MoveWrites(prep, w, t);
    OthersKeepMine(prep, wrote, b, t);
    WroteRun(prep, w, t, b);
    ExecSnoc(prep, w, [(t, Go)] + b, t, Fail);
    MoveFails(prep, Exec(prep, wrote, b), t);
  }

  lemma MoveFails(prep: Prepare, w: World, t: Tid)
    requires t in w.threads && w.threads[t].PMoveWrote?
    ensures var th, w' := w.threads[t], After(prep, w, t, Fail); Out(w', t, th.src, th.dest) && w'.files == w.files
  {
  }

  // Any other is out with its source gone.
  lemma LandedMoveDropsSource(prep: Prepare, w: World, t: Tid, b: seq<(Tid, Choice)>, c: Choice, e: seq<(Tid, Choice)>,
                              last: Choice)
    requires Inv(prep, w) && t in w.threads && w.threads[t].PMoveChecked? && Spares(b, t) && Spares(e, t) && c != Fail
    ensures var th, end := w.threads[t], Exec(prep, w, [(t, Go)] + b + [(t, c)] + e + [(t, last)]);
            Out(end, t, th.src, th.dest) && Get(end.files, th.dest) == Some(th.out) && Get(end.files, th.src) == None
  {
    hide Step, Exec, After, Inv;
    var wrote, writes := After(prep, w, t, Go), [(t, Go)] + b;
    MoveWrites(prep, w, t);
    OthersKeepMine(prep, wrote, b, t);
    WroteRun(prep, w, t, b);
    var v := Exec(prep, wrote, b);
    MoveRemoves(prep, v, t, c);
    ExecSnoc(prep, w, writes, t, c);
    RemovedIsOut(prep, After(prep, v, t, c), t, e, last);
    ExecAppend(prep, w, writes + [(t, c)], e);
    ExecSnoc(prep, w, writes + [(t, c)] + e, t, last);
  }

  lemma RemovedIsOut(prep: Prepare, w: World, t: Tid, e: seq<(Tid, Choice)>, last: Choice)
    requires Inv(prep, w) && t in w.threads && w.threads[t].PMoveRemoved? && Spares(e, t)
    ensures var th, end := w.threads[t], After(prep, Exec(prep, w, e), t, last);
            Out(end, t, th.src, th.dest) && Get(end.files, th.dest) == Some(th.out) && Get(end.files, th.src) == None
  {
    OthersKeepMine(prep, w, e, t);
    var v := Exec(prep, w, e);
    assert Local(prep, v.files, v.threads[t]);
    hide Exec, Inv;
  }

  lemma MoveWrites(prep: Prepare, w: World, t: Tid)
    requires Inv(prep, w) && t in w.threads && w.threads[t].PMoveChecked?
    ensures Inv(prep, After(prep, w, t, Go))
    ensures var th, w' := w.threads[t], After(prep, w, t, Go);
            && t in w'.threads && w'.threads[t] == PMoveWrote(th.src, th.dest, th.base, th.out)
            && Get(w'.files, th.dest) == Some(th.out) && Get(w'.files, th.src) == Get(w.files, th.src)
  {
    StepKeepsInv(prep, w, t, Go);
    assert Local(prep, w.files, w.threads[t]);
    hide Inv;
  }

  lemma MoveRemoves(prep: Prepare, w: World, t: Tid, c: Choice)
    requires t in w.threads && w.threads[t].PMoveWrote? && c != Fail
    requires Inv(prep, w)
    ensures Step(prep, w, t, c).Some? && Inv(prep, After(prep, w, t, c))
    ensures var th, w' := w.threads[t], After(prep, w, t, c);
            && t in w'.threads && w'.threads[t] == PMoveRemoved(th.src, th.dest, th.out) && w'.files == w.files - {th.src}
  {
    StepKeepsInv(prep, w, t, c);
    hide Inv;
  }

  lemma WroteRun(prep: Prepare, w: World, t: Tid, b: seq<(Tid, Choice)>)
    ensures Exec(prep, w, [(t, Go)] + b) == Exec(prep, After(prep, w, t, Go), b)
  {
    assert [] + [(t, Go)] == [(t, Go)];
    ExecSnoc(prep, w, [], t, Go);
    ExecAppend(prep, w, [(t, Go)], b);
  }

  // A move's life from its check to the release of its locks.
  function MoveRun(t: Tid, b: seq<(Tid, Choice)>, c: Choice, e: seq<(Tid, Choice)>, last: Choice): seq<(Tid, Choice)> {
    [(t, Go)] + b + [(t, c)] + if c == Fail then [] else e + [(t, last)]
  }

  // In every run, once the locks of a move that wrote its destination are
  // released, the note is at its destination, and still at its source exactly
  // when its indexing or the removal failed and it was there to begin with.
  lemma MoveKeepsSourceIff(prep: Prepare, w0: World, a: seq<(Tid, Choice)>, t: Tid, b: seq<(Tid, Choice)>, c: Choice,
                           e: seq<(Tid, Choice)>, last: Choice)
    requires Initial(w0) && Spares(b, t) && Spares(e, t)
    requires var v := Exec(prep, w0, a); t in v.threads && v.threads[t].PMoveChecked?
    ensures var v, end := Exec(prep, w0, a), Exec(prep, w0, a + MoveRun(t, b, c, e, last)); var th := v.threads[t];
            && Out(end, t, th.src, th.dest) && Get(end.files, th.dest) == Some(th.out)
            && (th.src in end.files <==> c == Fail && th.src in v.files)
            && (th.src in end.files ==> end.files[th.src] == th.base)
  {
    var v := Exec(prep, w0, a);
    var th := v.threads[t];
    ReachableInv(prep, w0, a);
    assert Local(prep, v.files, th);
    ExecAppend(prep, w0, a, MoveRun(t, b, c, e, last));
    if c == Fail {
      assert MoveRun(t, b, c, e, last) == [(t, Go)] + b + [(t, Fail)];
      FailedMoveKeepsSource(prep, v, t, b);
    } else {
      assert MoveRun(t, b, c, e, last) == [(t, Go)] + b + [(t, c)] + e + [(t, last)];
      LandedMoveDropsSource(prep, v, t, b, c, e, last);
    }
  }

  // And at no moment of any run is it at neither: a move that has written its
  // destination has it on disk, and one that has not has removed nothing.
  lemma NeverAtNeither(prep: Prepare, w0: World, schedule: seq<(Tid, Choice)>, t: Tid)
    requires Initial(w0)
    ensures var w := Exec(prep, w0, schedule);
            t in w.threads && (w.threads[t].PMoveWrote? || w.threads[t].PMoveRemoved?) ==>
              Get(w.files, w.threads[t].dest) == Some(w.threads[t].out)
  {
    var w := Exec(prep, w0, schedule);
    ReachableInv(prep, w0, schedule);
    if t in w.threads {
      assert Local(prep, w.files, w.threads[t]);
    }
  }

  // A pass that archives a note and fails to index it at its new path.
  function StrandedRun(q: Path, out: Bytes): seq<(Tid, Choice)> {
    [(0, Go)] + [(0, ChooseMove(q, out))] + [(0, Go)] + [(0, Go)] + [(0, Go)] + [(0, Go)] + [(0, Fail)]
  }

  function Solo(files: map<Path, Bytes>, owner: map<Resource, Tid>, th: Thread, log: seq<Event>): World {
    World(files, owner, map[0 := th], log)
  }

  lemma SoloGoes(prep: Prepare, files: map<Path, Bytes>, owner: map<Resource, Tid>, th: Thread, log: seq<Event>, c: Choice)
    ensures var w' := After(prep, Solo(files, owner, th, log), 0, c);
            match Advance(prep, files, th, c)
            case Goto(next) => w' == Solo(files, owner, next, log)
            case Acquire(r, next) => r !in owner ==> w' == Solo(files, owner[r := 0], next, log)
            case Release(rs, next) => w' == Solo(files, owner - rs, next, log)
            case Store(p, b, cause, next) =>
              w' == Solo(files[p := b], owner, next, log + [Event(p, cause, Get(files, p), Some(b))])
            case _ => true
  {
    hide Advance;
    forall next: Thread ensures map[0 := th][0 := next] == map[0 := next] {
    }
  }

  // The steps of that pass.
  lemma MoveScript(prep: Prepare, files: map<Path, Bytes>, p: Path, q: Path, base: Bytes, out: Bytes)
    requires p != q && Get(files, p) == Some(base)
    ensures Advance(prep, files, PWalk(p), Go) == Goto(PIdle(p, base))
    ensures Advance(prep, files, PIdle(p, base), ChooseMove(q, out)) == Goto(PMoveWait(p, q, base, out))
    ensures Advance(prep, files, PMoveWait(p, q, base, out), Go) == Acquire(PathLock(First(p, q)), PMoveHalf(p, q, base, out))
    ensures Advance(prep, files, PMoveHalf(p, q, base, out), Go) ==
            Acquire(PathLock(Second(p, q)), PMoveLocked(p, q, base, out))
    ensures q !in files ==> Advance(prep, files, PMoveLocked(p, q, base, out), Go) == Goto(PMoveChecked(p, q, base, out))
    ensures Advance(prep, files, PMoveChecked(p, q, base, out), Go) ==
            Store(q, out, MovedIn(base), PMoveWrote(p, q, base, out))
    ensures Advance(prep, files, PMoveWrote(p, q, base, out), Fail) == Release({PathLock(p), PathLock(q)}, Done)
  {
  }

  // The note ends at both paths with no lock held.
  lemma NoteAtBothPaths(prep: Prepare, p: Path, q: Path, base: Bytes, out: Bytes)
    requires p != q
    ensures var w0 := Solo(map[p := base], map[], PWalk(p), []); var w := Exec(prep, w0, StrandedRun(q, out));
            Initial(w0) && w.files == map[p := base, q := out] && w.owner == map[] && w.threads == map[0 := Done]
  {
    var w0 := Solo(map[p := base], map[], PWalk(p), []);
    var lead := [(0, Go)] + [(0, ChooseMove(q, out))] + [(0, Go)] + [(0, Go)];
    StrandedLocks(prep, p, q, base, out);
    StrandedWrite(prep, p, q, base, out);
    hide Advance, Step, After, Exec, Solo;
    ExecSnoc(prep, w0, lead, 0, Go);
    ExecSnoc(prep, w0, lead + [(0, Go)], 0, Go);
    ExecSnoc(prep, w0, lead + [(0, Go)] + [(0, Go)], 0, Fail);
  }

  lemma StrandedLocks(prep: Prepare, p: Path, q: Path, base: Bytes, out: Bytes)
    requires p != q
    ensures var w0 := Solo(map[p := base], map[], PWalk(p), []);
            && Initial(w0)
            && Exec(prep, w0, [(0, Go)] + [(0, ChooseMove(q, out))] + [(0, Go)] + [(0, Go)]) ==
               Solo(map[p := base], map[PathLock(p) := 0, PathLock(q) := 0], PMoveLocked(p, q, base, out), [])
  {
    hide Advance, Step, After, Exec;
    var files, none := map[p := base], map[];
    MoveScript(prep, files, p, q, base, out);
    var w0 := Solo(files, none, PWalk(p), []);
    var r1 := [(0, Go)];
    var r2 := r1 + [(0, ChooseMove(q, out))];
    SoloGoes(prep, files, none, PWalk(p), [], Go);
    SoloGoes(prep, files, none, PIdle(p, base), [], ChooseMove(q, out));
    SoloGoes(prep, files, none, PMoveWait(p, q, base, out), [], Go);
    var half := map[PathLock(First(p, q)) := 0];
    SoloGoes(prep, files, half, PMoveHalf(p, q, base, out), [], Go);
    NoRun(prep, w0);
    assert [] + [(0, Go)] == r1;
    ExecSnoc(prep, w0, [], 0, Go);
    ExecSnoc(prep, w0, r1, 0, ChooseMove(q, out));
    ExecSnoc(prep, w0, r2, 0, Go);
    ExecSnoc(prep, w0, r2 + [(0, Go)], 0, Go);
    assert none[PathLock(First(p, q)) := 0] == half;
    assert half[PathLock(Second(p, q)) := 0] == map[PathLock(p) := 0, PathLock(q) := 0];
  }

  lemma StrandedWrite(prep: Prepare, p: Path, q: Path, base: Bytes, out: Bytes)
    requires p != q
    ensures var both := map[PathLock(p) := 0, PathLock(q) := 0];
            var w := Solo(map[p := base], both, PMoveLocked(p, q, base, out), []);
            var end := After(prep, After(prep, After(prep, w, 0, Go), 0, Go), 0, Fail);
            end.files == map[p := base, q := out] && end.owner == map[] && end.threads == map[0 := Done]
  {
    hide Advance, Step, After;
    var files, both := map[p := base], map[PathLock(p) := 0, PathLock(q) := 0];
    MoveScript(prep, files, p, q, base, out);
    MoveScript(prep, files[q := out], p, q, base, out);
    var log := [Event(q, MovedIn(base), None, Some(out))];
    SoloGoes(prep, files, both, PMoveLocked(p, q, base, out), [], Go);
    SoloGoes(prep, files, both, PMoveChecked(p, q, base, out), [], Go);
    SoloGoes(prep, files[q := out], both, PMoveWrote(p, q, base, out), [] + log, Fail);
    assert files[q := out] == map[p := base, q := out];
    assert both - {PathLock(p), PathLock(q)} == map[];
  }

  // ---- no deadlock ----

  predicate Before(a: Resource, b: Resource) {
    match (a, b)
    case (PathLock(p), PathLock(q)) => Less(p, q)
    case (PathLock(_), GitIndex) => true
    case _ => false
  }

  // Whoever waits while holding waits for something later in the order.
  lemma WaitsUpwards(prep: Prepare, files: map<Path, Bytes>, th: Thread, r: Resource)
    requires Local(prep, files, th) && Wants(th).Some? && r in Held(th)
    ensures Before(r, Wants(th).value)
  {
    if th.PMoveHalf? {
      LessIsTotal(th.src, th.dest);
    }
  }

  lemma BeforeIsOrder(a: Resource, b: Resource, c: Resource)
    ensures !Before(a, a)
    ensures Before(a, b) && Before(b, c) ==> Before(a, c)
  {
    if a.PathLock? {
      LessIsStrict(a.path);
      if b.PathLock? && c.PathLock? && Before(a, b) && Before(b, c) {
        LessIsTransitive(a.path, b.path, c.path);
      }
    }
  }

  // Follow the chain of owners; it climbs, so it ends at a thread that can step.
  lemma {:induction false} Chase(prep: Prepare, w: World, t: Tid, below: set<Tid>)
    requires Inv(prep, w) && t in w.threads && w.threads[t] != Done
    requires below <= w.threads.Keys
    requires forall u | u in below && Wants(w.threads[t]).Some? ::
               Wants(w.threads[u]).Some? && Before(Wants(w.threads[u]).value, Wants(w.threads[t]).value)
    ensures exists u :: u in w.threads && Step(prep, w, u, Go).Some?
    decreases w.threads.Keys - below
  {
    var want := Wants(w.threads[t]);
    if want.None? || want.value !in w.owner {
      assert Step(prep, w, t, Go).Some?;
    } else {
      Climb(prep, w, t, below);
      hide Inv, Step, Wants, Before;
      assert t in w.threads.Keys - below;
      Chase(prep, w, w.owner[want.value], below + {t});
    }
  }

  // One link of that chain.
  lemma Climb(prep: Prepare, w: World, t: Tid, below: set<Tid>)
    requires Inv(prep, w) && t in w.threads && below <= w.threads.Keys
    requires Wants(w.threads[t]).Some? && Wants(w.threads[t]).value in w.owner
    requires forall u | u in below ::
               Wants(w.threads[u]).Some? && Before(Wants(w.threads[u]).value, Wants(w.threads[t]).value)
    ensures t !in below
    ensures var u := w.owner[Wants(w.threads[t]).value];
            && u in w.threads && w.threads[u] != Done
            && (Wants(w.threads[u]).Some? ==> forall v | v in below + {t} ::
                  Wants(w.threads[v]).Some? && Before(Wants(w.threads[v]).value, Wants(w.threads[u]).value))
  {
    var want := Wants(w.threads[t]).value;
    var u := w.owner[want];
    var next := Wants(w.threads[u]);
    BeforeIsOrder(want, want, want);
    if next.Some? {
      WaitsUpwards(prep, w.files, w.threads[u], want);
      forall v | v in below + {t} ensures Before(Wants(w.threads[v]).value, next.value) {
        BeforeIsOrder(Wants(w.threads[v]).value, want, next.value);
      }
    }
  }

  lemma NoDeadlock(prep: Prepare, w0: World, schedule: seq<(Tid, Choice)>)
    requires Initial(w0)
    ensures var w := Exec(prep, w0, schedule);
            (exists t :: t in w.threads && w.threads[t] != Done) ==>
              exists u :: u in w.threads && Step(prep, w, u, Go).Some?
  {
    var w := Exec(prep, w0, schedule);
    ReachableInv(prep, w0, schedule);
    if exists t :: t in w.threads && w.threads[t] != Done {
      var t :| t in w.threads && w.threads[t] != Done;
      Chase(prep, w, t, {});
    }
  }
}

// What a commit leaves in the real index, and what the next commit makes of it.
module HistoryIndex {
  import opened Text
  import opened History

  // What a CommitAll that nobody disturbs would commit, and whether it differs
  // from HEAD.
  ghost function Proposed(s: State): Tree { Mix(Present(s), Work(s), HeadTree(s)) }

  ghost predicate Commits(s: State) { !Same(Proposed(s), HeadTree(s)) }

  predicate Free(s: State, t: Tid) { s.lock == None && PcOf(s, t) == Idle }

  lemma StageIs(s: State, t: Tid)
    requires Free(s, t) && Present(s) != {}
    ensures var a := Steps(s, t, 3);
            && a.past == s.past && a.dirs == s.dirs && a.head == s.head && a.born == s.born && a.index == s.index
            && a.lock == Some(t) && t in a.pcs && a.pcs[t].Staged? && a.pcs[t].roots == Present(s)
            && Same(a.pcs[t].scratch, Proposed(s))
  {
    AloneStages(s, t);
    assert Steps(s, t, 0).lock == Some(t) && PcOf(Steps(s, t, 0), t).Locked?;
    AloneScans(s, t);
    StillLocked(s, t);
  }

  lemma StillLocked(s: State, t: Tid)
    requires Free(s, t) && Present(s) != {}
    ensures Steps(s, t, 3).lock == Some(t)
  {
    var begun := Steps(s, t, 0);
    PresentLooksAtTrees(s, begun);
    var scanned := Step(begun, Advance(t, true));
    assert Steps(s, t, 1) == scanned && scanned.lock == Some(t);
    var read := Step(scanned, Advance(t, true));
    assert Steps(s, t, 2) == read && read.lock == Some(t);
    assert Steps(s, t, 3) == Step(read, Advance(t, true));
    hide Present;
  }

  // The step that moves HEAD, or finds nothing to record.
  lemma HeadStep(s: State, t: Tid)
    requires t in s.pcs && s.pcs[t].Staged? && s.lock == Some(t)
    ensures var pc, a := s.pcs[t], Step(s, Advance(t, true));
            && a.past == s.past && a.dirs == s.dirs && a.index == s.index && t in a.pcs
            && if Same(pc.scratch, HeadTree(s))
               then a.pcs[t] == Finished(true, pc.since, pc.roots) && a.lock == None && a.head == s.head && a.born == s.born
               else a.pcs[t] == Committed(pc.since, pc.roots) && a.lock == s.lock && a.head == pc.scratch && a.born
  {
  }

  // The step that brings the real index up to date.
  lemma SyncStep(s: State, t: Tid)
    requires t in s.pcs && s.pcs[t].Committed?
    ensures var pc, a := s.pcs[t], Step(s, Advance(t, true));
            && a.past == s.past && a.dirs == s.dirs && a.head == s.head && a.born == s.born && a.lock == None
            && t in a.pcs && a.pcs[t] == Finished(true, pc.since, pc.roots)
            && forall p :: a.index(p) == if Root(p) in pc.roots then Work(s)(p) else s.index(p)
  {
  }

  lemma RestStep(s: State, t: Tid)
    requires t in s.pcs && (s.pcs[t].Finished? || s.pcs[t].Idle?)
    ensures var a := Step(s, Advance(t, true));
            && a.past == s.past && a.dirs == s.dirs && a.head == s.head && a.born == s.born && a.index == s.index
            && a.lock == s.lock && t in a.pcs && a.pcs[t] == Idle
  {
  }

  // In any run, the last step of a call that committed takes the working tree
  // of that moment into the real index, for the roots it scanned and no others.
  lemma SyncTakesTheWorkingTree(s: State, run: seq<Action>, t: Tid)
    requires PcOf(Exec(s, run), t).Committed?
    ensures var now, end := Exec(s, run), Exec(s, run + [Advance(t, true)]); var roots := PcOf(now, t).roots;
            && PcOf(end, t).Finished? && PcOf(end, t).ok && Same(Work(end), Work(now))
            && forall p :: end.index(p) == if Root(p) in roots then Work(now)(p) else now.index(p)
  {
    ExecSnoc(s, run, Advance(t, true));
    SyncStep(Exec(s, run), t);
  }

  // A git command that fails ends the call with an error, wherever it stands:
  // the mutex goes, and files, HEAD and index are as the steps before left them.
  lemma FailingEndsTheCall(s: State, t: Tid)
    requires t in s.pcs && Holding(s.pcs[t])
    ensures var a := Step(s, Advance(t, false));
            && PcOf(a, t).Finished? && !PcOf(a, t).ok && a.lock == None
            && a.past == s.past && a.dirs == s.dirs && a.head == s.head && a.born == s.born && a.index == s.index
            && a.log == s.log
  {
  }

  // With nothing owned in sight it ends at once, without error, changing nothing.
  lemma NothingToScan(s: State, t: Tid)
    requires Free(s, t) && Present(s) == {}
    ensures var a := Steps(s, t, 1);
            && PcOf(a, t).Finished? && PcOf(a, t).ok && a.lock == None
            && a.past == s.past && a.head == s.head && a.born == s.born && a.index == s.index && a.log == s.log
  {
    var begun := Steps(s, t, 0);
    PresentLooksAtTrees(s, begun);
    assert Steps(s, t, 1) == Step(begun, Advance(t, true));
    hide Present;
  }

  // ---- a whole call nobody disturbs ----

  // Where such a call ends, once it has also been returned from.
  lemma AloneLeaves(s: State, t: Tid)
    requires Free(s, t) && Present(s) != {}
    ensures var end := Steps(s, t, 6);
            && end.past == s.past && end.dirs == s.dirs && Free(end, t) && Same(HeadTree(end), Proposed(s))
            && (Commits(s) ==>
                  end.born && forall p :: end.index(p) == if Root(p) in Present(s) then Work(s)(p) else s.index(p))
            && (!Commits(s) ==> end.index == s.index && end.born == s.born)
  {
    StageIs(s, t);
    var staged := Steps(s, t, 3);
    var moved := Step(staged, Advance(t, true));
    HeadStep(staged, t);
    assert Steps(s, t, 4) == moved;
    var last := Step(moved, Advance(t, true));
    assert Steps(s, t, 5) == last;
    assert Steps(s, t, 6) == Step(last, Advance(t, true));
    assert HeadTree(staged) == HeadTree(s);
    hide Step, Present, Steps;
    if Same(staged.pcs[t].scratch, HeadTree(staged)) {
      RestStep(moved, t);
    } else {
      SyncStep(moved, t);
    }
    RestStep(last, t);
  }

  // After a call that committed, the real index agrees with HEAD on every path
  // of every scanned root and is as it was elsewhere. A call with nothing to
  // commit leaves the index alone, so afterwards they agree exactly if they did
  // before.
  lemma IndexAgreesIff(s: State, t: Tid)
    requires Free(s, t) && Present(s) != {}
    ensures var end, roots := Steps(s, t, 6), Present(s);
            && (forall p | Root(p) !in roots :: end.index(p) == s.index(p))
            && ((forall p | Root(p) in roots :: end.index(p) == HeadTree(end)(p)) <==>
                 Commits(s) || forall p | Root(p) in roots :: s.index(p) == Work(s)(p))
  {
    AloneLeaves(s, t);
    hide Steps, Present, Root, HeadTree, Work;
  }

  // ---- commit, remove, commit ----

  predicate Removes(a: Action) { (a.Put? && a.content == None) || a.RemoveDir? }

  lemma RemovalStep(s: State, a: Action)
    requires Removes(a)
    ensures var s' := Step(s, a); s'.head == s.head && s'.born == s.born && s'.index == s.index && s'.lock == s.lock
                                  && s'.pcs == s.pcs
  {
  }

  lemma {:induction false} RemovalsTouchNoRepository(s: State, rm: seq<Action>)
    requires forall i | 0 <= i < |rm| :: Removes(rm[i])
    ensures var s' := Exec(s, rm); s'.head == s.head && s'.born == s.born && s'.index == s.index && s'.lock == s.lock
                                   && s'.pcs == s.pcs
  {
    if rm != [] {
      RemovalsTouchNoRepository(s, rm[..|rm| - 1]);
      RemovalStep(Exec(s, rm[..|rm| - 1]), rm[|rm| - 1]);
    }
  }

  // A file is committed, then it is removed, with whatever else is removed, and
  // a second commit follows. HEAD stops showing it exactly when the first call
  // had something to commit, or the file's root still stands, or the real index
  // listed something under it all along.
  lemma SecondCommitDropsIff(s: State, t: Tid, p: Path, rm: seq<Action>)
    requires Free(s, t) && Owned(p) && Work(s)(p) != None
    requires forall i | 0 <= i < |rm| :: Removes(rm[i])
    requires Work(Exec(Steps(s, t, 6), rm))(p) == None
    ensures var first := Steps(s, t, 6); var mid := Exec(first, rm);
            && first.head(p) == Work(s)(p)
            && (Steps(mid, t, 5).head(p) == None <==>
                Commits(s) || OnDisk(mid, Root(p)) || Occupied(s.index, Root(p)))
  {
    var first := Steps(s, t, 6);
    var mid := Exec(first, rm);
    assert Occupied(Work(s), Root(p)) && Root(p) in Present(s);
    AloneLeaves(s, t);
    RemovalsTouchNoRepository(first, rm);
    assert HeadTree(first)(p) == Proposed(s)(p) == Work(s)(p);
    assert first.born;
    RemovalIsRecordedIff(mid, t, p);
    if Commits(s) {
      assert mid.index(p) == Work(s)(p);
      assert Occupied(mid.index, Root(p));
    }
  }

  // So a root that is committed and then removed whole, directory and all, is
  // gone from HEAD after the next commit.
  lemma WholeRootIsDropped(s: State, t: Tid, p: Path, rm: seq<Action>)
    requires Free(s, t) && Owned(p) && Work(s)(p) != None && Commits(s)
    requires forall i | 0 <= i < |rm| :: Removes(rm[i])
    requires !OnDisk(Exec(Steps(s, t, 6), rm), Root(p))
    ensures Steps(s, t, 6).head(p) == Work(s)(p) && Steps(Exec(Steps(s, t, 6), rm), t, 5).head(p) == None
  {
    var mid := Exec(Steps(s, t, 6), rm);
    assert !Occupied(Work(mid), Root(p));
    SecondCommitDropsIff(s, t, p, rm);
  }

  // A file in a stage directory leaves the directory behind when it goes, so its
  // removal alone is always recorded by the next commit.
  lemma FileRemovalIsRecorded(s: State, t: Tid, p: Path, text: string)
    requires Free(s, t) && s.born && Owned(p) && p != Root(p) && s.head(p) != None
    ensures var gone := Step(Step(s, Put(p, Some(text))), Put(p, None)); Steps(gone, t, 5).head(p) == None
  {
    var gone := Step(Step(s, Put(p, Some(text))), Put(p, None));
    PutShows(Step(s, Put(p, Some(text))), p, None);
    assert OnDisk(gone, Root(p));
    RemovalIsRecordedIff(gone, t, p);
  }
}

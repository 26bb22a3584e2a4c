// What a request, or a pass's own write, comes to over whole runs, told by the
// text it finds and leaves.
module Outcomes {
  import opened Text
  import opened PathLocking
  import opened Writers

  // `o` stands between `pre` and `post`, nowhere earlier, and every other place
  // it stands overlaps this one.
  ghost predicate Frames(cur: Bytes, o: Bytes, pre: Bytes, post: Bytes) {
    cur == pre + o + post && forall j: nat | At(cur, o, j) :: |pre| <= j < |pre| + |o|
  }

  ghost predicate Framed(cur: Bytes, o: Bytes) { exists pre, post :: Frames(cur, o, pre, post) }

  lemma FramedAt(cur: Bytes, o: Bytes, i: nat)
    requires Lone(cur, o, i)
    ensures Frames(cur, o, cur[..i], cur[i + |o|..])
  {
    assert cur == cur[..i] + cur[i..i + |o|] + cur[i + |o|..];
  }

  lemma FrameIsFirst(cur: Bytes, o: Bytes, pre: Bytes, post: Bytes)
    requires Frames(cur, o, pre, post)
    ensures Lone(cur, o, |pre|) && Index(cur, o) == Some(|pre|) && cur[..|pre|] == pre && cur[|pre| + |o|..] == post
  {
    assert cur[|pre|..|pre| + |o|] == o && At(cur, o, |pre|);
    IndexIs(cur, o, |pre|);
  }

  lemma CountsOneIffFramed(cur: Bytes, o: Bytes)
    requires o != []
    ensures Count(cur, o) == 1 <==> Framed(cur, o)
  {
    EditAcceptsIff(cur, o);
    hide *;
    if i: nat :| Lone(cur, o, i) {
      FramedAt(cur, o, i);
    }
    if pre, post :| Frames(cur, o, pre, post) {
      FrameIsFirst(cur, o, pre, post);
    }
  }

  // An edit asks to land the text before the first match, the replacement and
  // the text after it, exactly when every other match overlaps that one; any
  // other edit is refused.
  lemma EditAsks(prep: Prepare, rel: Path, o: Bytes, n: Bytes, cur: Option<Bytes>)
    ensures var r := Respond(prep, rel, Edit(o, n), cur);
            && (o == [] || o == n || cur.None? || !Framed(cur.value, o) ==> r == None)
            && (o != [] && o != n && cur.Some? ==>
                  forall pre, post | Frames(cur.value, o, pre, post) :: r == prep(rel, cur, pre + n + post))
  {
    if o != [] && o != n && cur.Some? {
      CountsOneIffFramed(cur.value, o);
      hide Count, Frames, At;
      forall pre, post | Frames(cur.value, o, pre, post)
        ensures Respond(prep, rel, Edit(o, n), cur) == prep(rel, cur, pre + n + post)
      {
        FrameIsFirst(cur.value, o, pre, post);
      }
    }
  }

  // What a request may leave of a file that held `before`: validated content,
  // the one place of an edit replaced, or the version restored.
  ghost predicate Leaves(prep: Prepare, rel: Path, req: Request, before: Option<Bytes>, after: Bytes) {
    match req
    case Write(content) => prep(rel, before, content) == Some(after)
    case Edit(o, n) =>
      && o != [] && o != n && before.Some?
      && exists pre, post :: Frames(before.value, o, pre, post) && prep(rel, before, pre + n + post) == Some(after)
    case Restore(version) => version == Some(after)
  }

  lemma RespondLeaves(prep: Prepare, rel: Path, req: Request, before: Option<Bytes>, after: Bytes)
    ensures Respond(prep, rel, req, before) == Some(after) <==> Leaves(prep, rel, req, before, after)
  {
    if req.Edit? {
      EditAsks(prep, rel, req.oldStr, req.newStr, before);
    }
  }

  // In every run, each change an answered request made is the one it asked for.
  lemma AnswersAreAsked(prep: Prepare, w0: World, schedule: seq<(Tid, Choice)>, i: nat)
    requires Initial(w0) && i < |Exec(prep, w0, schedule).log|
    ensures var e := Exec(prep, w0, schedule).log[i];
            e.cause.Answered? ==> e.after.Some? && Leaves(prep, e.path, e.cause.req, e.before, e.after.value)
  {
    NoLostUpdate(prep, w0, schedule);
    var e := Exec(prep, w0, schedule).log[i];
    assert Faithful(prep, e);
    if e.cause.Answered? {
      RespondLeaves(prep, e.path, e.cause.req, e.before, e.after.value);
    }
  }

  // A request from its read to its write or refusal, others running in between.
  function RequestRun(t: Tid, b: seq<(Tid, Choice)>, c: Choice): seq<(Tid, Choice)> {
    [(t, Go)] + b + [(t, c)]
  }

  // It lands exactly when its write does not fail and there is something it may
  // leave, and then leaves that; otherwise the file is as it was and unlocked.
  lemma RequestLandsIff(prep: Prepare, w0: World, a: seq<(Tid, Choice)>, t: Tid, b: seq<(Tid, Choice)>, c: Choice)
    requires Initial(w0) && Spares(b, t)
    requires var v := Exec(prep, w0, a); t in v.threads && v.threads[t].WLocked?
    ensures var v, end := Exec(prep, w0, a), Exec(prep, w0, a + RequestRun(t, b, c));
            var th := v.threads[t]; var before := Get(v.files, th.rel);
            && t in end.threads
            && (end.threads[t] == WWritten(th.rel) <==>
                 c != Fail && exists after :: Leaves(prep, th.rel, th.req, before, after))
            && (end.threads[t] == WWritten(th.rel) ==>
                  && th.rel in end.files && Leaves(prep, th.rel, th.req, before, end.files[th.rel])
                  && |end.log| > 0
                  && end.log[|end.log| - 1] == Event(th.rel, Answered(th.req), before, Get(end.files, th.rel)))
            && (end.threads[t] != WWritten(th.rel) ==>
                  end.threads[t] == Done && Get(end.files, th.rel) == before && PathLock(th.rel) !in end.owner)
  {
    var v := Exec(prep, w0, a);
    var th := v.threads[t];
    ReachableInv(prep, w0, a);
    ExecAppend(prep, w0, a, RequestRun(t, b, c));
    WroteRun(prep, v, t, b);
    ExecSnoc(prep, v, [(t, Go)] + b, t, c);
    ReadsUnderLock(prep, v, t);
    var read := After(prep, v, t, Go);
    OthersKeepMine(prep, read, b, t);
    AnswerStep(prep, Exec(prep, read, b), t, c);
    forall after {
      RespondLeaves(prep, th.rel, th.req, Get(v.files, th.rel), after);
    }
  }

  lemma ReadsUnderLock(prep: Prepare, w: World, t: Tid)
    requires Inv(prep, w) && t in w.threads && w.threads[t].WLocked?
    ensures var th, w' := w.threads[t], After(prep, w, t, Go); var cur := Get(w.files, th.rel);
            && Inv(prep, w') && w'.files == w.files
            && t in w'.threads && w'.threads[t] == WReady(th.req, th.rel, cur, Respond(prep, th.rel, th.req, cur))
  {
    StepKeepsInv(prep, w, t, Go);
    hide Inv, Respond;
  }

  lemma AnswerStep(prep: Prepare, w: World, t: Tid, c: Choice)
    requires t in w.threads && w.threads[t].WReady?
    ensures var th, w' := w.threads[t], After(prep, w, t, c);
            && t in w'.threads
            && (if c != Fail && th.answer.Some?
                then w'.threads[t] == WWritten(th.rel) && Get(w'.files, th.rel) == th.answer
                     && w'.log == w.log + [Event(th.rel, Answered(th.req), Get(w.files, th.rel), th.answer)]
                else w'.threads[t] == Done && w'.files == w.files && PathLock(th.rel) !in w'.owner)
  {
  }

  // ---- a compile pass's writes ----

  // A rewrite lands exactly when the file is still what the pass computed from,
  // or gone, and nothing fails; otherwise it is as it was, and unlocked.
  lemma RewriteLandsIff(prep: Prepare, w0: World, a: seq<(Tid, Choice)>, t: Tid, b: seq<(Tid, Choice)>, c: Choice)
    requires Initial(w0) && Spares(b, t)
    requires var v := Exec(prep, w0, a); t in v.threads && v.threads[t].PRewriteLocked?
    ensures var v, end := Exec(prep, w0, a), Exec(prep, w0, a + RequestRun(t, b, c));
            var th := v.threads[t]; var before := Get(v.files, th.path);
            && t in end.threads
            && if (before == None || before == Some(th.base)) && c != Fail
               then end.threads[t] == PRewriteWritten(th.path, th.out) && Get(end.files, th.path) == Some(th.out)
               else end.threads[t] == Done
                    && ((before == None || before == Some(th.base)) ==>
                          Get(end.files, th.path) == before && PathLock(th.path) !in end.owner)
  {
    var v := Exec(prep, w0, a);
    ReachableInv(prep, w0, a);
    ExecAppend(prep, w0, a, RequestRun(t, b, c));
    WroteRun(prep, v, t, b);
    ExecSnoc(prep, v, [(t, Go)] + b, t, c);
    ChecksUnderLock(prep, v, t);
    var checked := After(prep, v, t, Go);
    OthersKeepMine(prep, checked, b, t);
    var w := Exec(prep, checked, b);
    hide Exec, Inv, After;
    RewriteStep(prep, w, t, c);
  }

  lemma ChecksUnderLock(prep: Prepare, w: World, t: Tid)
    requires Inv(prep, w) && t in w.threads && w.threads[t].PRewriteLocked?
    ensures var th, w' := w.threads[t], After(prep, w, t, Go); var cur := Get(w.files, th.path);
            && Inv(prep, w') && w'.files == w.files && t in w'.threads
            && (if cur == None || cur == Some(th.base) then w'.threads[t] == PRewriteChecked(th.path, th.base, th.out)
                else w'.threads[t] == Done && PathLock(th.path) !in w'.owner)
  {
    StepKeepsInv(prep, w, t, Go);
    hide Inv;
  }

  lemma RewriteStep(prep: Prepare, w: World, t: Tid, c: Choice)
    requires t in w.threads && (w.threads[t].PRewriteChecked? || w.threads[t] == Done)
    ensures var th, w' := w.threads[t], After(prep, w, t, c);
            && t in w'.threads
            && (th == Done ==> w'.threads[t] == Done)
            && (th.PRewriteChecked? ==>
                  if c != Fail
                  then w'.threads[t] == PRewriteWritten(th.path, th.out) && Get(w'.files, th.path) == Some(th.out)
                  else w'.threads[t] == Done && w'.files == w.files && PathLock(th.path) !in w'.owner)
  {
  }

  // A move goes ahead exactly when its destination is free and its source is
  // still what the pass computed from, or gone; otherwise it changes nothing and
  // lets both paths go.
  lemma MoveGoesAheadIff(prep: Prepare, w0: World, a: seq<(Tid, Choice)>, t: Tid)
    requires Initial(w0)
    requires var v := Exec(prep, w0, a); t in v.threads && v.threads[t].PMoveLocked?
    ensures var v, end := Exec(prep, w0, a), Exec(prep, w0, a + [(t, Go)]); var th := v.threads[t];
            && end.files == v.files && t in end.threads
            && if th.dest !in v.files && OneOf(Get(v.files, th.src), th.base)
               then end.threads[t] == PMoveChecked(th.src, th.dest, th.base, th.out)
               else Out(end, t, th.src, th.dest)
  {
    ExecSnoc(prep, w0, a, t, Go);
    var v := Exec(prep, w0, a);
    hide Exec;
    MoveCheck(prep, v, t);
  }

  lemma MoveCheck(prep: Prepare, w: World, t: Tid)
    requires t in w.threads && w.threads[t].PMoveLocked?
    ensures var th, w' := w.threads[t], After(prep, w, t, Go);
            && w'.files == w.files && t in w'.threads
            && if th.dest !in w.files && OneOf(Get(w.files, th.src), th.base)
               then w'.threads[t] == PMoveChecked(th.src, th.dest, th.base, th.out)
               else Out(w', t, th.src, th.dest)
  {
  }

  // Waiting for a lock is not a step that fails, and every other step of an
  // unfinished writer may: it then stops where it is and holds nothing.
  lemma FailingLetsGo(prep: Prepare, w: World, t: Tid)
    requires LocksAgree(w) && t in w.threads && w.threads[t] != Done
    ensures var th := w.threads[t];
            Wants(th) == None || th.WWritten? ==>
              var w' := After(prep, w, t, Fail);
              t in w'.threads && w'.threads[t] == Done && w'.files == w.files && w'.owner == w.owner - Held(th)
    ensures var th := w.threads[t];
            Wants(th).Some? && !th.WWritten? && Wants(th).value in w.owner ==> Step(prep, w, t, Fail) == None
  {
  }
}

// Over every run whose replies are rooted at their own target: the frames a session
// answers for lie below its own, so that what a departure takes is exact.
module OwnFrames {
  import opened Prelude
  import opened Forest
  import opened Surgery
  import opened Frames
  import opened FrameLaws
  import opened Desks
  import opened SessionLaws
  import opened DropLaws
  import opened Resplicing

  // x is at or below the own frame of k, which k answers for.
  ghost predicate UnderOwn(m: FrameMap, own: Id, k: Sid, x: Id) {
    own in m && m[own].data.session == Some(k) && AtOrBelow(m, x, own)
  }

  ghost predicate FramesUnderOwn(m: FrameMap, sessions: map<Sid, Session>) {
    forall x {:trigger m[x]} :: x in m && m[x].data.session.Some? && m[x].data.session.value in sessions ==>
      UnderOwn(m, sessions[m[x].data.session.value].target, m[x].data.session.value, x)
  }

  ghost predicate HeldRooted(s: Desk) {
    forall k :: k in Holding(s) ==> HeldTree(s, k).Name() == s.sessions[k].target
  }

  ghost predicate Rooted(s: Desk) {
    FramesUnderOwn(s.tree.frames, s.sessions) && HeldRooted(s)
  }

  lemma RootedIsOwnFrameFirst(s: Desk)
    requires Rooted(s)
    ensures OwnFrameFirst(s)
  {
    forall k | k in s.sessions && Answering(s.tree.frames, k) != {}
      ensures s.sessions[k].target in Answering(s.tree.frames, k)
    {
      var x :| x in Answering(s.tree.frames, k);
      assert UnderOwn(s.tree.frames, s.sessions[k].target, k, x);
    }
  }

  // -------------------------------------------------------- what a change keeps

  // The frames in kept have kept their parents and their marks, everything above
  // them is kept too, and no other frame is marked.
  ghost predicate Keeps(m: FrameMap, r: FrameMap, kept: set<Id>) {
    && kept <= m.Keys && kept <= r.Keys
    && (forall y :: y in kept ==> r[y].parent == m[y].parent && r[y].data.session == m[y].data.session)
    && (forall y :: y in kept && m[y].parent.Some? && m[y].parent.value in m ==> m[y].parent.value in kept)
    && (forall y :: y in r && y !in kept ==> r[y].data.session.None?)
  }

  lemma {:induction false} KeptClimb(m: FrameMap, r: FrameMap, kept: set<Id>, x: Id, n: nat, a: Id)
    requires kept <= m.Keys && kept <= r.Keys
    requires forall y :: y in kept ==> r[y].parent == m[y].parent
    requires forall y :: y in kept && m[y].parent.Some? && m[y].parent.value in m ==> m[y].parent.value in kept
    requires x in kept && a in m && Climb(m, x, n) == Some(a)
    ensures a in kept && Climb(r, x, n) == Some(a)
    decreases n
  {
    if n == 0 {
      assert a == x;
    } else {
      var q := m[x].parent.value;
      KeptClimb(m, r, kept, q, n - 1, a);
    }
  }

  lemma KeptUnder(m: FrameMap, r: FrameMap, kept: set<Id>, own: Id, k: Sid, x: Id)
    requires kept <= m.Keys && kept <= r.Keys
    requires forall y :: y in kept ==> r[y].parent == m[y].parent && r[y].data.session == m[y].data.session
    requires forall y :: y in kept && m[y].parent.Some? && m[y].parent.value in m ==> m[y].parent.value in kept
    requires x in kept && UnderOwn(m, own, k, x)
    ensures UnderOwn(r, own, k, x)
  {
    var n: nat :| Climb(m, x, n) == Some(own);
    KeptClimb(m, r, kept, x, n, own);
  }

  ghost predicate SameTargets(sessions: map<Sid, Session>, sessions': map<Sid, Session>) {
    forall k :: k in sessions' ==> k in sessions && sessions'[k].target == sessions[k].target
  }

  lemma KeepsRooted(m: FrameMap, r: FrameMap, kept: set<Id>, sessions: map<Sid, Session>,
                    sessions': map<Sid, Session>)
    requires FramesUnderOwn(m, sessions) && Keeps(m, r, kept) && SameTargets(sessions, sessions')
    ensures FramesUnderOwn(r, sessions')
  {
    hide UnderOwn;
    forall x | x in r && r[x].data.session.Some? && r[x].data.session.value in sessions'
      ensures UnderOwn(r, sessions'[r[x].data.session.value].target, r[x].data.session.value, x)
    {
      var k := m[x].data.session.value;
      KeptUnder(m, r, kept, sessions[k].target, k, x);
    }
  }

  // ------------------------------------------------------------- the page's events

  lemma DropKeeps(m: FrameMap, x: Id)
    ensures Keeps(m, Drop(m, x), Drop(m, x).Keys)
  {
    forall y | y in Drop(m, x) && m[y].parent.Some? && m[y].parent.value in m ensures m[y].parent.value in Drop(m, x) {
      AtOrBelowStep(m, m[y].parent.value, x);
    }
  }

  lemma AttachKeeps(m: FrameMap, x: Id, p: Id)
    ensures Keeps(m, Attach(m, x, p), Drop(m, x).Keys)
  {
    DropKeeps(m, x);
    AtOrBelowStep(m, p, x);
  }

  lemma ForgottenKeeps(m: FrameMap, x: Id)
    ensures Keeps(m, Forgotten(m, x), Forgotten(m, x).Keys)
  {
    hide AtOrBelow;
    forall y | y in Forgotten(m, x) && m[y].parent.Some? && m[y].parent.value in m
      ensures m[y].parent.value in Forgotten(m, x)
    {
      AtOrBelowStep(m, m[y].parent.value, x);
    }
  }

  lemma NavigateKeeps(m: FrameMap, root: Option<Id>, x: Id, p: Option<Id>, url: Option<string>, loader: Option<string>)
    ensures Keeps(m, Navigate(m, root, x, p, url, loader), Forgotten(m, x).Keys)
  {
    hide Forgotten, Keeps;
    ForgottenKeeps(m, x);
    KeepsMore(m, Forgotten(m, x), Navigate(m, root, x, p, url, loader));
  }

  lemma KeepsMore(m: FrameMap, f: FrameMap, r: FrameMap)
    requires Keeps(m, f, f.Keys) && f.Keys <= r.Keys
    requires forall y :: y in f ==> r[y].parent == f[y].parent && r[y].data.session == f[y].data.session
    requires forall y :: y in r && y !in f ==> r[y].data.session.None?
    ensures Keeps(m, r, f.Keys)
  {
  }

  lemma ReadKeeps(m: FrameMap, t: FrameTree)
    ensures Keeps(m, Parse(map[], t, None, None), {})
  {
    hide Parse;
    ParsedMarks(map[], t, None, None);
  }

  lemma DataKeeps(s: State, e: Event, matches: Matcher)
    requires e.WithinDocument? || e.ContextCreated? || e.ContextDestroyed? || e.ContextsCleared? || e.Select?
             || e.Reset?
    ensures Keeps(s.frames, Apply(s, e, matches).frames, s.frames.Keys)
  {
    hide Keeps, Resolve, Drop, DropAll, Parse, Splice, Navigate, Attach, Detach;
    SamePlacesKeep(s.frames, Apply(s, e, matches).frames);
  }

  lemma SamePlacesKeep(m: FrameMap, r: FrameMap)
    requires r.Keys == m.Keys
    requires forall y :: y in m ==> r[y].parent == m[y].parent && r[y].data.session == m[y].data.session
    ensures Keeps(m, r, m.Keys)
  {
  }

  lemma NothingKeeps(m: FrameMap)
    ensures Keeps(m, m, m.Keys)
  {
  }

  lemma EventKeeps(s: State, e: Event, matches: Matcher) returns (kept: set<Id>)
    requires Consistent(s) && !e.Spliced? && !e.SessionGone?
    ensures Keeps(s.frames, Apply(s, e, matches).frames, kept)
  {
    hide Keeps, Navigate, Attach, Detach, Resolve, Kept, Parse;
    kept := s.frames.Keys;
    NothingKeeps(s.frames);
    match e
    case TreeRead(t) =>
      kept := {};
      ReadKeeps(s.frames, t);
    case Attached(x, p) =>
      if x != "" {
        kept := Drop(s.frames, x).Keys;
        AttachKeeps(s.frames, x, p);
      }
    case Detached(x) =>
      if x != "" {
        kept := Drop(s.frames, x).Keys;
        DetachIsDrop(s.frames, s.root, x);
        DropKeeps(s.frames, x);
      }
    case Navigated(x, p, url, loader) =>
      if x != "" {
        kept := Forgotten(s.frames, x).Keys;
        NavigateKeeps(s.frames, s.root, x, p, url, loader);
      }
    case _ => DataKeeps(s, e, matches);
  }

  // ------------------------------------------------------------------- departures

  lemma LeftKeeps(s: Desk, r: Desk, gone: set<Sid>)
    requires Left(s, r, gone)
    ensures Keeps(s.tree.frames, r.tree.frames, r.tree.frames.Keys)
  {
    var m := s.tree.frames;
    forall y | y in r.tree.frames && m[y].parent.Some? && m[y].parent.value in m
      ensures m[y].parent.value in r.tree.frames
    {
      if Goes(m, m[y].parent.value, gone) { GoesDown(m, y, gone); }
    }
  }

  lemma DroppedRooted(s: Desk, sid: Sid, matches: Matcher)
    requires Rooted(s) && Elems(s.order) == s.sessions.Keys
    ensures Rooted(Dropped(s, sid, matches))
  {
    if sid in s.sessions {
      DropTakes(s, sid, matches);
      var r := Dropped(s, sid, matches);
      hide Dropped;
      LeftKeeps(s, r, Gone(s, r));
      KeepsRooted(s.tree.frames, r.tree.frames, r.tree.frames.Keys, s.sessions, r.sessions);
    }
  }

  // ---------------------------------------------------------------------- splices

  // Every frame of a reply is at or below its root.
  lemma {:induction false} BlockUnderRoot(r: FrameMap, d: map<Id, nat>, b: FrameMap, top: Id, y: Id)
    requires DepthMap(r, d) && y in b && forall z :: z in b ==> z in r && r[z] == b[z]
    requires forall z :: z in b && z != top ==> b[z].parent.Some? && b[z].parent.value in b
    ensures AtOrBelow(r, y, top)
    decreases if y in d then d[y] else 0
  {
    AtOrBelowStep(r, y, top);
    if y != top {
      assert Placed(r, d, y);
      BlockUnderRoot(r, d, b, top, b[y].parent.value);
    }
  }

  // The reply's own frames, marked for its session.
  lemma SplicedBlock(m: FrameMap, r: FrameMap, t: FrameTree, sid: Sid)
    requires IsForest(r) && CanSplice(m, t) && Distinct(Ids(t))
    requires var b := Parse(map[], t, t.parentId, Some(sid)); forall y :: y in b ==> y in r && r[y] == b[y]
    ensures forall y :: y in Parse(map[], t, t.parentId, Some(sid)) ==> UnderOwn(r, t.Name(), sid, y)
    ensures forall y :: y in Parse(map[], t, t.parentId, Some(sid)) ==> r[y].data.session == Some(sid)
  {
    hide Parse, Ids;
    var b := Parse(map[], t, t.parentId, Some(sid));
    ParsedParents(t, t.parentId.value, Some(sid));
    BlockMarked(t, t.parentId, sid);
    forall y | y in b ensures UnderOwn(r, t.Name(), sid, y) {
      BlockUnderRoot(r, Depths(r), b, t.Name(), y);
    }
  }

  lemma {:induction false} BlockMarked(t: FrameTree, parent: Option<Id>, sid: Sid)
    ensures forall y :: y in Parse(map[], t, parent, Some(sid)) ==>
              Parse(map[], t, parent, Some(sid))[y].data.session == Some(sid)
    decreases t, 1
  {
    if t.Name() != "" {
      ParseSplit(t, parent, Some(sid));
      RowMarked(t.childFrames, t.Name(), sid);
    }
  }

  lemma {:induction false} RowMarked(ts: seq<FrameTree>, parent: Id, sid: Sid)
    ensures forall y :: y in ParseRow(map[], ts, parent, Some(sid)) ==>
              ParseRow(map[], ts, parent, Some(sid))[y].data.session == Some(sid)
    decreases ts, 0
  {
    if ts == [] {
      assert ParseRow(map[], ts, parent, Some(sid)) == map[];
    } else {
      BlockMarked(ts[0], Some(parent), sid);
      RowMarked(ts[1..], parent, sid);
      ParseRowAdds(Parse(map[], ts[0], Some(parent), Some(sid)), ts[1..], parent, Some(sid));
    }
  }

  // A sane splice of a reply rooted at its session's own frame.
  lemma SpliceRooted(m: FrameMap, t: FrameTree, sid: Sid, sessions: map<Sid, Session>)
    requires IsForest(m) && CanSplice(m, t) && IsForest(Splice(m, t, sid))
    requires Distinct(Ids(t)) && BringsFreshIds(m, t) && !AtOrBelow(m, t.parentId.value, t.Name())
    requires FramesUnderOwn(m, sessions) && (sid in sessions ==> sessions[sid].target == t.Name())
    ensures FramesUnderOwn(Splice(m, t, sid), sessions)
  {
    hide Parse, Ids, Splice, BringsFreshIds, UnderOwn, IsForest, CanSplice;
    var r, b, x := Splice(m, t, sid), Parse(map[], t, t.parentId, Some(sid)), t.Name();
    SpliceView(m, Depths(m), t, sid);
    SplicedBlock(m, r, t, sid);
    var kept := set y | y in m && !AtOrBelow(m, y, x);
    forall y | y in kept && m[y].parent.Some? && m[y].parent.value in m ensures m[y].parent.value in kept {
      AtOrBelowStep(m, y, x);
    }
    forall y | y in r && r[y].data.session.Some? && r[y].data.session.value in sessions
      ensures UnderOwn(r, sessions[r[y].data.session.value].target, r[y].data.session.value, y)
    {
      if y in kept {
        var k := m[y].data.session.value;
        KeptUnder(m, r, kept, sessions[k].target, k, y);
      }
    }
  }

  lemma SplicedRooted(s: Desk, t: FrameTree, sid: Sid, matches: Matcher)
    requires Rooted(s) && Consistent(s.tree) && CanSplice(s.tree.frames, t) && Sane(s.tree, Spliced(t, sid))
    requires sid in s.sessions ==> s.sessions[sid].target == t.Name()
    ensures Rooted(s.(tree := Apply(s.tree, Spliced(t, sid), matches)))
  {
    FrameLaws.StepKeepsTree(s.tree, Spliced(t, sid), matches);
    SplicedFrames(s.tree, t, sid, matches);
    hide Apply, Ids, Splice, CanSplice, FramesUnderOwn;
    SpliceRooted(s.tree.frames, t, sid, s.sessions);
    assert HeldRooted(s.(tree := Apply(s.tree, Spliced(t, sid), matches)));
  }

  lemma HoldRooted(s: Desk, sid: Sid, held: Option<FrameTree>)
    requires Rooted(s) && sid in s.sessions && (held.Some? ==> held.value.Name() == s.sessions[sid].target)
    ensures Rooted(Hold(s, sid, held))
  {
    hide UnderOwn;
    var r := Hold(s, sid, held);
    forall k | k in Holding(r) ensures HeldTree(r, k).Name() == r.sessions[k].target {
      if k != sid { assert k in Holding(s) && HeldTree(s, k) == HeldTree(r, k); }
    }
  }

  lemma TriedRooted(s: Desk, k: Sid, matches: Matcher)
    requires Rooted(s) && Consistent(s.tree) && SaneHeld(s, k)
    ensures Rooted(Tried(s, k, matches)) && Consistent(Tried(s, k, matches).tree)
  {
    hide FramesUnderOwn, Consistent, Apply, Sane, CanSplice;
    if k in Holding(s) && CanSplice(s.tree.frames, HeldTree(s, k)) {
      var t := HeldTree(s, k);
      SplicedRooted(s, t, k, matches);
      FrameLaws.StepKeepsTree(s.tree, Spliced(t, k), matches);
      HoldRooted(s.(tree := Apply(s.tree, Spliced(t, k), matches)), k, None);
    } else {
      TriedNothing(s, k, matches);
    }
  }

  lemma {:induction false} PassRooted(s: Desk, todo: seq<Sid>, matches: Matcher)
    requires Rooted(s) && Consistent(s.tree) && SanePass(s, todo, matches)
    ensures Rooted(Pass(s, todo, matches)) && Consistent(Pass(s, todo, matches).tree)
    decreases |todo|
  {
    if todo == [] {
      assert Pass(s, todo, matches) == s;
    } else {
      hide Rooted, Consistent, Tried, SaneHeld;
      TriedRooted(s, todo[0], matches);
      PassRooted(Tried(s, todo[0], matches), todo[1..], matches);
    }
  }

  lemma {:induction false} ResplicedRooted(s: Desk, matches: Matcher)
    requires Rooted(s) && Consistent(s.tree) && SanePasses(s, matches)
    ensures Rooted(Respliced(s, matches))
    decreases Holding(s)
  {
    hide Rooted, Consistent, Pass, SanePass;
    PassRooted(s, s.order, matches);
    if Pass(s, s.order, matches) != s {
      ResplicedRooted(Pass(s, s.order, matches), matches);
    }
  }

  // --------------------------------------------------------------------- the steps

  // A session's reply is rooted at its own frame: its frame id is its target id.
  ghost predicate RootedReply(s: Desk, a: Step) {
    a.TreeAnswered? && a.reply.Some? && a.serial in s.tasks && !s.IsStale(a.serial) ==>
      a.reply.value.Name() == s.sessions[s.tasks[a.serial].sid].target
  }

  lemma SameRooted(s: Desk, r: Desk)
    requires Rooted(s) && r.tree.frames == s.tree.frames && SameTargets(s.sessions, r.sessions)
    requires forall k :: k in r.sessions ==> r.sessions[k].held == s.sessions[k].held
    ensures Rooted(r)
  {
    hide UnderOwn;
    forall k | k in Holding(r) ensures HeldTree(r, k).Name() == r.sessions[k].target {
      assert k in Holding(s) && HeldTree(s, k) == HeldTree(r, k);
    }
  }

  lemma TakenOnRooted(s: Desk, sid: Sid, target: Id, url: string)
    requires Rooted(s) && MarksLive(s) && sid !in s.sessions
    ensures Rooted(TakenOn(s, sid, target, url))
  {
    hide UnderOwn;
    var r := TakenOn(s, sid, target, url);
    forall k | k in Holding(r) ensures HeldTree(r, k).Name() == r.sessions[k].target {
      assert k in Holding(s) && HeldTree(s, k) == HeldTree(r, k);
    }
  }

  lemma AbandonedRooted(s: Desk, sid: Sid, target: Id, url: string, matches: Matcher)
    requires Rooted(s) && Elems(s.order) == s.sessions.Keys
    ensures Rooted(Abandoned(s, sid, target, url, matches))
  {
    hide Rooted, Dropped;
    DroppedRooted(s, sid, matches);
    SameRooted(Dropped(s, sid, matches), Abandoned(s, sid, target, url, matches));
  }

  lemma InstalledRooted(s: Desk, n: nat, t: FrameTree, matches: Matcher)
    requires Rooted(s) && Bounded(s) && Consistent(s.tree) && n in s.tasks && !s.IsStale(n)
    requires Sane(s.tree, Spliced(t, s.tasks[n].sid)) && t.Name() == s.sessions[s.tasks[n].sid].target
    ensures Rooted(Installed(s, n, t, matches))
  {
    hide Rooted, Consistent, Apply, Sane, CanSplice, DepthWalk, Abandoned;
    var task, r := s.tasks[n], Installed(s, n, t, matches);
    if !CanSplice(s.tree.frames, t) {
      HoldRooted(s, task.sid, Some(t));
      SameRooted(Hold(s, task.sid, Some(t)), r);
    } else {
      var spliced := s.(tree := Apply(s.tree, Spliced(t, task.sid), matches));
      SplicedRooted(s, t, task.sid, matches);
      if DepthWalk(spliced.tree.frames, t.Name(), {}) <= MAX_DEPTH {
        SameRooted(spliced, r);
      } else {
        AbandonedRooted(spliced, task.sid, task.target, task.url, matches);
        SameRooted(Abandoned(spliced, task.sid, task.target, task.url, matches), r);
      }
    }
  }

  lemma PageRooted(s: Desk, e: Event, matches: Matcher)
    requires Rooted(s) && Consistent(s.tree) && !e.Spliced? && !e.SessionGone?
    ensures Rooted(s.(tree := Apply(s.tree, e, matches)))
  {
    hide FramesUnderOwn, Apply;
    var kept := EventKeeps(s.tree, e, matches);
    hide Keeps;
    KeepsRooted(s.tree.frames, Apply(s.tree, e, matches).frames, kept, s.sessions, s.sessions);
    assert HeldRooted(s.(tree := Apply(s.tree, e, matches)));
  }

  // Steps that change neither the frames nor what is held.
  lemma QuietRooted(s: Desk, a: Step, matches: Matcher)
    requires Rooted(s) && CanHappen(s, a) && (a.SlotGiven? || a.EnableAnswered? || a.SetupFinished?)
    ensures Rooted(After(s, a, matches))
  {
    hide Rooted;
    SameRooted(s, After(s, a, matches));
  }

  lemma AttachedRooted(s: Desk, sid: Sid, target: Id, url: string)
    requires Rooted(s) && MarksLive(s)
    ensures Rooted(Admitted(s, sid, target, url))
  {
    hide Rooted, MarksLive;
    if sid in s.sessions {
      SameRooted(s, Admitted(s, sid, target, url));
    } else {
      TakenOnRooted(s, sid, target, url);
      SameRooted(s, s.(unreachable := s.unreachable[target := url]));
    }
  }

  lemma StepRooted(s: Desk, a: Step, matches: Matcher)
    requires Rooted(s) && Bounded(s) && Consistent(s.tree)
    requires CanHappen(s, a) && SaneStep(s, a, matches) && RootedReply(s, a)
    ensures Rooted(After(s, a, matches))
  {
    hide Rooted, Consistent, Sane, Apply, Dropped, Abandoned, Installed, SanePasses, Respliced, Admitted;
    var r := After(s, a, matches);
    match a
    case PageEvent(e) => PageRooted(s, e, matches);
    case TargetAttached(sid, target, url, supported) =>
      AttachedRooted(s, sid, target, url);
    case TargetDetached(sid) => DroppedRooted(s, sid, matches);
    case TreeAnswered(n, reply) =>
      if !s.IsStale(n) && reply.Some? { InstalledRooted(s, n, reply.value, matches); } else { SameRooted(s, r); }
    case SetupFailed(n) =>
      var task := s.tasks[n];
      AbandonedRooted(s, task.sid, task.target, task.url, matches);
      SameRooted(Abandoned(s, task.sid, task.target, task.url, matches), r);
    case Resplice => ResplicedRooted(s, matches);
    case _ => QuietRooted(s, a, matches);
  }

  // ---------------------------------------------------------------------- the runs

  ghost predicate RootedReplies(s: Desk, run: seq<Step>, matches: Matcher)
    requires CanRun(s, run, matches)
    decreases |run|
  {
    run != [] ==> RootedReply(s, run[0]) && RootedReplies(After(s, run[0], matches), run[1..], matches)
  }

  lemma {:induction false} RunRooted(s: Desk, run: seq<Step>, matches: Matcher)
    requires Rooted(s) && Bounded(s) && Consistent(s.tree)
    requires CanRun(s, run, matches) && SaneSteps(s, run, matches) && RootedReplies(s, run, matches)
    ensures Rooted(AfterAll(s, run, matches)) && Bounded(AfterAll(s, run, matches))
    decreases |run|
  {
    if run == [] {
      assert AfterAll(s, run, matches) == s;
    } else {
      hide Rooted, Bounded, Consistent, After, SaneStep, CanHappen, RootedReply;
      StepRooted(s, run[0], matches);
      StepKeepsBounds(s, run[0], matches);
      StepKeepsOneTree(s, run[0], matches);
      RunRooted(After(s, run[0], matches), run[1..], matches);
    }
  }

  // At every point of every such run: each frame a session answers for is at or
  // below that session's own frame, which it answers for too. So whoever departs
  // takes with it exactly the sessions whose own frame it answered for, and none is
  // left that answered for a frame that went, exactly when nothing below its frames
  // is another's.
  lemma DeparturesAreExact(run: seq<Step>, sid: Sid, matches: Matcher)
    requires CanRun(NO_SESSIONS, run, matches) && SaneSteps(NO_SESSIONS, run, matches)
    requires RootedReplies(NO_SESSIONS, run, matches) && sid in AfterAll(NO_SESSIONS, run, matches).sessions
    ensures var s := AfterAll(NO_SESSIONS, run, matches);
            var m, r := s.tree.frames, Dropped(s, sid, matches);
            && FramesUnderOwn(m, s.sessions)
            && (forall k :: k in Gone(s, r) <==>
                  k in s.sessions && (k == sid || s.sessions[k].target in Answering(m, sid)))
            && (NoneLeftBehind(s, r) <==>
                  forall x :: x in m && BelowAny(m, x, Answering(m, sid)) ==> m[x].data.session in {None, Some(sid)})
  {
    NothingIsRooted();
    RunRooted(NO_SESSIONS, run, matches);
    var s := AfterAll(NO_SESSIONS, run, matches);
    RootedIsOwnFrameFirst(s);
    OwnFrameFirstIsAnswerless(s, sid);
    DropTakesExactly(s, sid, matches);
    LeftBehindIff(s, sid, matches);
  }

  lemma NothingIsRooted()
    ensures Rooted(NO_SESSIONS) && Bounded(NO_SESSIONS) && Consistent(NO_SESSIONS.tree)
  {
    assert DepthMap(NOTHING_YET.frames, map[]);
  }
}

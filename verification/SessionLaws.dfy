// What no interleaving of messages and setup answers can break: the bounds, the
// marks on the frames, the one tree, and the silence of a session that has gone.
module SessionLaws {
  import opened Prelude
  import opened Forest
  import opened Surgery
  import opened Frames
  import opened FrameLaws
  import opened Desks

  // ---------------------------------------------------------------- the marks

  // Every frame of r is unmarked, carries the given mark, or carries the one it
  // had in m.
  ghost predicate MarkedFrom(m: FrameMap, r: FrameMap, mark: Option<Sid>) {
    forall x :: x in r ==>
      var s := r[x].data.session; s == None || s == mark || (x in m && s == m[x].data.session)
  }

  lemma {:induction false} ParsedMarks(m: FrameMap, t: FrameTree, parent: Option<Id>, mark: Option<Sid>)
    ensures MarkedFrom(m, Parse(m, t, parent, mark), mark)
    decreases t, 1
  {
    if t.Name() != "" {
      RowMarks(m[t.Name() := Node(parent, KidNames(t.childFrames), Frame(t.url, t.loader, mark, None))],
               t.childFrames, t.Name(), mark);
    }
  }

  lemma {:induction false} RowMarks(m: FrameMap, ts: seq<FrameTree>, parent: Id, mark: Option<Sid>)
    ensures MarkedFrom(m, ParseRow(m, ts, parent, mark), mark)
    decreases ts, 0
  {
    if ts != [] {
      ParsedMarks(m, ts[0], Some(parent), mark);
      RowMarks(Parse(m, ts[0], Some(parent), mark), ts[1..], parent, mark);
    }
  }

  lemma SplicedMarks(m: FrameMap, t: FrameTree, session: Sid)
    requires CanSplice(m, t)
    ensures MarkedFrom(m, Splice(m, t, session), Some(session))
  {
    var left := Drop(m, t.Name());
    ParsedMarks(left, t, Some(t.parentId.value), Some(session));
    ParseAdds(left, t, Some(t.parentId.value), Some(session));
  }

  lemma NavigatedMarks(m: FrameMap, root: Option<Id>, x: Id, p: Option<Id>, url: Option<string>, loader: Option<string>)
    ensures MarkedFrom(m, Navigate(m, root, x, p, url, loader), None)
  {
  }

  lemma AttachedMarks(m: FrameMap, x: Id, p: Id)
    ensures MarkedFrom(m, Attach(m, x, p), None)
  {
    hide AtOrBelow;
    AtOrBelowStep(m, p, x);
  }

  lemma DetachedMarks(m: FrameMap, x: Id)
    ensures MarkedFrom(m, Detach(m, x), None)
  {
    hide AtOrBelow;
  }

  lemma PlaceMarks(m: FrameMap, r: FrameMap)
    requires forall x :: x in r ==> x in m && r[x].data.session == m[x].data.session
    ensures MarkedFrom(m, r, None)
  {
  }

  lemma DataMarks(s: State, e: Event, matches: Matcher)
    requires !e.TreeRead? && !e.Attached? && !e.Detached? && !e.Navigated? && !e.Spliced?
    ensures MarkedFrom(s.frames, Apply(s, e, matches).frames, None)
  {
    hide MarkedFrom, Resolve, Kept, Drop, Parse, Splice, Navigate, Attach, Detach, BelowAny;
    PlaceMarks(s.frames, Apply(s, e, matches).frames);
  }

  // Only a splice marks a frame, and it marks frames for its own session.
  lemma EventMarks(s: State, e: Event, matches: Matcher)
    ensures MarkedFrom(s.frames, Apply(s, e, matches).frames, if e.Spliced? then Some(e.session) else None)
  {
    hide MarkedFrom, Parse, Ids, Navigate, Attach, Detach, Splice, Resolve, Kept, DropAll;
    PlaceMarks(s.frames, s.frames);
    match e
    case TreeRead(t) =>
      ParsedMarks(map[], t, None, None);
      ReadMarks(s.frames, Parse(map[], t, None, None));
    case Spliced(t, session) =>
      if CanSplice(s.frames, t) { SplicedMarks(s.frames, t, session); } else { SameMarks(s.frames, Some(session)); }
    case Attached(x, p) => AttachedMarks(s.frames, x, p);
    case Detached(x) => DetachedMarks(s.frames, x);
    case Navigated(x, p, url, loader) => NavigatedMarks(s.frames, s.root, x, p, url, loader);
    case _ => DataMarks(s, e, matches);
  }

  lemma ReadMarks(m: FrameMap, r: FrameMap)
    requires MarkedFrom(map[], r, None)
    ensures MarkedFrom(m, r, None)
  {
  }

  lemma SameMarks(m: FrameMap, mark: Option<Sid>)
    ensures MarkedFrom(m, m, mark)
  {
  }

  // No frame of a departed session stays.
  lemma GoneIsUnmarked(s: State, sid: Sid, matches: Matcher)
    ensures MarkedFrom(s.frames, Apply(s, SessionGone(sid), matches).frames, None)
    ensures var r := Apply(s, SessionGone(sid), matches).frames; forall x :: x in r ==> r[x].data.session != Some(sid)
  {
  }

  ghost predicate MarksLive(s: Desk) {
    forall x :: x in s.tree.frames && s.tree.frames[x].data.session.Some? ==>
      s.tree.frames[x].data.session.value in s.sessions
  }

  // ---------------------------------------------------------------- the bounds

  ghost predicate OnePerTarget(s: Desk) {
    forall a, b :: a in s.sessions && b in s.sessions && s.sessions[a].target == s.sessions[b].target ==> a == b
  }

  // Every session was taken on before now, and is ready or still being set up.
  ghost predicate Tended(s: Desk) {
    && (forall n :: n in s.tasks ==> n < s.born)
    && (forall k :: k in s.sessions ==> s.sessions[k].serial < s.born)
    && (forall k :: k in s.sessions && !s.sessions[k].ready ==>
          s.sessions[k].serial in s.tasks && s.tasks[s.sessions[k].serial].sid == k)
    && (forall n :: n in s.tasks && !s.IsStale(n) ==> s.tasks[n].target == s.sessions[s.tasks[n].sid].target)
  }

  ghost predicate Bounded(s: Desk) {
    && |s.sessions| <= MAX_SESSIONS
    && |Running(s)| <= MAX_CONCURRENT_SETUP
    && OnePerTarget(s)
    && Elems(s.order) == s.sessions.Keys
    && MarksLive(s)
    && Tended(s)
  }

  // What a drop may do: take sessions and frames away, nothing else.
  ghost predicate Shrinks(s: Desk, r: Desk) {
    && r.sessions.Keys <= s.sessions.Keys
    && (forall k :: k in r.sessions ==> r.sessions[k] == s.sessions[k])
    && r.tasks == s.tasks && r.born == s.born
    && (Elems(s.order) == s.sessions.Keys ==> Elems(r.order) == r.sessions.Keys)
    && (MarksLive(s) ==> MarksLive(r))
    && (Consistent(s.tree) ==> Consistent(r.tree))
  }

  lemma {:induction false} DropShrinks(s: Desk, sid: Sid, matches: Matcher)
    ensures Shrinks(s, Dropped(s, sid, matches))
    decreases |s.sessions|, 1, 0
  {
    if sid in s.sessions {
      var left := s.(sessions := s.sessions - {sid}, order := Without(s.order, sid),
                     tree := Apply(s.tree, SessionGone(sid), matches));
      DropFirst(s, sid, matches);
      assert left.sessions.Keys < s.sessions.Keys;
      KeysCount(left.sessions, s.sessions);
      OrphansShrink(left, left.order, Answering(s.tree.frames, sid), matches);
    }
  }

  lemma DropFirst(s: Desk, sid: Sid, matches: Matcher)
    requires sid in s.sessions
    ensures Shrinks(s, s.(sessions := s.sessions - {sid}, order := Without(s.order, sid),
                          tree := Apply(s.tree, SessionGone(sid), matches)))
  {
    hide Apply, Consistent;
    GoneIsUnmarked(s.tree, sid, matches);
    if Consistent(s.tree) {
      assert Sane(s.tree, SessionGone(sid));
      StepKeepsTree(s.tree, SessionGone(sid), matches);
    }
  }

  lemma {:induction false} OrphansShrink(s: Desk, others: seq<Sid>, orphaned: set<Id>, matches: Matcher)
    ensures Shrinks(s, DroppedOrphans(s, others, orphaned, matches))
    decreases |s.sessions|, 2, |others|
  {
    if others != [] {
      hide Consistent, MarksLive;
      var s' := if IsOrphan(s, others[0], orphaned) then Dropped(s, others[0], matches) else s;
      DropShrinks(s, others[0], matches);
      KeysCount(s'.sessions, s.sessions);
      OrphansShrink(s', others[1..], orphaned, matches);
    }
  }

  lemma AbandonShrinks(s: Desk, sid: Sid, target: Id, url: string, matches: Matcher)
    ensures Shrinks(s, Abandoned(s, sid, target, url, matches))
  {
    hide Consistent, Dropped;
    DropShrinks(s, sid, matches);
  }

  lemma ShrinkBounded(s: Desk, r: Desk)
    requires Bounded(s) && Shrinks(s, r)
    ensures Bounded(r)
  {
    KeysCount(r.sessions, s.sessions);
    assert Running(r) == Running(s);
  }

  lemma BoundedTended(s: Desk)
    requires Bounded(s)
    ensures Tended(s)
  {
  }

  // The parts of Bounded, put together for a desk with the same sessions and marks.
  lemma StillBounded(s: Desk, r: Desk)
    requires Bounded(s) && Tended(r) && r.tree == s.tree && r.order == s.order && Running(r) <= Running(s)
    requires r.sessions.Keys == s.sessions.Keys
    requires forall k :: k in s.sessions ==> r.sessions[k].target == s.sessions[k].target
    ensures Bounded(r)
  {
    hide Tended, Running;
    assert |r.sessions| == |r.sessions.Keys| && |s.sessions| == |s.sessions.Keys|;
    SubsetCount(Running(r), Running(s));
  }

  lemma SubsetCount(a: set<nat>, b: set<nat>)
    requires a <= b
    ensures |a| <= |b|
  {
    assert b == a + (b - a);
  }

  // Ending or moving on a task that has its slot.
  lemma TaskBounded(s: Desk, n: nat, stage: Stage)
    requires Bounded(s) && n in s.tasks && s.tasks[n].stage != Queued
    ensures Bounded(At(s, n, stage))
    ensures s.IsStale(n) || (forall k :: k in s.sessions && s.sessions[k].serial == n ==> s.sessions[k].ready) ==>
              Bounded(Done(s, n))
  {
    hide Bounded;
    BoundedTended(s);
    StillBounded(s, At(s, n, stage));
    if s.IsStale(n) || (forall k :: k in s.sessions && s.sessions[k].serial == n ==> s.sessions[k].ready) {
      StillBounded(s, Done(s, n));
    }
  }

  lemma SplicedBounded(s: Desk, t: FrameTree, sid: Sid, matches: Matcher)
    requires Bounded(s) && sid in s.sessions
    ensures Bounded(s.(tree := Apply(s.tree, Spliced(t, sid), matches)))
  {
    hide Apply;
    EventMarks(s.tree, Spliced(t, sid), matches);
    assert Running(s.(tree := Apply(s.tree, Spliced(t, sid), matches))) == Running(s);
  }

  lemma HoldBounded(s: Desk, sid: Sid, held: Option<FrameTree>)
    requires Bounded(s) && sid in s.sessions
    ensures Bounded(Hold(s, sid, held))
  {
    hide Bounded;
    BoundedTended(s);
    StillBounded(s, Hold(s, sid, held));
  }

  lemma AbandonBounded(s: Desk, n: nat, matches: Matcher)
    requires Bounded(s) && n in s.tasks && s.tasks[n].stage != Queued
    ensures var task := s.tasks[n];
            var r := Abandoned(s, task.sid, task.target, task.url, matches);
            Bounded(r) && r.tasks == s.tasks && Bounded(Done(r, n)) && task.sid !in r.sessions
  {
    hide Dropped, Bounded, Shrinks;
    var task := s.tasks[n];
    var r := Abandoned(s, task.sid, task.target, task.url, matches);
    AbandonShrinks(s, task.sid, task.target, task.url, matches);
    ShrinkBounded(s, r);
    assert r.tasks == s.tasks && task.sid !in r.sessions by {
      ShrinkTasks(s, r);
    }
    TaskBounded(r, n, Reading);
  }

  lemma ShrinkTasks(s: Desk, r: Desk)
    requires Shrinks(s, r)
    ensures r.tasks == s.tasks
  {
  }

  lemma UnreachableFree(s: Desk, u: map<Id, string>)
    requires Bounded(s)
    ensures Bounded(s.(unreachable := u))
  {
    assert Running(s.(unreachable := u)) == Running(s);
  }

  lemma InstalledBounded(s: Desk, n: nat, t: FrameTree, matches: Matcher)
    requires Bounded(s) && n in s.tasks && !s.IsStale(n) && s.tasks[n].stage == Reading
    ensures Bounded(Installed(s, n, t, matches))
  {
    hide Bounded, Abandoned, Apply, DepthWalk, CanSplice;
    var task := s.tasks[n];
    if !CanSplice(s.tree.frames, t) {
      HoldBounded(s, task.sid, Some(t));
      TaskBounded(Hold(s, task.sid, Some(t)), n, Enabling);
    } else {
      var spliced := s.(tree := Apply(s.tree, Spliced(t, task.sid), matches));
      SplicedBounded(s, t, task.sid, matches);
      if DepthWalk(spliced.tree.frames, t.Name(), {}) <= MAX_DEPTH {
        TaskBounded(spliced, n, Enabling);
      } else {
        AbandonBounded(spliced, n, matches);
        var r := Done(Undone(spliced, task.sid, task.target, task.url, t, matches), n);
        UnreachableFree(Done(Abandoned(spliced, task.sid, task.target, task.url, matches), n), r.unreachable);
      }
    }
  }

  lemma {:induction false} PassBounded(s: Desk, todo: seq<Sid>, matches: Matcher)
    requires Bounded(s)
    ensures Bounded(Pass(s, todo, matches))
    decreases |todo|
  {
    if todo != [] {
      hide Bounded, Apply, CanSplice;
      var sid := todo[0];
      if Tried(s, sid, matches) != s {
        SplicedBounded(s, s.sessions[sid].held.value, sid, matches);
        HoldBounded(s.(tree := Apply(s.tree, Spliced(s.sessions[sid].held.value, sid), matches)), sid, None);
      }
      PassBounded(Tried(s, sid, matches), todo[1..], matches);
    }
  }

  lemma {:induction false} ResplicedBounded(s: Desk, matches: Matcher)
    requires Bounded(s)
    ensures Bounded(Respliced(s, matches))
    decreases Holding(s)
  {
    hide Bounded, Pass;
    PassBounded(s, s.order, matches);
    var r := Pass(s, s.order, matches);
    if r != s {
      ResplicedBounded(r, matches);
    }
  }

  lemma AdmittedTended(s: Desk, sid: Sid, target: Id, url: string)
    requires Tended(s)
    ensures Tended(Admitted(s, sid, target, url))
  {
  }

  lemma OneMore(m: map<Sid, Session>, sid: Sid, session: Session)
    requires sid !in m
    ensures |m[sid := session]| == |m| + 1
  {
    assert m[sid := session].Keys == m.Keys + {sid};
    assert |m[sid := session]| == |m[sid := session].Keys| && |m| == |m.Keys|;
  }

  lemma TakenOnCounts(s: Desk, sid: Sid, target: Id, url: string)
    requires sid !in s.sessions && Elems(s.order) == s.sessions.Keys
    ensures var r := TakenOn(s, sid, target, url);
            |r.sessions| == |s.sessions| + 1 && Running(r) <= Running(s) && Elems(r.order) == r.sessions.Keys
  {
    OneMore(s.sessions, sid, Session(s.born, target, url, None, false));
    assert Elems(s.order + [sid]) == Elems(s.order) + {sid};
  }

  lemma TakenOnMarks(s: Desk, sid: Sid, target: Id, url: string)
    requires OnePerTarget(s) && MarksLive(s)
    requires forall k :: k in s.sessions ==> s.sessions[k].target != target
    ensures OnePerTarget(TakenOn(s, sid, target, url)) && MarksLive(TakenOn(s, sid, target, url))
  {
  }

  lemma TakenOnBounded(s: Desk, sid: Sid, target: Id, url: string)
    requires Bounded(s) && sid !in s.sessions && |s.sessions| < MAX_SESSIONS
    requires forall k :: k in s.sessions ==> s.sessions[k].target != target
    requires Tended(TakenOn(s, sid, target, url))
    ensures Bounded(TakenOn(s, sid, target, url))
  {
    hide Tended, TakenOn, OnePerTarget, MarksLive, Running;
    TakenOnCounts(s, sid, target, url);
    TakenOnMarks(s, sid, target, url);
    SubsetCount(Running(TakenOn(s, sid, target, url)), Running(s));
  }

  lemma AdmittedBounded(s: Desk, sid: Sid, target: Id, url: string)
    requires Bounded(s)
    ensures Bounded(Admitted(s, sid, target, url))
  {
    hide Tended, TakenOn;
    assert Tended(s);
    AdmittedTended(s, sid, target, url);
    var r := Admitted(s, sid, target, url);
    if r == TakenOn(s, sid, target, url) && sid !in s.sessions && |s.sessions| < MAX_SESSIONS && !s.HasTarget(target) {
      TakenOnBounded(s, sid, target, url);
    } else {
      assert r == s.(unreachable := r.unreachable);
      UnreachableFree(s, r.unreachable);
    }
  }

  lemma SlotBounded(s: Desk, n: nat)
    requires Bounded(s) && CanHappen(s, SlotGiven(n))
    ensures Bounded(At(s, n, Reading))
  {
    assert Running(At(s, n, Reading)) == Running(s) + {n};
  }

  lemma FinishedTended(s: Desk, n: nat, matches: Matcher)
    requires Tended(s) && CanHappen(s, SetupFinished(n))
    ensures Tended(After(s, SetupFinished(n), matches))
  {
  }

  lemma FinishedBounded(s: Desk, n: nat, matches: Matcher)
    requires Bounded(s) && CanHappen(s, SetupFinished(n))
    ensures Bounded(After(s, SetupFinished(n), matches))
  {
    hide Bounded, Tended;
    BoundedTended(s);
    FinishedTended(s, n, matches);
    StillBounded(s, After(s, SetupFinished(n), matches));
  }

  lemma StepKeepsBounds(s: Desk, a: Step, matches: Matcher)
    requires Bounded(s) && CanHappen(s, a)
    ensures Bounded(After(s, a, matches))
  {
    hide Bounded, Dropped, Abandoned, Apply, Respliced, Installed, Admitted, Running;
    match a
    case PageEvent(e) => PageBounded(s, e, matches);
    case TargetAttached(sid, target, url, _) => AdmittedBounded(s, sid, target, url);
    case TargetDetached(sid) =>
      DropShrinks(s, sid, matches);
      ShrinkBounded(s, Dropped(s, sid, matches));
    case SlotGiven(n) => SlotBounded(s, n);
    case TreeAnswered(n, reply) =>
      TaskBounded(s, n, Enabling);
      if !s.IsStale(n) && reply.Some? { InstalledBounded(s, n, reply.value, matches); }
    case EnableAnswered(n) => TaskBounded(s, n, Attaching);
    case SetupFinished(n) => FinishedBounded(s, n, matches);
    case SetupFailed(n) => AbandonBounded(s, n, matches);
    case Resplice => ResplicedBounded(s, matches);
  }

  lemma PageBounded(s: Desk, e: Event, matches: Matcher)
    requires Bounded(s) && !e.Spliced?
    ensures Bounded(s.(tree := Apply(s.tree, e, matches)))
  {
    hide Apply;
    EventMarks(s.tree, e, matches);
    assert Running(s.(tree := Apply(s.tree, e, matches))) == Running(s);
  }

  // ------------------------------------------------------------------ the runs

  ghost const NO_SESSIONS: Desk := Desk(NOTHING_YET, map[], [], map[], map[], 0)

  ghost predicate CanRun(s: Desk, run: seq<Step>, matches: Matcher)
    decreases |run|
  {
    run != [] ==> CanHappen(s, run[0]) && CanRun(After(s, run[0], matches), run[1..], matches)
  }

  ghost function AfterAll(s: Desk, run: seq<Step>, matches: Matcher): Desk
    requires CanRun(s, run, matches)
    decreases |run|
  {
    if run == [] then s else AfterAll(After(s, run[0], matches), run[1..], matches)
  }

  lemma {:induction false} RunKeepsBounds(s: Desk, run: seq<Step>, matches: Matcher)
    requires Bounded(s) && CanRun(s, run, matches)
    ensures Bounded(AfterAll(s, run, matches))
    decreases |run|
  {
    if run != [] {
      hide Bounded, After, CanHappen;
      StepKeepsBounds(s, run[0], matches);
      RunKeepsBounds(After(s, run[0], matches), run[1..], matches);
    }
  }

  // At every point of every run: at most 32 sessions and 8 setups, at most one
  // session a target, every frame marked with a session has that session live,
  // and a session that is not ready has a setup task working for it.
  lemma SessionsStayBounded(run: seq<Step>, matches: Matcher)
    requires CanRun(NO_SESSIONS, run, matches)
    ensures var s := AfterAll(NO_SESSIONS, run, matches);
            && |s.sessions| <= 32
            && |Running(s)| <= 8
            && (forall a, b :: a in s.sessions && b in s.sessions && s.sessions[a].target == s.sessions[b].target ==>
                  a == b)
            && (forall x :: x in s.tree.frames && s.tree.frames[x].data.session.Some? ==>
                  s.tree.frames[x].data.session.value in s.sessions)
            && (forall k :: k in s.sessions && !s.sessions[k].ready ==> s.sessions[k].serial in s.tasks)
  {
    RunKeepsBounds(NO_SESSIONS, run, matches);
  }

  // -------------------------------------------------------------- the one tree

  // What Chrome owes at each step: a reply whose splice Frames calls sane.
  ghost predicate SaneHeld(s: Desk, sid: Sid) {
    sid in s.sessions && s.sessions[sid].held.Some? ==> Sane(s.tree, Spliced(s.sessions[sid].held.value, sid))
  }

  ghost predicate SanePass(s: Desk, todo: seq<Sid>, matches: Matcher)
    decreases |todo|
  {
    todo != [] ==> SaneHeld(s, todo[0]) && SanePass(Tried(s, todo[0], matches), todo[1..], matches)
  }

  ghost predicate SanePasses(s: Desk, matches: Matcher)
    decreases Holding(s)
  {
    && SanePass(s, s.order, matches)
    && (Pass(s, s.order, matches) != s ==> SanePasses(Pass(s, s.order, matches), matches))
  }

  ghost predicate SaneStep(s: Desk, a: Step, matches: Matcher) {
    match a
    case PageEvent(e) => Sane(s.tree, e)
    case TreeAnswered(n, Some(t)) => n in s.tasks ==> s.IsStale(n) || Sane(s.tree, Spliced(t, s.tasks[n].sid))
    case Resplice => SanePasses(s, matches)
    case _ => true
  }

  lemma {:induction false} PassKeepsTree(s: Desk, todo: seq<Sid>, matches: Matcher)
    requires Consistent(s.tree) && SanePass(s, todo, matches)
    ensures Consistent(Pass(s, todo, matches).tree)
    decreases |todo|
  {
    if todo != [] {
      hide Consistent, Sane, CanSplice, Apply;
      if Tried(s, todo[0], matches) != s {
        FrameLaws.StepKeepsTree(s.tree, Spliced(s.sessions[todo[0]].held.value, todo[0]), matches);
      }
      PassKeepsTree(Tried(s, todo[0], matches), todo[1..], matches);
    }
  }

  lemma {:induction false} RespliceKeepsTree(s: Desk, matches: Matcher)
    requires Consistent(s.tree) && SanePasses(s, matches)
    ensures Consistent(Respliced(s, matches).tree)
    decreases Holding(s)
  {
    hide Consistent, SanePass, Pass;
    PassKeepsTree(s, s.order, matches);
    if Pass(s, s.order, matches) != s {
      RespliceKeepsTree(Pass(s, s.order, matches), matches);
    }
  }

  lemma InstallKeepsTree(s: Desk, n: nat, t: FrameTree, matches: Matcher)
    requires Consistent(s.tree) && n in s.tasks && !s.IsStale(n) && Sane(s.tree, Spliced(t, s.tasks[n].sid))
    ensures Consistent(Installed(s, n, t, matches).tree)
  {
    hide Consistent, Sane, Apply, Abandoned, DepthWalk;
    var task := s.tasks[n];
    var spliced := s.(tree := Apply(s.tree, Spliced(t, task.sid), matches));
    FrameLaws.StepKeepsTree(s.tree, Spliced(t, task.sid), matches);
    AbandonShrinks(spliced, task.sid, task.target, task.url, matches);
  }

  lemma StepKeepsOneTree(s: Desk, a: Step, matches: Matcher)
    requires Consistent(s.tree) && CanHappen(s, a) && SaneStep(s, a, matches)
    ensures Consistent(After(s, a, matches).tree)
  {
    hide Consistent, Sane, Apply, Dropped, Abandoned, Installed, SanePasses, Respliced;
    match a
    case PageEvent(e) => FrameLaws.StepKeepsTree(s.tree, e, matches);
    case TargetDetached(sid) => DropShrinks(s, sid, matches);
    case TreeAnswered(n, reply) =>
      if !s.IsStale(n) && reply.Some? { InstallKeepsTree(s, n, reply.value, matches); }
    case SetupFailed(n) =>
      AbandonShrinks(s, s.tasks[n].sid, s.tasks[n].target, s.tasks[n].url, matches);
    case Resplice => RespliceKeepsTree(s, matches);
    case _ =>
  }

  ghost predicate SaneSteps(s: Desk, run: seq<Step>, matches: Matcher)
    requires CanRun(s, run, matches)
    decreases |run|
  {
    run != [] ==> SaneStep(s, run[0], matches) && SaneSteps(After(s, run[0], matches), run[1..], matches)
  }

  lemma {:induction false} RunKeepsOneTree(s: Desk, run: seq<Step>, matches: Matcher)
    requires Consistent(s.tree) && CanRun(s, run, matches) && SaneSteps(s, run, matches)
    ensures Consistent(AfterAll(s, run, matches).tree)
    decreases |run|
  {
    if run != [] {
      hide Consistent, After, SaneStep, CanHappen;
      StepKeepsOneTree(s, run[0], matches);
      RunKeepsOneTree(After(s, run[0], matches), run[1..], matches);
    }
  }

  // The two together, at every point of every run: the frames of the page and of
  // all its sessions form one tree, every frame of it reachable from the root.
  lemma OneTreeOverSessions(run: seq<Step>, matches: Matcher, x: Id)
    requires CanRun(NO_SESSIONS, run, matches) && SaneSteps(NO_SESSIONS, run, matches)
    ensures var s := AfterAll(NO_SESSIONS, run, matches).tree;
            && IsTree(s.frames, s.root)
            && (x in s.frames ==> s.root.Some? && AtOrBelow(s.frames, x, s.root.value))
  {
    assert DepthMap(NOTHING_YET.frames, map[]);
    RunKeepsOneTree(NO_SESSIONS, run, matches);
    var s := AfterAll(NO_SESSIONS, run, matches).tree;
    if x in s.frames {
      ReachableFromRoot(s.frames, s.root, x);
    }
  }

  // ---------------------------------------------------------- stale completions

  // The setup an answer is about.
  function Answers(a: Step): Option<nat> {
    match a
    case TreeAnswered(n, _) => Some(n)
    case EnableAnswered(n) => Some(n)
    case SetupFinished(n) => Some(n)
    case SetupFailed(n) => Some(n)
    case _ => None
  }

  // Any answer about a session that has gone changes nothing but its own task,
  // unless the answer is a failure and the session's id has been given away again.
  lemma StaleAnswer(s: Desk, a: Step, n: nat, matches: Matcher)
    requires CanHappen(s, a) && Answers(a) == Some(n) && s.IsStale(n)
    ensures var r := After(s, a, matches);
            && (!a.SetupFailed? ==> r == s.(tasks := s.tasks - {n}))
            && (a.SetupFailed? ==>
                  (r == s.(tasks := s.tasks - {n}, unreachable := s.unreachable[s.tasks[n].target := s.tasks[n].url])
                   <==> s.tasks[n].sid !in s.sessions))
  {
    hide Apply, IsOrphan, DroppedOrphans;
  }

  // Every id is attached once in the run, and none of the ids in seen.
  ghost predicate FreshSids(run: seq<Step>, seen: set<Sid>)
    decreases |run|
  {
    run != [] ==>
      && (run[0].TargetAttached? ==> run[0].sid !in seen)
      && FreshSids(run[1..], seen + if run[0].TargetAttached? then {run[0].sid} else {})
  }

  // With ids never reused, only the session a task was started for has its id.
  ghost predicate OwnIds(s: Desk, seen: set<Sid>) {
    && s.sessions.Keys <= seen
    && forall n :: n in s.tasks ==>
         s.tasks[n].sid in seen && (s.tasks[n].sid in s.sessions ==> s.sessions[s.tasks[n].sid].serial == n)
  }

  // No session and no task appears except by taking a target on, and none is
  // ready except by finishing its setup.
  ghost predicate NothingNew(s: Desk, r: Desk, finished: Option<nat>) {
    && r.born == s.born
    && r.sessions.Keys <= s.sessions.Keys
    && (forall k :: k in r.sessions ==>
          && r.sessions[k].serial == s.sessions[k].serial && r.sessions[k].target == s.sessions[k].target
          && (r.sessions[k].ready ==> s.sessions[k].ready || finished == Some(s.sessions[k].serial)))
    && r.tasks.Keys <= s.tasks.Keys
    && (forall n :: n in r.tasks ==>
          && r.tasks[n].sid == s.tasks[n].sid && r.tasks[n].target == s.tasks[n].target
          && r.tasks[n].url == s.tasks[n].url)
  }

  lemma {:induction false} PassAddsNothing(s: Desk, todo: seq<Sid>, matches: Matcher)
    ensures NothingNew(s, Pass(s, todo, matches), None)
    decreases |todo|
  {
    if todo != [] {
      TriedAddsNothing(s, todo[0], matches);
      PassAddsNothing(Tried(s, todo[0], matches), todo[1..], matches);
      NothingNewTwice(s, Tried(s, todo[0], matches), Pass(s, todo, matches));
      hide *;
    }
  }

  lemma TriedAddsNothing(s: Desk, k: Sid, matches: Matcher)
    ensures NothingNew(s, Tried(s, k, matches), None)
  {
    hide Apply, CanSplice;
  }

  lemma NothingNewTwice(s: Desk, m: Desk, r: Desk)
    requires NothingNew(s, m, None) && NothingNew(m, r, None)
    ensures NothingNew(s, r, None)
  {
  }

  lemma {:induction false} RespliceAddsNothing(s: Desk, matches: Matcher)
    ensures NothingNew(s, Respliced(s, matches), None)
    decreases Holding(s)
  {
    hide Pass, NothingNew;
    PassAddsNothing(s, s.order, matches);
    if Pass(s, s.order, matches) != s {
      RespliceAddsNothing(Pass(s, s.order, matches), matches);
      NothingNewTwice(s, Pass(s, s.order, matches), Respliced(s, matches));
    }
  }

  lemma InstallAddsNothing(s: Desk, n: nat, t: FrameTree, matches: Matcher)
    requires n in s.tasks && !s.IsStale(n)
    ensures NothingNew(s, Installed(s, n, t, matches), None)
  {
    hide Consistent, MarksLive, Apply, Abandoned, DepthWalk, CanSplice;
    var task := s.tasks[n];
    var spliced := s.(tree := Apply(s.tree, Spliced(t, task.sid), matches));
    AbandonShrinks(spliced, task.sid, task.target, task.url, matches);
  }

  lemma StepAddsNothing(s: Desk, a: Step, matches: Matcher)
    requires CanHappen(s, a) && !a.TargetAttached?
    ensures NothingNew(s, After(s, a, matches), if a.SetupFinished? then Some(a.serial) else None)
  {
    hide Consistent, MarksLive, Apply, Dropped, Abandoned, Installed, Respliced;
    match a
    case TargetDetached(sid) => DropShrinks(s, sid, matches);
    case TreeAnswered(n, reply) =>
      if !s.IsStale(n) && reply.Some? { InstallAddsNothing(s, n, reply.value, matches); }
    case SetupFailed(n) =>
      AbandonShrinks(s, s.tasks[n].sid, s.tasks[n].target, s.tasks[n].url, matches);
    case Resplice => RespliceAddsNothing(s, matches);
    case _ =>
  }

  lemma {:induction false} RunOwnsIds(s: Desk, run: seq<Step>, seen: set<Sid>, matches: Matcher) returns (all: set<Sid>)
    requires OwnIds(s, seen) && Tended(s) && Bounded(s) && CanRun(s, run, matches) && FreshSids(run, seen)
    ensures OwnIds(AfterAll(s, run, matches), all)
    decreases |run|
  {
    all := seen;
    if run != [] {
      hide Bounded, After, CanHappen;
      var r := After(s, run[0], matches);
      var more := seen + if run[0].TargetAttached? then {run[0].sid} else {};
      StepOwnsIds(s, run[0], seen, matches);
      StepKeepsBounds(s, run[0], matches);
      BoundedTended(r);
      all := RunOwnsIds(r, run[1..], more, matches);
    }
  }

  lemma StepOwnsIds(s: Desk, a: Step, seen: set<Sid>, matches: Matcher)
    requires OwnIds(s, seen) && Tended(s) && CanHappen(s, a) && (a.TargetAttached? ==> a.sid !in seen)
    ensures OwnIds(After(s, a, matches), seen + if a.TargetAttached? then {a.sid} else {})
  {
    hide Apply, Dropped, Abandoned, Installed, Respliced;
    if !a.TargetAttached? {
      StepAddsNothing(s, a, matches);
      hide After;
    }
  }

  // Where Chrome never reuses a session id: no answer to a setup whose session
  // has gone, not even a failure, touches a frame, a selection or a session.
  lemma LateAnswerIsHarmless(run: seq<Step>, a: Step, n: nat, matches: Matcher)
    requires CanRun(NO_SESSIONS, run, matches) && FreshSids(run, {})
    requires var s := AfterAll(NO_SESSIONS, run, matches);
             CanHappen(s, a) && Answers(a) == Some(n) && s.IsStale(n)
    ensures var s := AfterAll(NO_SESSIONS, run, matches);
            var r := After(s, a, matches);
            r.tree == s.tree && r.sessions == s.sessions && r.order == s.order
  {
    var all := RunOwnsIds(NO_SESSIONS, run, {}, matches);
    StaleAnswer(AfterAll(NO_SESSIONS, run, matches), a, n, matches);
  }
}

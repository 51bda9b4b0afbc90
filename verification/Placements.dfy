// What becomes of a session's frame tree once it is answered: in the map, held until
// its parent shows, or given up past the depth bound, and nothing else.
module Placements {
  import opened Prelude
  import opened Forest
  import opened Surgery
  import opened Frames
  import opened FrameLaws
  import opened ReportLaws
  import opened Desks
  import opened SessionLaws
  import opened DropLaws
  import opened Resplicing
  import opened OwnFrames

  // ------------------------------------------------------------- one answered tree

  // The frame the tree names as its parent is mapped.
  predicate ParentShows(s: Desk, t: FrameTree) {
    t.Name() != "" && t.parentId.Some? && t.parentId.value != "" && t.parentId.value in s.tree.frames
  }

  // Every frame of the tree is mapped and marked for the session, its root under the
  // parent it names.
  ghost predicate IsShown(m: FrameMap, t: FrameTree, sid: Sid) {
    && (forall x :: x in Ids(t) ==> x in m && m[x].data.session == Some(sid))
    && t.Name() in m && m[t.Name()].parent == t.parentId
  }

  // A tree hung under p lies one level below it.
  lemma SpliceDepth(m: FrameMap, t: FrameTree, session: Sid)
    requires IsForest(m) && CanSplice(m, t) && "" !in m
    requires Distinct(Ids(t)) && BringsFreshIds(m, t) && !AtOrBelow(m, t.parentId.value, t.Name())
    ensures DepthWalk(Splice(m, t, session), t.Name(), {}) == Depths(m)[t.parentId.value] + 1
  {
    hide Splice, Ids, Parse, BringsFreshIds, AtOrBelow, Graft, Drop, DepthMap;
    var d, x, p := Depths(m), t.Name(), t.parentId.value;
    SpliceIsGraft(m, d, t, session);
    ParseAdds(map[], t, Some(p), Some(session));
    var e := LeftDepths(m, d, x, p);
    var b, f := Parse(map[], t, Some(p), Some(session)), ParsedDepths(t, e[p] + 1);
    BlockHangs(t, p, session, e[p] + 1);
    GraftDepths(Drop(m, x), e, p, b, f, [x]);
    SpliceKeepsIds(m, t, session);
    WalkIsLevel(Splice(m, t, session), e + f, x);
  }

  lemma LeftDepths(m: FrameMap, d: map<Id, nat>, x: Id, p: Id) returns (e: map<Id, nat>)
    requires DepthMap(m, d) && p in Drop(m, x)
    ensures DepthMap(Drop(m, x), e) && p in e && p in d && e[p] == d[p]
  {
    hide Placed, Below;
    DropDepths(m, d, x);
    e := map y | y in Drop(m, x) :: d[y];
  }

  lemma WalkIsLevel(m: FrameMap, d: map<Id, nat>, x: Id)
    requires DepthMap(m, d) && x in d && "" !in m
    ensures DepthWalk(m, x, {}) == d[x]
  {
    DepthWalkIsDepth(m, d, x, {});
  }

  lemma BlockHangs(t: FrameTree, p: Id, session: Sid, k: nat)
    requires Distinct(Ids(t)) && t.Name() != "" && p !in Ids(t)
    ensures Hangs(Parse(map[], t, Some(p), Some(session)), ParsedDepths(t, k), p, [t.Name()], k)
    ensures t.Name() in ParsedDepths(t, k) && ParsedDepths(t, k)[t.Name()] == k
  {
    hide Ids, Parse, Hung;
    ParseHangs(t, p, Some(session), k);
    assert [t][1..] == [];
    assert KidNames([t]) == [t.Name()];
    assert t.Name() in [t.Name()];
  }

  // What a live session's answered tree comes to. Its parent not mapped: it is held
  // as it was answered, and nothing else changes. Its parent at a level above the
  // bound: all its frames show, and the session stays as it is. Past the bound, and
  // only there: the session is given up and its target listed.
  lemma AnsweredTree(s: Desk, n: nat, t: FrameTree, matches: Matcher)
    requires Bounded(s) && Consistent(s.tree) && CanHappen(s, TreeAnswered(n, Some(t))) && !s.IsStale(n)
    requires Sane(s.tree, Spliced(t, s.tasks[n].sid))
    ensures var k, r := s.tasks[n].sid, After(s, TreeAnswered(n, Some(t)), matches);
            if !ParentShows(s, t) then
              && r.tree == s.tree && r.unreachable == s.unreachable && r.order == s.order && r.born == s.born
              && r.sessions == s.sessions[k := s.sessions[k].(held := Some(t))]
              && r.tasks == s.tasks[n := s.tasks[n].(stage := Enabling)]
            else if Depths(s.tree.frames)[t.parentId.value] < MAX_DEPTH then
              && IsShown(r.tree.frames, t, k)
              && r.sessions == s.sessions && r.unreachable == s.unreachable && r.order == s.order && r.born == s.born
              && r.tasks == s.tasks[n := s.tasks[n].(stage := Enabling)]
            else
              && k !in r.sessions && s.tasks[n].target in r.unreachable
              && r.unreachable[s.tasks[n].target] == (if t.url != "" then t.url else s.tasks[n].url)
              && r.tasks == s.tasks - {n}
  {
    hide Consistent, Bounded, Splice, Ids, Parse, DepthWalk, BringsFreshIds, Dropped, MarkedFrom;
    var k := s.tasks[n].sid;
    if ParentShows(s, t) {
      ConsistentParts(s.tree);
      SpliceDepth(s.tree.frames, t, k);
      SplicedFrames(s.tree, t, k, matches);
      SplicedIsShown(s.tree, t, k, matches);
      DropShrinks(s.(tree := Apply(s.tree, Spliced(t, k), matches)), k, matches);
    }
  }

  lemma ConsistentParts(s: State)
    requires Consistent(s)
    ensures IsForest(s.frames) && "" !in s.frames
  {
  }

  lemma SplicedIsShown(s: State, t: FrameTree, sid: Sid, matches: Matcher)
    requires Consistent(s) && CanSplice(s.frames, t) && Sane(s, Spliced(t, sid))
    ensures IsShown(Apply(s, Spliced(t, sid), matches).frames, t, sid)
  {
    hide Splice, Ids, Parse, BringsFreshIds;
    var r := Splice(s.frames, t, sid);
    SplicedFrames(s, t, sid, matches);
    SpliceView(s.frames, Depths(s.frames), t, sid);
    FrameLaws.StepKeepsTree(s, Spliced(t, sid), matches);
    SplicedBlock(s.frames, r, t, sid);
    RootHangs(t, sid);
  }

  // ------------------------------------------------------ held or shown, from then on

  // k is the session that was given the serial n.
  predicate IsSession(s: Desk, k: Sid, n: nat) {
    k in s.sessions && s.sessions[k].serial == n
  }

  // Its tree waits, as it was answered.
  predicate Waits(s: Desk, k: Sid, t: FrameTree) {
    k in s.sessions && s.sessions[k].held == Some(t)
  }

  // Its own frame is mapped and marked for it.
  predicate OwnShows(s: Desk, k: Sid) {
    && k in s.sessions && s.sessions[k].target in s.tree.frames
    && s.tree.frames[s.sessions[k].target].data.session == Some(k)
  }

  // The tree answered for k waits or shows, and is asked for no more.
  predicate Kept(s: Desk, k: Sid, n: nat, t: FrameTree) {
    && IsSession(s, k, n) && t.Name() != "" && t.Name() == s.sessions[k].target
    && (Waits(s, k, t) || OwnShows(s, k))
    && (n in s.tasks ==> s.tasks[n].stage == Enabling || s.tasks[n].stage == Attaching)
  }

  // No frame that goes with sid lies above the frame x.
  ghost predicate LeavesAlone(s: Desk, sid: Sid, x: Id) {
    forall a :: a in Answering(s.tree.frames, sid) ==> !AtOrBelow(s.tree.frames, x, a)
  }

  // The step takes nothing at or above the frame x: no reply of the page, no attach,
  // detach or navigation above it; no departure of a session that answers for a frame
  // above it; no other session's tree, answered or held, hung over it.
  ghost predicate Clears(s: Desk, a: Step, k: Sid, x: Id) {
    match a
    case PageEvent(TreeRead(_)) => false
    case PageEvent(Attached(y, _)) => y == "" || !AtOrBelow(s.tree.frames, x, y)
    case PageEvent(Detached(y)) => y == "" || !AtOrBelow(s.tree.frames, x, y)
    case PageEvent(Navigated(y, _, _, _)) => y == "" || !Below(s.tree.frames, x, y)
    case TargetDetached(sid) => LeavesAlone(s, sid, x)
    case SetupFailed(n) => n in s.tasks ==> LeavesAlone(s, s.tasks[n].sid, x)
    case TreeAnswered(n, Some(t)) =>
      n in s.tasks && s.tasks[n].sid != k && ParentShows(s, t) ==>
        !AtOrBelow(s.tree.frames, x, t.Name()) && LeavesAlone(s, s.tasks[n].sid, x)
    case Resplice => forall j :: j in Holding(s) && j != k ==> !Covers(s, j, x)
    case _ => true
  }

  // The step takes nothing of what the session k shows; and of trees held, none hangs
  // under a frame that another replaces.
  ghost predicate Undisturbed(s: Desk, a: Step, k: Sid) {
    && (OwnShows(s, k) ==> Clears(s, a, k, s.sessions[k].target))
    && (a.Resplice? ==> Separate(s) && Apart(s))
  }

  lemma PageKeeps(s: Desk, e: Event, k: Sid, n: nat, t: FrameTree, matches: Matcher)
    requires Consistent(s.tree) && !e.Spliced? && !e.SessionGone?
    requires Kept(s, k, n, t) && Undisturbed(s, PageEvent(e), k)
    ensures Kept(s.(tree := Apply(s.tree, e, matches)), k, n, t)
  {
    if OwnShows(s, k) {
      var x := s.sessions[k].target;
      hide Apply, Naming, Nodes, Carries;
      StillMapped(s.tree, e, x, matches);
    }
  }

  // A page event that leaves all at or above x keeps x and its mark.
  lemma StillMapped(s: State, e: Event, x: Id, matches: Matcher)
    requires Consistent(s) && x in s.frames && !e.Spliced? && !e.SessionGone? && !e.TreeRead?
    requires e.Attached? || e.Detached? ==> e.id == "" || !AtOrBelow(s.frames, x, e.id)
    requires e.Navigated? ==> e.id == "" || !Below(s.frames, x, e.id)
    ensures x in Apply(s, e, matches).frames && Apply(s, e, matches).frames[x].data.session == s.frames[x].data.session
  {
    hide Apply, AtOrBelow;
    StepMaps(s, e, matches, x);
    if e.Attached? || e.Detached? { AtOrBelowStep(s.frames, x, e.id); }
    NotBelowItself(s.frames, x);
    StepSays(s, e, matches, x);
  }

  lemma NotBelowItself(m: FrameMap, x: Id)
    requires IsForest(m)
    ensures !Below(m, x, x)
  {
    if Below(m, x, x) { BelowDeeper(m, Depths(m), x, x); }
  }

  lemma DropKeepsShown(s: Desk, sid: Sid, k: Sid, n: nat, t: FrameTree, matches: Matcher)
    requires Rooted(s) && Elems(s.order) == s.sessions.Keys && Kept(s, k, n, t)
    requires OwnShows(s, k) ==> LeavesAlone(s, sid, s.sessions[k].target)
    requires IsSession(Dropped(s, sid, matches), k, n)
    ensures Kept(Dropped(s, sid, matches), k, n, t)
  {
    if sid in s.sessions {
      RootedIsOwnFrameFirst(s);
      OwnFrameFirstIsAnswerless(s, sid);
      DropTakes(s, sid, matches);
      DropTakesExactly(s, sid, matches);
      DropShrinks(s, sid, matches);
      hide Dropped;
      var r, x := Dropped(s, sid, matches), s.sessions[k].target;
      if OwnShows(s, k) { AloneStays(s, sid, x); }
    }
  }

  lemma AloneStays(s: Desk, sid: Sid, x: Id)
    requires LeavesAlone(s, sid, x)
    ensures !Goes(s.tree.frames, x, {sid})
  {
    var m := s.tree.frames;
    assert AnsweredByAny(m, {sid}) == Answering(m, sid);
    forall a | a in Answering(m, sid) ensures x != a && !Below(m, x, a) {
      AtOrBelowStep(m, x, a);
    }
  }

  lemma AbandonKeepsShown(s: Desk, sid: Sid, target: Id, url: string, k: Sid, n: nat, t: FrameTree, matches: Matcher)
    requires Rooted(s) && Elems(s.order) == s.sessions.Keys && Kept(s, k, n, t)
    requires OwnShows(s, k) ==> LeavesAlone(s, sid, s.sessions[k].target)
    requires IsSession(Abandoned(s, sid, target, url, matches), k, n)
    ensures Kept(Abandoned(s, sid, target, url, matches), k, n, t)
  {
    hide Dropped;
    DropKeepsShown(s, sid, k, n, t, matches);
  }

  // Another session's tree hung clear of x.
  lemma SpliceKeepsShown(s: Desk, t': FrameTree, sid: Sid, k: Sid, n: nat, t: FrameTree, matches: Matcher)
    requires Consistent(s.tree) && CanSplice(s.tree.frames, t') && Sane(s.tree, Spliced(t', sid))
    requires Kept(s, k, n, t)
    requires OwnShows(s, k) ==> !AtOrBelow(s.tree.frames, s.sessions[k].target, t'.Name())
    ensures Kept(s.(tree := Apply(s.tree, Spliced(t', sid), matches)), k, n, t)
  {
    if OwnShows(s, k) {
      hide Splice, Ids, Parse, BringsFreshIds, AtOrBelow;
      SplicedFrames(s.tree, t', sid, matches);
      SpliceView(s.tree.frames, Depths(s.tree.frames), t', sid);
    }
  }

  // The passes touch nothing but the frames and what is held.
  lemma {:induction false} PassTasks(s: Desk, todo: seq<Sid>, matches: Matcher)
    ensures var r := Pass(s, todo, matches);
            r.tasks == s.tasks && r.unreachable == s.unreachable && r.born == s.born && r.order == s.order
    decreases |todo|
  {
    if todo == [] {
      assert Pass(s, todo, matches) == s;
    } else {
      hide Apply, CanSplice;
      PassTasks(Tried(s, todo[0], matches), todo[1..], matches);
    }
  }

  lemma {:induction false} RespliceTasks(s: Desk, matches: Matcher)
    ensures var r := Respliced(s, matches);
            r.tasks == s.tasks && r.unreachable == s.unreachable && r.born == s.born && r.order == s.order
    decreases Holding(s)
  {
    hide Pass;
    PassTasks(s, s.order, matches);
    if Pass(s, s.order, matches) != s { RespliceTasks(Pass(s, s.order, matches), matches); }
  }

  lemma ResplicedKeeps(s: Desk, k: Sid, n: nat, t: FrameTree, matches: Matcher)
    requires Rooted(s) && Consistent(s.tree) && Elems(s.order) == s.sessions.Keys && Kept(s, k, n, t)
    requires Undisturbed(s, Resplice, k)
    ensures Kept(Respliced(s, matches), k, n, t)
  {
    hide Respliced, Separate, Apart, Exhausted, Closed, Covers, Framed, Consistent;
    RespliceOutcome(s, matches);
    RespliceTasks(s, matches);
    var r := Respliced(s, matches);
    var placed := Holding(s) - Holding(r);
    if k in placed {
      PlacedShows(s, r, placed, k);
    } else if OwnShows(s, k) {
      SurvivorShows(s, r, placed, k);
    }
  }

  lemma PlacedShows(s: Desk, r: Desk, placed: set<Sid>, k: Sid)
    requires Built(s, r, placed) && k in placed
    requires HeldTree(s, k).Name() == s.sessions[k].target && HeldTree(s, k).Name() != ""
    ensures OwnShows(r, k)
  {
    hide Ids, Parse;
    NamesItself(HeldTree(s, k));
    assert FromBlock(s, r.tree.frames, k, s.sessions[k].target);
    BlockMarked(HeldTree(s, k), HeldTree(s, k).parentId, k);
  }

  lemma SurvivorShows(s: Desk, r: Desk, placed: set<Sid>, k: Sid)
    requires Built(s, r, placed) && OwnShows(s, k)
    requires forall j :: j in placed ==> !Covers(s, j, s.sessions[k].target)
    ensures OwnShows(r, k)
  {
    hide Ids, Parse, Covers;
    assert Survives(s, placed, s.sessions[k].target);
    assert Came(s, placed, s.sessions[k].target);
  }

  // Another session's answered tree, held, hung clear of x, or given up again.
  lemma InstalledKeeps(s: Desk, m: nat, t': FrameTree, k: Sid, n: nat, t: FrameTree, matches: Matcher)
    requires Rooted(s) && Bounded(s) && Consistent(s.tree) && m in s.tasks && !s.IsStale(m) && s.tasks[m].sid != k
    requires Sane(s.tree, Spliced(t', s.tasks[m].sid)) && t'.Name() == s.sessions[s.tasks[m].sid].target
    requires Kept(s, k, n, t) && Undisturbed(s, TreeAnswered(m, Some(t')), k)
    requires IsSession(Installed(s, m, t', matches), k, n)
    ensures Kept(Installed(s, m, t', matches), k, n, t)
  {
    hide Rooted, Consistent, Apply, Sane, DepthWalk, Abandoned, AtOrBelow, Kept, OwnShows;
    var task := s.tasks[m];
    if CanSplice(s.tree.frames, t') {
      var spliced := s.(tree := Apply(s.tree, Spliced(t', task.sid), matches));
      SpliceKeepsShown(s, t', task.sid, k, n, t, matches);
      if DepthWalk(spliced.tree.frames, t'.Name(), {}) > MAX_DEPTH {
        KeptSession(s, k, n, t);
        UndoneKeeps(s, spliced, m, t', k, n, t, matches);
      } else {
        KeptAlike(spliced, At(spliced, m, Enabling), k, n, t);
      }
    } else {
      KeptAlike(s, At(Hold(s, task.sid, Some(t')), m, Enabling), k, n, t);
    }
  }

  lemma KeptSession(s: Desk, k: Sid, n: nat, t: FrameTree)
    requires Kept(s, k, n, t)
    ensures IsSession(s, k, n)
  {
  }

  // Nothing of k's is touched.
  lemma KeptAlike(s: Desk, r: Desk, k: Sid, n: nat, t: FrameTree)
    requires Kept(s, k, n, t) && r.tree == s.tree
    requires k in s.sessions ==> k in r.sessions && r.sessions[k] == s.sessions[k]
    requires n in r.tasks ==> (n in s.tasks && r.tasks[n] == s.tasks[n]) || r.tasks[n].stage == Enabling
    ensures Kept(r, k, n, t)
  {
  }

  lemma UndoneKeeps(s: Desk, spliced: Desk, m: nat, t': FrameTree, k: Sid, n: nat, t: FrameTree, matches: Matcher)
    requires Rooted(s) && Bounded(s) && Consistent(s.tree) && m in s.tasks && !s.IsStale(m) && s.tasks[m].sid != k
    requires CanSplice(s.tree.frames, t') && Sane(s.tree, Spliced(t', s.tasks[m].sid))
    requires t'.Name() == s.sessions[s.tasks[m].sid].target
    requires spliced == s.(tree := Apply(s.tree, Spliced(t', s.tasks[m].sid), matches)) && Kept(spliced, k, n, t)
    requires k in s.sessions && Undisturbed(s, TreeAnswered(m, Some(t')), k)
    requires IsSession(Done(Undone(spliced, s.tasks[m].sid, s.tasks[m].target, s.tasks[m].url, t', matches), m), k, n)
    ensures Kept(Done(Undone(spliced, s.tasks[m].sid, s.tasks[m].target, s.tasks[m].url, t', matches), m), k, n, t)
  {
    hide Rooted, Consistent, Apply, Sane, Dropped, AtOrBelow, LeavesAlone;
    var task := s.tasks[m];
    SplicedRooted(s, t', task.sid, matches);
    if OwnShows(spliced, k) {
      EventMarks(s.tree, Spliced(t', task.sid), matches);
      assert OwnShows(s, k);
      SplicedAlone(s, t', task.sid, s.sessions[k].target, matches);
    }
    AbandonKeepsShown(spliced, task.sid, task.target, task.url, k, n, t, matches);
  }

  // What lay clear of a session and of the frame its tree is hung over stays clear of
  // it once the tree is hung.
  lemma SplicedAlone(s: Desk, t: FrameTree, sid: Sid, x: Id, matches: Matcher)
    requires Consistent(s.tree) && CanSplice(s.tree.frames, t) && Sane(s.tree, Spliced(t, sid))
    requires x in s.tree.frames && LeavesAlone(s, sid, x) && !AtOrBelow(s.tree.frames, x, t.Name())
    ensures LeavesAlone(s.(tree := Apply(s.tree, Spliced(t, sid), matches)), sid, x)
  {
    hide Splice, Ids, Parse, BringsFreshIds, AtOrBelow, Apply, Climb;
    var m, r := s.tree.frames, Splice(s.tree.frames, t, sid);
    SplicedFrames(s.tree, t, sid, matches);
    SpliceView(m, Depths(m), t, sid);
    forall a | a in Answering(r, sid) ensures !AtOrBelow(r, x, a) {
      if AtOrBelow(r, x, a) { ClearClimb(m, r, t.Name(), x, a); }
    }
  }

  // Above a frame that is not below top, a map that differs only there is the same.
  lemma ClearClimb(m: FrameMap, r: FrameMap, top: Id, x: Id, a: Id)
    requires IsForest(m) && x in m && !AtOrBelow(m, x, top) && AtOrBelow(r, x, a)
    requires forall y :: y in m && !AtOrBelow(m, y, top) ==> y in r && SameSpot(r[y], m[y])
    ensures AtOrBelow(m, x, a) && a in m && !AtOrBelow(m, a, top)
  {
    hide AtOrBelow, IsForest;
    var n := ClimbCount(r, x, a);
    ClearClimbs(m, r, top, x, n, a);
  }

  lemma ClimbCount(m: FrameMap, x: Id, a: Id) returns (n: nat)
    requires AtOrBelow(m, x, a)
    ensures Climb(m, x, n) == Some(a)
  {
    n :| Climb(m, x, n) == Some(a);
  }

  lemma {:induction false} ClearClimbs(m: FrameMap, r: FrameMap, top: Id, x: Id, n: nat, a: Id)
    requires IsForest(m) && x in m && !AtOrBelow(m, x, top) && Climb(r, x, n) == Some(a)
    requires forall y :: y in m && !AtOrBelow(m, y, top) ==> y in r && SameSpot(r[y], m[y])
    ensures AtOrBelow(m, x, a) && a in m && !AtOrBelow(m, a, top)
    decreases n
  {
    hide AtOrBelow, IsForest;
    AtOrBelowStep(m, x, a);
    AtOrBelowStep(m, x, top);
    if n > 0 {
      var q := m[x].parent.value;
      MappedParent(m, x);
      ClearClimbs(m, r, top, q, n - 1, a);
    }
  }

  lemma QuietKeeps(s: Desk, a: Step, k: Sid, n: nat, t: FrameTree, matches: Matcher)
    requires Kept(s, k, n, t) && CanHappen(s, a) && (a.SlotGiven? || a.EnableAnswered? || a.SetupFinished?)
    ensures Kept(After(s, a, matches), k, n, t)
  {
  }

  lemma AdmittedKeeps(s: Desk, sid: Sid, target: Id, url: string, k: Sid, n: nat, t: FrameTree)
    requires Kept(s, k, n, t) && Tended(s)
    ensures Kept(Admitted(s, sid, target, url), k, n, t)
  {
  }

  lemma StepKeeps(s: Desk, a: Step, k: Sid, n: nat, t: FrameTree, matches: Matcher)
    requires Rooted(s) && Bounded(s) && Consistent(s.tree)
    requires CanHappen(s, a) && SaneStep(s, a, matches) && RootedReply(s, a)
    requires Kept(s, k, n, t) && Undisturbed(s, a, k) && IsSession(After(s, a, matches), k, n)
    ensures Kept(After(s, a, matches), k, n, t)
  {
    hide Rooted, Consistent, Sane, Apply, Dropped, Abandoned, Installed, SanePasses, Respliced, LeavesAlone, Admitted;
    match a
    case PageEvent(e) => PageKeeps(s, e, k, n, t, matches);
    case TargetDetached(sid) => if sid != "" { DropKeepsShown(s, sid, k, n, t, matches); }
    case TreeAnswered(m, reply) =>
      if !s.IsStale(m) && reply.Some? {
        InstalledKeeps(s, m, reply.value, k, n, t, matches);
      }
    case SetupFailed(m) =>
      var task := s.tasks[m];
      AbandonKeepsShown(s, task.sid, task.target, task.url, k, n, t, matches);
    case Resplice => ResplicedKeeps(s, k, n, t, matches);
    case TargetAttached(sid, target, url, _) =>
      BoundedTended(s);
      AdmittedKeeps(s, sid, target, url, k, n, t);
    case _ => QuietKeeps(s, a, k, n, t, matches);
  }

  // ------------------------------------------------------------------- over a run

  // A session and the task that works for it know each other by the serial.
  predicate SerialsMatch(s: Desk) {
    forall k :: k in s.sessions && s.sessions[k].serial in s.tasks ==> s.tasks[s.sessions[k].serial].sid == k
  }

  lemma StepMatches(s: Desk, a: Step, matches: Matcher)
    requires SerialsMatch(s) && Bounded(s) && CanHappen(s, a)
    ensures SerialsMatch(After(s, a, matches))
  {
    BoundedTended(s);
    if !a.TargetAttached? {
      StepAddsNothing(s, a, matches);
      hide After;
    }
  }

  // A session that has gone is not seen again: its serial is given once.
  lemma SessionWas(s: Desk, a: Step, k: Sid, n: nat, matches: Matcher)
    requires CanHappen(s, a) && n < s.born && IsSession(After(s, a, matches), k, n)
    ensures IsSession(s, k, n) && n < After(s, a, matches).born
  {
    if !a.TargetAttached? {
      StepAddsNothing(s, a, matches);
      hide After;
    }
  }

  lemma {:induction false} NeverAgain(s: Desk, run: seq<Step>, k: Sid, n: nat, matches: Matcher)
    requires CanRun(s, run, matches) && n < s.born && IsSession(AfterAll(s, run, matches), k, n)
    ensures IsSession(s, k, n)
    decreases |run|
  {
    if run == [] {
      assert AfterAll(s, run, matches) == s;
    } else {
      hide After, CanHappen, IsSession;
      BornGrows(s, run[0], matches);
      NeverAgain(After(s, run[0], matches), run[1..], k, n, matches);
      SessionWas(s, run[0], k, n, matches);
    }
  }

  lemma BornGrows(s: Desk, a: Step, matches: Matcher)
    requires CanHappen(s, a)
    ensures s.born <= After(s, a, matches).born
  {
    if !a.TargetAttached? {
      StepAddsNothing(s, a, matches);
      hide After;
    }
  }

  ghost predicate Invariant(s: Desk) {
    Rooted(s) && Bounded(s) && Consistent(s.tree) && SerialsMatch(s)
  }

  lemma StepInvariant(s: Desk, a: Step, matches: Matcher)
    requires Invariant(s) && CanHappen(s, a) && SaneStep(s, a, matches) && RootedReply(s, a)
    ensures Invariant(After(s, a, matches))
  {
    hide Rooted, Bounded, Consistent, SerialsMatch, After, SaneStep, RootedReply, CanHappen;
    StepRooted(s, a, matches);
    StepKeepsBounds(s, a, matches);
    StepKeepsOneTree(s, a, matches);
    StepMatches(s, a, matches);
  }

  ghost predicate UndisturbedRun(s: Desk, run: seq<Step>, k: Sid, matches: Matcher)
    requires CanRun(s, run, matches)
    decreases |run|
  {
    run != [] ==> Undisturbed(s, run[0], k) && UndisturbedRun(After(s, run[0], matches), run[1..], k, matches)
  }

  // Undisturbed from the step after the i-th on.
  ghost predicate UndisturbedAfter(s: Desk, run: seq<Step>, i: nat, k: Sid, matches: Matcher)
    requires CanRun(s, run, matches) && i < |run|
    decreases i
  {
    if i == 0 then UndisturbedRun(After(s, run[0], matches), run[1..], k, matches)
    else UndisturbedAfter(After(s, run[0], matches), run[1..], i - 1, k, matches)
  }

  lemma {:induction false} RunKeeps(s: Desk, run: seq<Step>, k: Sid, n: nat, t: FrameTree, matches: Matcher)
    requires Invariant(s) && n < s.born && Kept(s, k, n, t)
    requires CanRun(s, run, matches) && SaneSteps(s, run, matches) && RootedReplies(s, run, matches)
    requires UndisturbedRun(s, run, k, matches) && IsSession(AfterAll(s, run, matches), k, n)
    ensures Kept(AfterAll(s, run, matches), k, n, t)
    decreases |run|
  {
    if run == [] {
      assert AfterAll(s, run, matches) == s;
    } else {
      hide After, SaneStep, RootedReply, CanHappen, Kept, Undisturbed, IsSession, Rooted, Bounded, Consistent;
      BornGrows(s, run[0], matches);
      NeverAgain(After(s, run[0], matches), run[1..], k, n, matches);
      StepKeeps(s, run[0], k, n, t, matches);
      StepInvariant(s, run[0], matches);
      RunKeeps(After(s, run[0], matches), run[1..], k, n, t, matches);
    }
  }

  lemma AnswerKept(s: Desk, n: nat, t: FrameTree, k: Sid, matches: Matcher)
    requires Invariant(s) && CanHappen(s, TreeAnswered(n, Some(t))) && SaneStep(s, TreeAnswered(n, Some(t)), matches)
    requires RootedReply(s, TreeAnswered(n, Some(t))) && t.Name() != ""
    requires IsSession(After(s, TreeAnswered(n, Some(t)), matches), k, n)
    ensures Kept(After(s, TreeAnswered(n, Some(t)), matches), k, n, t) && n < s.born
  {
    BoundedTended(s);
    SessionWas(s, TreeAnswered(n, Some(t)), k, n, matches);
    hide After, Consistent, Rooted, Bounded, Sane;
    AnsweredTree(s, n, t, matches);
    NamesItself(t);
  }

  lemma {:induction false} TreeKept(s: Desk, run: seq<Step>, i: nat, k: Sid, n: nat, t: FrameTree, matches: Matcher)
    requires Invariant(s) && CanRun(s, run, matches) && SaneSteps(s, run, matches) && RootedReplies(s, run, matches)
    requires i < |run| && run[i] == TreeAnswered(n, Some(t)) && t.Name() != ""
    requires IsSession(AfterAll(s, run, matches), k, n) && UndisturbedAfter(s, run, i, k, matches)
    ensures Kept(AfterAll(s, run, matches), k, n, t)
    decreases i
  {
    hide Kept, IsSession, Invariant, SaneStep, RootedReply, After, CanHappen;
    StepInvariant(s, run[0], matches);
    if i == 0 {
      TaskIsOld(s, n, t);
      BornGrows(s, run[0], matches);
      NeverAgain(After(s, run[0], matches), run[1..], k, n, matches);
      AnswerKept(s, n, t, k, matches);
      RunKeeps(After(s, run[0], matches), run[1..], k, n, t, matches);
    } else {
      TreeKept(After(s, run[0], matches), run[1..], i - 1, k, n, t, matches);
    }
  }

  lemma TaskIsOld(s: Desk, n: nat, t: FrameTree)
    requires Invariant(s) && CanHappen(s, TreeAnswered(n, Some(t)))
    ensures n < s.born
  {
    BoundedTended(s);
  }

  // So over every run whose replies are sane and rooted at their own target: whatever
  // was answered for a session that is still there, and not disturbed since, is held
  // just as it was answered, or the session's own frame is mapped and marked for it.
  // Once the held trees have been tried again, a tree whose parent is mapped is not
  // held: its frame shows.
  lemma AnsweredTreeIsKept(run: seq<Step>, i: nat, k: Sid, n: nat, t: FrameTree, matches: Matcher)
    requires CanRun(NO_SESSIONS, run, matches) && SaneSteps(NO_SESSIONS, run, matches)
    requires RootedReplies(NO_SESSIONS, run, matches)
    requires i < |run| && run[i] == TreeAnswered(n, Some(t)) && t.Name() != ""
    requires IsSession(AfterAll(NO_SESSIONS, run, matches), k, n)
    requires UndisturbedAfter(NO_SESSIONS, run, i, k, matches)
    ensures var s := AfterAll(NO_SESSIONS, run, matches);
            && (Waits(s, k, t) || OwnShows(s, k))
            && (run[|run| - 1] == Resplice && ParentShows(s, t) ==> OwnShows(s, k))
  {
    NothingIsRooted();
    TreeKept(NO_SESSIONS, run, i, k, n, t, matches);
    if run[|run| - 1] == Resplice {
      LastIsExhausted(NO_SESSIONS, run, matches);
    }
  }

  lemma {:induction false} LastIsExhausted(s: Desk, run: seq<Step>, matches: Matcher)
    requires Bounded(s) && CanRun(s, run, matches) && run != [] && run[|run| - 1] == Resplice
    ensures Exhausted(AfterAll(s, run, matches))
    decreases |run|
  {
    hide Bounded, CanHappen, Exhausted, Respliced;
    if |run| == 1 {
      assert run[1..] == [];
      BoundedOrder(s);
      ResplicedIsExhausted(s, matches);
    } else {
      StepKeepsBounds(s, run[0], matches);
      LastIsExhausted(After(s, run[0], matches), run[1..], matches);
    }
  }

  lemma BoundedOrder(s: Desk)
    requires Bounded(s)
    ensures Elems(s.order) == s.sessions.Keys
  {
  }
}

// The frame sessions themselves: session objects filed by id, setup tasks that
// hold on to them across awaits, and the frame manager they all edit. Each method
// is one stretch of code between two awaits, and is proved to do what Desks says.
module ChildSessions {
  import opened Prelude
  import opened Forest
  import opened Frames
  import opened FrameLaws
  import opened FrameManagers
  import opened Desks

  class FrameSession {
    const sessionId: Sid
    const targetId: Id
    const url: string
    ghost const serial: nat
    var generation: nat
    var ready: bool
    var pendingTree: Option<FrameTree>

    constructor (sessionId: Sid, targetId: Id, url: string, ghost serial: nat)
      ensures this.sessionId == sessionId && this.targetId == targetId && this.url == url && this.serial == serial
      ensures generation == 0 && !ready && pendingTree == None
    {
      this.sessionId := sessionId;
      this.targetId := targetId;
      this.url := url;
      this.serial := serial;
      generation, ready, pendingTree := 0, false, None;
    }

    ghost function View(): Session
      reads this`pendingTree, this`ready
    {
      Session(serial, targetId, url, pendingTree, ready)
    }
  }

  // One setup task: the session it works for, and the generation it read first.
  datatype Setup = Setup(session: FrameSession, generation: nat, stage: Stage)
  {
    ghost function View(): Task {
      Task(session.sessionId, session.targetId, session.url, stage)
    }
  }

  class FrameSessions {
    const frames: FrameManager
    const pageTargetId: Id
    var sessions: map<Sid, FrameSession>
    var order: seq<Sid>
    var unreachable: map<Id, string>
    var tasks: map<nat, Setup>
    var born: nat
    ghost var made: seq<FrameSession>  // every session ever taken on, by serial

    ghost predicate Known(session: FrameSession)
      reads this`made
    {
      session.serial < |made| && made[session.serial] == session
    }

    // Every session is filed under its own id, every task under its session's
    // serial, and no two sessions share a serial.
    ghost predicate Filed()
      reads this, made`generation
    {
      && born == |made|
      && Elems(order) == sessions.Keys
      && (forall k :: k in sessions ==>
            Known(sessions[k]) && sessions[k].sessionId == k && sessions[k].generation == 0)
      && (forall n :: n in tasks ==>
            Known(tasks[n].session) && tasks[n].session.serial == n && tasks[n].generation == 0)
    }

    ghost predicate Valid()
      reads this, made`generation, frames, frames.Repr
    {
      Filed() && frames.Keyed()
    }

    ghost function Roster(): map<Sid, Session>
      requires Filed()
      reads this, made
    {
      map k | k in sessions :: sessions[k].View()
    }

    ghost function Chores(): map<nat, Task>
      reads this`tasks
    {
      map n | n in tasks :: tasks[n].View()
    }

    ghost function Now(): Desk
      requires Valid()
      reads this, made, frames, frames.Repr
    {
      Desk(frames.Now(), Roster(), order, unreachable, Chores(), born)
    }

    constructor (frames: FrameManager, pageTargetId: Id)
      requires frames.Keyed()
      ensures Valid() && made == [] && this.frames == frames && this.pageTargetId == pageTargetId
      ensures Now() == Desk(frames.Now(), map[], [], map[], map[], 0)
    {
      this.frames := frames;
      this.pageTargetId := pageTargetId;
      sessions, order, unreachable, tasks, born := map[], [], map[], map[], 0;
      made := [];
    }

    method HasTarget(targetId: Id) returns (r: bool)
      requires Valid()
      ensures r == Now().HasTarget(targetId)
    {
      r := exists k :: k in sessions && sessions[k].targetId == targetId;
      ghost var s := Now();
      assert forall k :: k in sessions ==> s.sessions[k].target == sessions[k].targetId;
    }

    method OnAttached(sessionId: Sid, targetId: Id, url: string, kind: string)
      requires Valid()
      modifies this
      ensures Valid() && old(made) <= made && fresh(made[|old(made)|..])
      ensures Now() == After(old(Now()), TargetAttached(sessionId, targetId, url,
                                                        kind == "iframe" && targetId != pageTargetId), frames.matches)
    {
      if kind == "iframe" && targetId != pageTargetId {
        Admit(sessionId, targetId, url);
      }
    }

    method Admit(sessionId: Sid, targetId: Id, url: string)
      requires Valid()
      modifies this
      ensures Valid() && old(made) <= made && fresh(made[|old(made)|..])
      ensures Now() == Admitted(old(Now()), sessionId, targetId, url)
    {
      if sessionId == "" || targetId == "" {
        return;
      }
      var duplicate := HasTarget(targetId);
      if sessionId in sessions || duplicate {
        return;
      }
      TakeOn(sessionId, targetId, url);
    }

    method TakeOn(sessionId: Sid, targetId: Id, url: string)
      requires Valid() && sessionId != "" && targetId != "" && sessionId !in sessions && !Now().HasTarget(targetId)
      modifies this
      ensures Valid() && old(made) <= made && fresh(made[|old(made)|..])
      ensures Now() == Admitted(old(Now()), sessionId, targetId, url)
    {
      ghost var s := Now();
      hide FrameManager.Keyed, FrameManager.Now;
      assert |s.sessions| == |sessions| by {
        assert s.sessions.Keys == sessions.Keys;
        assert |s.sessions| == |s.sessions.Keys| && |sessions| == |sessions.Keys|;
      }
      if |sessions| >= MAX_SESSIONS {
        List(targetId, url);
      } else {
        Make(sessionId, targetId, url);
      }
    }

    method Make(sessionId: Sid, targetId: Id, url: string)
      requires Valid() && sessionId !in sessions
      modifies this
      ensures Valid() && old(made) <= made && fresh(made[|old(made)|..])
      ensures Now() == TakenOn(old(Now()), sessionId, targetId, url)
    {
      hide FrameManager.Keyed, FrameManager.Now, FrameManager.Tree;
      ghost var s := Now();
      var session := NewSession(sessionId, targetId, url);
      hide Roster, Chores, FrameSession.View, Filed;
      EnrolView(session);
    }

    method NewSession(sessionId: Sid, targetId: Id, url: string) returns (session: FrameSession)
      ensures fresh(session) && session.sessionId == sessionId && session.serial == born && session.generation == 0
      ensures session.View() == Session(born, targetId, url, None, false)
      ensures Setup(session, 0, Queued).View() == Task(sessionId, targetId, url, Queued)
    {
      session := new FrameSession(sessionId, targetId, url, born);
    }

    // The same, seen as values.
    method EnrolView(session: FrameSession)
      requires Filed() && session.sessionId !in sessions && session.serial == born && session.generation == 0
      modifies this`made, this`sessions, this`order, this`tasks, this`born
      ensures Filed() && made == old(made) + [session]
      ensures order == old(order) + [session.sessionId] && born == old(born) + 1
      ensures Roster() == old(Roster())[session.sessionId := session.View()]
      ensures Chores() == old(Chores())[old(born) := Setup(session, 0, Queued).View()]
    {
      Enrol(session);
    }

    method Enrol(session: FrameSession)
      requires Filed() && session.sessionId !in sessions && session.serial == born && session.generation == 0
      modifies this`made, this`sessions, this`order, this`tasks, this`born
      ensures Filed() && made == old(made) + [session]
      ensures sessions == old(sessions)[session.sessionId := session] && order == old(order) + [session.sessionId]
      ensures tasks == old(tasks)[old(born) := Setup(session, 0, Queued)] && born == old(born) + 1
    {
      made := made + [session];
      assert forall n :: 0 <= n < |old(made)| ==> made[n] == old(made)[n];
      sessions := sessions[session.sessionId := session];
      order := order + [session.sessionId];
      tasks := tasks[born := Setup(session, session.generation, Queued)];
      born := born + 1;
    }

    method OnDetached(sessionId: Sid)
      requires Valid()
      modifies this, made, frames, frames.Repr
      ensures Valid() && made == old(made) && frames.Repr == old(frames.Repr)
      ensures Now() == After(old(Now()), TargetDetached(sessionId), frames.matches)
    {
      if sessionId != "" {
        Drop(sessionId);
      }
    }

    method Drop(sessionId: Sid)
      requires Valid()
      modifies this, made, frames, frames.Repr
      ensures Valid() && made == old(made) && frames.Repr == old(frames.Repr)
      ensures Now() == Dropped(old(Now()), sessionId, frames.matches)
      ensures sessions.Keys <= old(sessions.Keys)
      decreases |sessions|, 1, 0
    {
      if sessionId !in sessions {
        return;
      }
      hide Apply, Answering, IsOrphan, FrameManager.Keyed, FrameManager.Now, FrameManager.Tree;
      ghost var s := Now();
      var session := sessions[sessionId];
      var orphaned := Leave(sessionId);
      KeysCount(sessions, old(sessions));
      DropOrphans(order, orphaned);
      Cross(session.targetId);
    }

    // Take a target off the unreachable list.
    method Cross(targetId: Id)
      requires Valid()
      modifies this`unreachable
      ensures Valid() && Now() == old(Now()).(unreachable := old(Now()).unreachable - {targetId})
    {
      hide FrameManager.Keyed, FrameManager.Now, FrameManager.Tree, FrameSession.View, Setup.View;
      unreachable := unreachable - {targetId};
    }

    method List(targetId: Id, url: string)
      requires Valid()
      modifies this`unreachable
      ensures Valid() && Now() == old(Now()).(unreachable := old(Now()).unreachable[targetId := url])
    {
      hide FrameManager.Keyed, FrameManager.Now, FrameManager.Tree, FrameSession.View, Setup.View;
      unreachable := unreachable[targetId := url];
    }

    method Leave(sessionId: Sid) returns (orphaned: set<Id>)
      requires Valid() && sessionId in sessions
      modifies this, made, frames, frames.Repr
      ensures Valid() && made == old(made) && frames.Repr == old(frames.Repr)
      ensures orphaned == Answering(old(Now()).tree.frames, sessionId)
      ensures sessions == old(sessions) - {sessionId}
      ensures Now() == (var s := old(Now());
                        s.(sessions := s.sessions - {sessionId}, order := Without(s.order, sessionId),
                           tree := Apply(s.tree, SessionGone(sessionId), frames.matches)))
    {
      hide Apply, Answering, FrameManager.Keyed, FrameManager.Tree;
      Evict(sessionId);
      orphaned := Forget(sessionId);
    }

    method Evict(sessionId: Sid)
      requires Valid() && sessionId in sessions
      modifies this`sessions, this`order, made`generation
      ensures Valid() && sessions == old(sessions) - {sessionId}
      ensures Now() == (var s := old(Now());
                        s.(sessions := s.sessions - {sessionId}, order := Without(s.order, sessionId)))
    {
      hide FrameManager.Keyed, FrameManager.Now, FrameManager.Tree, Filed, Roster, Chores, Without;
      Unfile(sessionId);
    }

    // The same, of the table alone.
    method Unfile(sessionId: Sid)
      requires Filed() && sessionId in sessions
      modifies this`sessions, this`order, made`generation
      ensures Filed() && sessions == old(sessions) - {sessionId} && order == Without(old(order), sessionId)
      ensures Roster() == old(Roster()) - {sessionId}
    {
      ghost var roster := Roster();
      var session := sessions[sessionId];
      sessions := sessions - {sessionId};
      order := Without(order, sessionId);
      session.generation := session.generation + 1;
      assert Roster() == roster - {sessionId};
    }

    method Forget(sessionId: Sid) returns (orphaned: set<Id>)
      requires Valid()
      modifies frames, frames.Repr
      ensures Valid() && frames.Repr == old(frames.Repr)
      ensures orphaned == Answering(old(Now()).tree.frames, sessionId)
      ensures Now() == old(Now()).(tree := Apply(old(Now()).tree, SessionGone(sessionId), frames.matches))
    {
      hide Apply, Answering, FrameManager.Keyed, FrameManager.Tree, FrameSession.View, Setup.View;
      orphaned := frames.ForgetSession(sessionId);
    }

    method DropOrphans(others: seq<Sid>, orphaned: set<Id>)
      requires Valid()
      modifies this, made, frames, frames.Repr
      ensures Valid() && made == old(made) && frames.Repr == old(frames.Repr)
      ensures Now() == DroppedOrphans(old(Now()), others, orphaned, frames.matches)
      ensures sessions.Keys <= old(sessions.Keys)
      decreases |sessions|, 2
    {
      ghost var s := Now();
      var snapshot := sessions;
      for i := 0 to |others|
        invariant Valid() && made == old(made) && frames.Repr == old(frames.Repr)
        invariant sessions.Keys <= old(sessions.Keys)
        invariant DroppedOrphans(Now(), others[i..], orphaned, frames.matches) ==
                  DroppedOrphans(s, others, orphaned, frames.matches)
      {
        KeysCount(sessions, old(sessions));
        DropIfOrphan(others[i], orphaned);
        assert others[i..][0] == others[i] && others[i..][1..] == others[i + 1..];
      }
    }

    method DropIfOrphan(other: Sid, orphaned: set<Id>)
      requires Valid()
      modifies this, made, frames, frames.Repr
      ensures Valid() && made == old(made) && frames.Repr == old(frames.Repr)
      ensures Now() == var s := old(Now());
                       if IsOrphan(s, other, orphaned) then Dropped(s, other, frames.matches) else s
      ensures sessions.Keys <= old(sessions.Keys)
      decreases |sessions|, 1, 1
    {
      assert other in sessions ==> Now().sessions[other].target == sessions[other].targetId;
      hide Dropped, FrameSession.View, Setup.View;
      if other !in sessions {
        return;
      }
      var targetId := sessions[other].targetId;
      var answering := frames.SessionFor(targetId);
      if answering == None && targetId in orphaned {
        Drop(other);
      }
    }

    method Abandon(session: FrameSession)
      requires Valid()
      modifies this, made, frames, frames.Repr
      ensures Valid() && made == old(made) && frames.Repr == old(frames.Repr)
      ensures Now() == Abandoned(old(Now()), session.sessionId, session.targetId, session.url, frames.matches)
    {
      hide Dropped;
      Drop(session.sessionId);
      List(session.targetId, session.url);
    }

    // Did this session go away while the answer was on its way?
    method IsStale(setup: Setup) returns (r: bool)
      requires Valid() && Known(setup.session) && setup.generation == 0
      ensures r <==> !Now().IsLive(setup.session.sessionId, setup.session.serial)
    {
      var sid := setup.session.sessionId;
      r := sid !in sessions || sessions[sid] != setup.session || setup.session.generation != setup.generation;
    }

    // ------------------------------------------------- a setup task, by awaits

    method GiveSlot(serial: nat)
      requires Valid() && CanHappen(Now(), SlotGiven(serial))
      modifies this`tasks
      ensures Valid() && Now() == After(old(Now()), SlotGiven(serial), frames.matches)
    {
      hide FrameManager.Keyed, FrameManager.Now, FrameManager.Tree, FrameSession.View, Running;
      Move(serial, Reading);
    }

    method Move(serial: nat, stage: Stage)
      requires Valid() && serial in tasks
      modifies this`tasks
      ensures Valid() && Now() == At(old(Now()), serial, stage)
    {
      hide FrameManager.Keyed, FrameManager.Now, FrameManager.Tree, FrameSession.View;
      ghost var s := Now();
      tasks := tasks[serial := tasks[serial].(stage := stage)];
      assert Chores() == s.tasks[serial := s.tasks[serial].(stage := stage)];
    }

    method Discard(serial: nat)
      requires Valid()
      modifies this`tasks
      ensures Valid() && Now() == Done(old(Now()), serial)
    {
      hide FrameManager.Keyed, FrameManager.Now, FrameManager.Tree, FrameSession.View;
      ghost var s := Now();
      tasks := tasks - {serial};
      assert Chores() == s.tasks - {serial};
    }

    // Page.getFrameTree has answered.
    method AnswerTree(serial: nat, reply: Option<FrameTree>)
      requires Valid() && CanHappen(Now(), TreeAnswered(serial, reply))
      modifies this, made, frames, frames.Repr
      ensures Valid() && made == old(made) && fresh(frames.Repr - old(frames.Repr))
      ensures Now() == After(old(Now()), TreeAnswered(serial, reply), frames.matches)
    {
      hide FrameManager.Keyed, FrameManager.Now, FrameManager.Tree, Installed, FrameSession.View,
           Roster, At, Done, After;
      TreeAnswer(Now(), serial, reply, frames.matches);
      var stale := IsStale(tasks[serial]);
      if stale {
        Discard(serial);
      } else if reply.None? {
        Move(serial, Enabling);
      } else {
        Install(serial, reply.value);
      }
    }

    method Install(serial: nat, tree: FrameTree)
      requires Valid() && serial in tasks && !Now().IsStale(serial)
      modifies this, made, frames, frames.Repr
      ensures Valid() && made == old(made) && fresh(frames.Repr - old(frames.Repr))
      ensures Now() == Installed(old(Now()), serial, tree, frames.matches)
    {
      hide FrameManager.Keyed, FrameManager.Now, Apply, CanSplice, DepthWalk, Undone, At, Done, Hold;
      var session := tasks[serial].session;
      var spliced := TrySplice(session.sessionId, tree);
      if !spliced {
        Held(session.sessionId, Some(tree));
      } else {
        var past := TooDeep(session, tree);
        if past {
          Discard(serial);
          return;
        }
      }
      Move(serial, Enabling);
    }

    // Past the depth bound: take the subtree back out and list its target.
    method TooDeep(session: FrameSession, tree: FrameTree) returns (past: bool)
      requires Valid()
      modifies this, made, frames, frames.Repr
      ensures Valid() && made == old(made) && frames.Repr == old(frames.Repr)
      ensures var s := old(Now());
              && past == (tree.Name() != "" && DepthWalk(s.tree.frames, tree.Name(), {}) > MAX_DEPTH)
              && Now() == if past then Undone(s, session.sessionId, session.targetId, session.url, tree, frames.matches)
                          else s
    {
      hide FrameManager.Keyed, FrameManager.Now, Apply, Abandoned, DepthWalk;
      var depth := 0;
      if tree.Name() != "" {
        depth := Depth(tree.Name());
      }
      if depth <= MAX_DEPTH {
        return false;
      }
      Abandon(session);
      List(session.targetId, if tree.url != "" then tree.url else session.url);
      past := true;
    }

    method Depth(frameId: Id) returns (depth: nat)
      requires Valid()
      ensures depth == DepthWalk(Now().tree.frames, frameId, {})
    {
      hide FrameManager.Keyed, FrameManager.Tree, DepthWalk;
      depth := frames.DepthOf(frameId);
    }

    method TrySplice(sessionId: Sid, tree: FrameTree) returns (ok: bool)
      requires Valid()
      modifies frames, frames.Repr
      ensures Valid() && fresh(frames.Repr - old(frames.Repr))
      ensures ok == CanSplice(old(Now()).tree.frames, tree)
      ensures Now() == old(Now()).(tree := Apply(old(Now()).tree, Spliced(tree, sessionId), frames.matches))
      ensures if ok then tree.Name() != "" else Now() == old(Now())
    {
      hide FrameManager.Keyed, FrameManager.Tree, Apply, FrameSession.View, Setup.View;
      SpliceRefused(frames.Now(), tree, sessionId, frames.matches);
      ok := frames.SpliceSessionTree(tree, sessionId);
    }

    method Held(sessionId: Sid, tree: Option<FrameTree>)
      requires Valid() && sessionId in sessions
      modifies made`pendingTree
      ensures Valid() && Now() == Hold(old(Now()), sessionId, tree)
    {
      assert sessionId in Roster();
      hide FrameManager.Keyed, FrameManager.Now, FrameManager.Tree, Filed, Roster, Chores;
      Put(sessionId, tree);
    }

    method Put(sessionId: Sid, tree: Option<FrameTree>)
      requires Filed() && sessionId in sessions
      modifies made`pendingTree
      ensures Filed() && sessionId in old(Roster())
      ensures Roster() == old(Roster())[sessionId := old(Roster())[sessionId].(held := tree)]
    {
      ghost var roster := Roster();
      sessions[sessionId].pendingTree := tree;
      forall k | k in sessions && k != sessionId ensures sessions[k].View() == roster[k] {
        assert sessions[k] != sessions[sessionId];
      }
      assert Roster() == roster[sessionId := roster[sessionId].(held := tree)];
    }

    // Runtime.enable has answered.
    method AnswerEnable(serial: nat)
      requires Valid() && CanHappen(Now(), EnableAnswered(serial))
      modifies this`tasks
      ensures Valid() && Now() == After(old(Now()), EnableAnswered(serial), frames.matches)
    {
      hide FrameManager.Keyed, FrameManager.Now, FrameManager.Tree, FrameSession.View, Roster, At, Done;
      var stale := IsStale(tasks[serial]);
      if stale {
        Discard(serial);
      } else {
        Move(serial, Attaching);
      }
    }

    // Auto-attach is on below this session and its attaches have arrived.
    method FinishSetup(serial: nat)
      requires Valid() && CanHappen(Now(), SetupFinished(serial))
      modifies this`tasks, made`ready
      ensures Valid() && Now() == After(old(Now()), SetupFinished(serial), frames.matches)
    {
      hide FrameManager.Keyed, FrameManager.Now, FrameManager.Tree, Running, Roster, FrameSession.View;
      var session := tasks[serial].session;
      MarkReady(session);
      Discard(serial);
    }

    // The object is marked whether or not the table still holds it.
    method MarkReady(session: FrameSession)
      requires Filed() && Known(session)
      modifies session`ready
      ensures Filed()
      ensures var roster, k := old(Roster()), session.sessionId;
              if k in roster && roster[k].serial == session.serial then Roster() == roster[k := roster[k].(ready := true)]
              else Roster() == roster
    {
      ghost var roster := Roster();
      session.ready := true;
      forall k | k in sessions && sessions[k] != session ensures sessions[k].View() == roster[k] {
      }
    }

    // An awaited call raised, or the setup ran out of time.
    method FailSetup(serial: nat)
      requires Valid() && CanHappen(Now(), SetupFailed(serial))
      modifies this, made, frames, frames.Repr
      ensures Valid() && made == old(made) && frames.Repr == old(frames.Repr)
      ensures Now() == After(old(Now()), SetupFailed(serial), frames.matches)
    {
      hide FrameManager.Keyed, FrameManager.Now, Abandoned;
      Abandon(tasks[serial].session);
      Discard(serial);
    }

    // ----------------------------------------------------------- held trees

    method ResplicePending()
      requires Valid()
      modifies made`pendingTree, frames, frames.Repr
      ensures Valid() && fresh(frames.Repr - old(frames.Repr))
      ensures Now() == After(old(Now()), Resplice, frames.matches)
    {
      hide FrameManager.Keyed, FrameManager.Now, Tried, Pass;
      ghost var s := Now();
      var spliced := true;
      while spliced
        invariant Valid() && fresh(frames.Repr - old(frames.Repr))
        invariant Respliced(Now(), frames.matches) == Respliced(s, frames.matches)
        invariant !spliced ==> Now() == Respliced(s, frames.matches)
        decreases Holding(Now()), spliced
      {
        spliced := PassOver();
      }
    }

    method PassOver() returns (spliced: bool)
      requires Valid()
      modifies made`pendingTree, frames, frames.Repr
      ensures Valid() && fresh(frames.Repr - old(frames.Repr))
      ensures Now() == Pass(old(Now()), order, frames.matches)
      ensures spliced <==> Now() != old(Now())
    {
      hide FrameManager.Keyed, FrameManager.Now, FrameManager.Tree, Tried, Roster, Chores, Pass, Holding;
      ghost var s := Now();
      assert order[0..] == order;
      spliced := false;
      for i := 0 to |order|
        invariant Valid() && fresh(frames.Repr - old(frames.Repr))
        invariant Pass(Now(), order[i..], frames.matches) == Pass(s, order, frames.matches)
        invariant spliced <==> Now() != s
        invariant spliced ==> Holding(Now()) < Holding(s)
      {
        PassTurn(Now(), order, i, frames.matches);
        var ok := TryHeld(order[i]);
        spliced := spliced || ok;
      }
      PassEnd(Now(), order, frames.matches);
    }

    method TryHeld(sessionId: Sid) returns (ok: bool)
      requires Valid() && sessionId in sessions
      modifies made`pendingTree, frames, frames.Repr
      ensures Valid() && fresh(frames.Repr - old(frames.Repr))
      ensures Now() == Tried(old(Now()), sessionId, frames.matches)
      ensures if ok then Holding(Now()) < Holding(old(Now())) else Now() == old(Now())
    {
      hide FrameManager.Keyed, FrameManager.Now, Apply, CanSplice;
      if sessions[sessionId].pendingTree.None? {
        return false;
      }
      ok := TrySplice(sessionId, sessions[sessionId].pendingTree.value);
      if ok {
        Held(sessionId, None);
      }
    }
  }

  lemma SpliceRefused(s: State, t: FrameTree, session: Sid, matches: Matcher)
    ensures !CanSplice(s.frames, t) ==> Apply(s, Spliced(t, session), matches) == s
  {
  }

  lemma PassTurn(s: Desk, todo: seq<Sid>, i: nat, matches: Matcher)
    requires i < |todo|
    ensures Pass(s, todo[i..], matches) == Pass(Tried(s, todo[i], matches), todo[i + 1..], matches)
  {
    hide Tried;
    assert todo[i..][0] == todo[i] && todo[i..][1..] == todo[i + 1..];
  }

  lemma PassEnd(s: Desk, todo: seq<Sid>, matches: Matcher)
    ensures Pass(s, todo[|todo|..], matches) == s
  {
  }

  // The three things an answered tree can lead to.
  lemma TreeAnswer(s: Desk, n: nat, reply: Option<FrameTree>, matches: Matcher)
    requires CanHappen(s, TreeAnswered(n, reply))
    ensures n in s.tasks
    ensures After(s, TreeAnswered(n, reply), matches) ==
            if s.IsStale(n) then Done(s, n)
            else if reply.None? then At(s, n, Enabling)
            else Installed(s, n, reply.value, matches)
  {
  }
}

// Which targets are listed as unreachable, and under which URL: an attach past the
// bound or a setup that failed lists one, and only the departure of its session takes
// it off again.
module Listings {
  import opened Prelude
  import opened Forest
  import opened Frames
  import opened Desks
  import opened SessionLaws
  import opened DropLaws
  import opened OwnFrames
  import opened Placements

  // A session that has gone between s and r had the target t.
  ghost predicate Departed(s: Desk, r: Desk, t: Id) {
    exists k :: k in Gone(s, r) && s.sessions[k].target == t
  }

  // The listing of r is that of s, without the targets of the sessions gone.
  ghost predicate Unlists(s: Desk, r: Desk) {
    && r.sessions.Keys <= s.sessions.Keys
    && (forall k :: k in r.sessions ==> r.sessions[k] == s.sessions[k])
    && (forall t :: t in r.unreachable <==> t in s.unreachable && !Departed(s, r, t))
    && (forall t :: t in r.unreachable ==> r.unreachable[t] == s.unreachable[t])
  }

  // A drop takes off the list the targets of the sessions that go, the cascade's
  // included, and no other.
  lemma {:induction false} DropUnlists(s: Desk, sid: Sid, matches: Matcher)
    ensures Unlists(s, Dropped(s, sid, matches))
    decreases |s.sessions|, 1, 0
  {
    if sid in s.sessions {
      hide Apply, IsOrphan, Unlists;
      var left := s.(sessions := s.sessions - {sid}, order := Without(s.order, sid),
                     tree := Apply(s.tree, SessionGone(sid), matches));
      assert left.sessions.Keys < s.sessions.Keys;
      KeysCount(left.sessions, s.sessions);
      OrphansUnlist(left, left.order, Answering(s.tree.frames, sid), matches);
      FirstUnlists(s, sid, left, DroppedOrphans(left, left.order, Answering(s.tree.frames, sid), matches));
    } else {
      assert Gone(s, s) == {};
    }
  }

  lemma FirstUnlists(s: Desk, sid: Sid, left: Desk, swept: Desk)
    requires sid in s.sessions && left.sessions == s.sessions - {sid} && left.unreachable == s.unreachable
    requires Unlists(left, swept)
    ensures Unlists(s, swept.(unreachable := swept.unreachable - {s.sessions[sid].target}))
  {
    var r := swept.(unreachable := swept.unreachable - {s.sessions[sid].target});
    assert Gone(s, r) == {sid} + Gone(left, swept);
    forall t | t in s.unreachable
      ensures Departed(s, r, t) <==> t == s.sessions[sid].target || Departed(left, swept, t)
    {
      if Departed(left, swept, t) {
        var k :| k in Gone(left, swept) && left.sessions[k].target == t;
        assert k in Gone(s, r);
      }
      if t == s.sessions[sid].target { assert sid in Gone(s, r); }
    }
  }

  lemma {:induction false} OrphansUnlist(s: Desk, others: seq<Sid>, orphaned: set<Id>, matches: Matcher)
    ensures Unlists(s, DroppedOrphans(s, others, orphaned, matches))
    decreases |s.sessions|, 2, |others|
  {
    if others == [] {
      assert Gone(s, s) == {};
    } else {
      hide IsOrphan, Dropped, Unlists;
      var s' := if IsOrphan(s, others[0], orphaned) then Dropped(s, others[0], matches) else s;
      if IsOrphan(s, others[0], orphaned) {
        DropUnlists(s, others[0], matches);
      } else {
        NothingUnlists(s);
      }
      KeysCount(s'.sessions, s.sessions);
      OrphansUnlist(s', others[1..], orphaned, matches);
      UnlistsTwice(s, s', DroppedOrphans(s', others[1..], orphaned, matches));
    }
  }

  lemma NothingUnlists(s: Desk)
    ensures Unlists(s, s)
  {
    assert Gone(s, s) == {};
  }

  lemma UnlistsTwice(s: Desk, m: Desk, r: Desk)
    requires Unlists(s, m) && Unlists(m, r)
    ensures Unlists(s, r)
  {
    assert Gone(s, r) == Gone(s, m) + Gone(m, r);
    forall t | t in s.unreachable ensures Departed(s, r, t) <==> Departed(s, m, t) || Departed(m, r, t) {
      if Departed(s, m, t) {
        var k :| k in Gone(s, m) && s.sessions[k].target == t;
        assert k in Gone(s, r);
      }
      if Departed(m, r, t) {
        var k :| k in Gone(m, r) && m.sessions[k].target == t;
        assert k in Gone(s, r);
      }
    }
  }

  // What one step lists: a supported target past the bound, by the URL its attach
  // gave; the target of a setup that failed, by its own; the target of a tree past the
  // depth bound, by the URL of the tree or, where that is empty, its own. An attach
  // with an empty id, of a known session or of a target that has one, lists nothing.
  ghost predicate Lists(s: Desk, a: Step, t: Id, url: string)
    requires IsForest(s.tree.frames)
  {
    match a
    case TargetAttached(sid, target, u, supported) =>
      && supported && t == target && url == u && sid != "" && target != ""
      && sid !in s.sessions && !s.HasTarget(target) && |s.sessions| >= MAX_SESSIONS
    case SetupFailed(n) => n in s.tasks && t == s.tasks[n].target && url == s.tasks[n].url
    case TreeAnswered(n, Some(tree)) =>
      && n in s.tasks && !s.IsStale(n) && t == s.tasks[n].target
      && ParentShows(s, tree) && Depths(s.tree.frames)[tree.parentId.value] >= MAX_DEPTH
      && url == if tree.url != "" then tree.url else s.tasks[n].url
    case _ => false
  }

  // After any step a target is listed, by a URL, exactly when the step lists it so, or
  // it was listed so before, the step lists it by no URL, and no session of it went.
  lemma StepLists(s: Desk, a: Step, t: Id, url: string, matches: Matcher)
    requires Bounded(s) && IsForest(s.tree.frames) && Consistent(s.tree) && CanHappen(s, a) && SaneStep(s, a, matches)
    ensures var r := After(s, a, matches);
            (t in r.unreachable && r.unreachable[t] == url) <==>
            Lists(s, a, t, url) ||
            (t in s.unreachable && s.unreachable[t] == url && !ListsAny(s, a, t) && !Departed(s, r, t))
  {
    hide Bounded, Consistent, Dropped, Respliced, Installed, Apply, Sane, SanePasses, Depths;
    match a
    case TargetDetached(sid) => if sid != "" { DropUnlists(s, sid, matches); } else { NothingGoes(s, s); }
    case SetupFailed(n) => FailureLists(s, n, t, url, matches);
    case TreeAnswered(n, reply) => AnswerLists(s, n, reply, t, url, matches);
    case Resplice =>
      RespliceTasks(s, matches);
      ResplicedIds(s, matches);
      NothingGoes(s, Respliced(s, matches));
    case TargetAttached(sid, target, u, supported) => AttachLists(s, a, t, url, matches);
    case _ => NothingGoes(s, After(s, a, matches));
  }

  ghost predicate ListsAny(s: Desk, a: Step, t: Id)
    requires IsForest(s.tree.frames)
  {
    exists url :: Lists(s, a, t, url)
  }

  lemma NothingGoes(s: Desk, r: Desk)
    requires s.sessions.Keys <= r.sessions.Keys
    ensures forall t :: !Departed(s, r, t)
  {
    assert Gone(s, r) == {};
  }

  lemma ResplicedIds(s: Desk, matches: Matcher)
    ensures Respliced(s, matches).sessions.Keys == s.sessions.Keys
    decreases Holding(s)
  {
    if Pass(s, s.order, matches) != s { ResplicedIds(Pass(s, s.order, matches), matches); }
  }

  lemma AttachLists(s: Desk, a: Step, t: Id, url: string, matches: Matcher)
    requires a.TargetAttached? && IsForest(s.tree.frames)
    ensures var r := After(s, a, matches);
            (t in r.unreachable && r.unreachable[t] == url) <==>
            Lists(s, a, t, url) ||
            (t in s.unreachable && s.unreachable[t] == url && !ListsAny(s, a, t) && !Departed(s, r, t))
  {
    var r := After(s, a, matches);
    NothingGoes(s, r);
    if Lists(s, a, a.target, a.url) {
      if t == a.target { assert Lists(s, a, t, a.url); }
      assert t != a.target ==> !ListsAny(s, a, t);
    } else {
      assert r.unreachable == s.unreachable;
      assert !ListsAny(s, a, t);
    }
  }

  // A departure, and then a listing under one URL.
  lemma DropThenLists(s: Desk, dropped: Desk, r: Desk, t: Id, target: Id, u: string)
    requires Unlists(s, dropped) && r.sessions == dropped.sessions
    requires r.unreachable == dropped.unreachable[target := u]
    ensures t == target ==> t in r.unreachable && r.unreachable[t] == u
    ensures t != target ==> (t in r.unreachable <==> t in s.unreachable && !Departed(s, r, t))
    ensures t != target && t in r.unreachable ==> r.unreachable[t] == s.unreachable[t]
  {
    assert Gone(s, r) == Gone(s, dropped);
    assert Departed(s, r, t) <==> Departed(s, dropped, t);
  }

  lemma FailureLists(s: Desk, n: nat, t: Id, url: string, matches: Matcher)
    requires CanHappen(s, SetupFailed(n)) && IsForest(s.tree.frames)
    ensures var a := SetupFailed(n);
            var r := After(s, a, matches);
            (t in r.unreachable && r.unreachable[t] == url) <==>
            Lists(s, a, t, url) ||
            (t in s.unreachable && s.unreachable[t] == url && !ListsAny(s, a, t) && !Departed(s, r, t))
  {
    hide Dropped, Unlists;
    var task, a := s.tasks[n], SetupFailed(n);
    DropUnlists(s, task.sid, matches);
    DropThenLists(s, Dropped(s, task.sid, matches), After(s, a, matches), t, task.target, task.url);
    if t == task.target { assert Lists(s, a, t, task.url); }
    assert t != task.target ==> !ListsAny(s, a, t);
  }

  lemma AnswerLists(s: Desk, n: nat, reply: Option<FrameTree>, t: Id, url: string, matches: Matcher)
    requires Bounded(s) && IsForest(s.tree.frames) && Consistent(s.tree) && CanHappen(s, TreeAnswered(n, reply))
    requires SaneStep(s, TreeAnswered(n, reply), matches)
    ensures var a := TreeAnswered(n, reply);
            var r := After(s, a, matches);
            (t in r.unreachable && r.unreachable[t] == url) <==>
            Lists(s, a, t, url) ||
            (t in s.unreachable && s.unreachable[t] == url && !ListsAny(s, a, t) && !Departed(s, r, t))
  {
    hide Bounded, Consistent, Dropped, Apply, Sane, Depths, Unlists, Installed;
    var a, task := TreeAnswered(n, reply), s.tasks[n];
    var r := After(s, a, matches);
    if s.IsStale(n) || reply.None? {
      NothingGoes(s, r);
      assert !ListsAny(s, a, t);
    } else {
      var tree := reply.value;
      AnsweredTree(s, n, tree, matches);
      if ParentShows(s, tree) && Depths(s.tree.frames)[tree.parentId.value] >= MAX_DEPTH {
        PastBoundLists(s, n, tree, t, matches);
        var u := if tree.url != "" then tree.url else task.url;
        if t == task.target { assert Lists(s, a, t, u); }
        assert t != task.target ==> !ListsAny(s, a, t);
      } else {
        NothingGoes(s, r);
        assert !ListsAny(s, a, t);
      }
    }
  }

  lemma PastBoundLists(s: Desk, n: nat, tree: FrameTree, t: Id, matches: Matcher)
    requires CanHappen(s, TreeAnswered(n, Some(tree))) && !s.IsStale(n)
    requires s.tasks[n].sid !in After(s, TreeAnswered(n, Some(tree)), matches).sessions
    ensures var r, task := After(s, TreeAnswered(n, Some(tree)), matches), s.tasks[n];
            && (t == task.target ==>
                  t in r.unreachable && r.unreachable[t] == if tree.url != "" then tree.url else task.url)
            && (t != task.target ==> (t in r.unreachable <==> t in s.unreachable && !Departed(s, r, t)))
            && (t != task.target && t in r.unreachable ==> r.unreachable[t] == s.unreachable[t])
  {
    hide Dropped, Apply, Unlists;
    var r, task := After(s, TreeAnswered(n, Some(tree)), matches), s.tasks[n];
    var spliced := s.(tree := Apply(s.tree, Spliced(tree, task.sid), matches));
    var u := if tree.url != "" then tree.url else task.url;
    var dropped := Dropped(spliced, task.sid, matches);
    DropUnlists(spliced, task.sid, matches);
    assert r == Done(Undone(spliced, task.sid, task.target, task.url, tree, matches), n);
    assert r.unreachable == dropped.unreachable[task.target := task.url][task.target := u];
    assert r.unreachable == dropped.unreachable[task.target := u];
    DropThenLists(spliced, dropped, r, t, task.target, u);
    assert Gone(s, r) == Gone(spliced, r);
    assert Departed(s, r, t) <==> Departed(spliced, r, t);
  }

  // ------------------------------------------------------------------- over a run

  // The run attached the target under this URL, with a supported type.
  ghost predicate Announced(run: seq<Step>, target: Id, url: string) {
    exists i :: 0 <= i < |run| && run[i].TargetAttached? && run[i].supported && run[i].target == target
                && run[i].url == url
  }

  // A session's reply named its document so.
  ghost predicate Replied(run: seq<Step>, url: string) {
    exists i :: 0 <= i < |run| && run[i].TreeAnswered? && run[i].reply.Some? && run[i].reply.value.url == url
  }

  // Every setup task is for a target and a URL the run attached, and every listed
  // target was attached, its URL that of an attach of it or of a tree that was answered.
  ghost predicate Vouched(run: seq<Step>, s: Desk) {
    && (forall n :: n in s.tasks ==> Announced(run, s.tasks[n].target, s.tasks[n].url))
    && (forall t :: t in s.unreachable ==> IsVouched(run, t, s.unreachable[t]))
  }

  ghost predicate IsVouched(run: seq<Step>, t: Id, url: string) {
    Announced(run, t, url) || (url != "" && Replied(run, url) && exists u :: Announced(run, t, u))
  }

  lemma VouchedMore(run: seq<Step>, a: Step, t: Id, url: string)
    ensures Announced(run, t, url) ==> Announced(run + [a], t, url)
    ensures Replied(run, url) ==> Replied(run + [a], url)
    ensures IsVouched(run, t, url) ==> IsVouched(run + [a], t, url)
  {
    assert forall i :: 0 <= i < |run| ==> (run + [a])[i] == run[i];
    if exists u :: Announced(run, t, u) {
      var u :| Announced(run, t, u);
      var i :| 0 <= i < |run| && run[i].TargetAttached? && run[i].supported && run[i].target == t && run[i].url == u;
      assert (run + [a])[i] == run[i];
      assert Announced(run + [a], t, u);
    }
    if Replied(run, url) {
      var i :| 0 <= i < |run| && run[i].TreeAnswered? && run[i].reply.Some? && run[i].reply.value.url == url;
      assert (run + [a])[i] == run[i];
    }
    if Announced(run, t, url) {
      var i :| 0 <= i < |run| && run[i].TargetAttached? && run[i].supported && run[i].target == t && run[i].url == url;
      assert (run + [a])[i] == run[i];
    }
  }

  lemma StepVouches(past: seq<Step>, s: Desk, a: Step, matches: Matcher)
    requires Bounded(s) && Consistent(s.tree) && CanHappen(s, a) && SaneStep(s, a, matches) && Vouched(past, s)
    ensures Vouched(past + [a], After(s, a, matches))
  {
    hide Bounded, Consistent, After, SaneStep, Announced, Replied, IsVouched;
    ConsistentParts(s.tree);
    var r := After(s, a, matches);
    TaskVouched(past, s, a, matches);
    forall t | t in r.unreachable ensures IsVouched(past + [a], t, r.unreachable[t]) {
      StepLists(s, a, t, r.unreachable[t], matches);
      VouchedMore(past, a, t, r.unreachable[t]);
      if Lists(s, a, t, r.unreachable[t]) { ListedVouched(past, s, a, t, r.unreachable[t]); }
    }
  }

  lemma TaskVouched(past: seq<Step>, s: Desk, a: Step, matches: Matcher)
    requires CanHappen(s, a) && Vouched(past, s)
    ensures var r := After(s, a, matches);
            forall n :: n in r.tasks ==> Announced(past + [a], r.tasks[n].target, r.tasks[n].url)
  {
    var r := After(s, a, matches);
    assert (past + [a])[|past|] == a;
    if !a.TargetAttached? {
      StepAddsNothing(s, a, matches);
      hide After, CanHappen;
      forall n | n in r.tasks ensures Announced(past + [a], r.tasks[n].target, r.tasks[n].url) {
        VouchedMore(past, a, s.tasks[n].target, s.tasks[n].url);
      }
    } else {
      forall n | n in s.tasks ensures Announced(past + [a], s.tasks[n].target, s.tasks[n].url) {
        VouchedMore(past, a, s.tasks[n].target, s.tasks[n].url);
      }
    }
  }

  lemma ListedVouched(past: seq<Step>, s: Desk, a: Step, t: Id, url: string)
    requires IsForest(s.tree.frames) && Vouched(past, s) && CanHappen(s, a) && Lists(s, a, t, url)
    ensures IsVouched(past + [a], t, url)
  {
    assert (past + [a])[|past|] == a;
    if a.TargetAttached? {
      assert Announced(past + [a], t, url);
    } else {
      hide CanHappen;
      var task := s.tasks[a.serial];
      VouchedMore(past, a, t, task.url);
      assert Announced(past + [a], t, task.url);
      assert url != task.url ==> url != "" && Replied(past + [a], url);
    }
  }

  lemma FirstMoves(past: seq<Step>, run: seq<Step>)
    requires run != []
    ensures past + [run[0]] + run[1..] == past + run
  {
  }

  lemma {:induction false} RunVouches(past: seq<Step>, s: Desk, run: seq<Step>, matches: Matcher)
    requires Bounded(s) && Consistent(s.tree) && CanRun(s, run, matches) && SaneSteps(s, run, matches)
    requires Vouched(past, s)
    ensures Vouched(past + run, AfterAll(s, run, matches))
    decreases |run|
  {
    if run == [] {
      assert past + run == past;
    } else {
      hide Bounded, Consistent, Vouched, CanHappen, SaneStep, After;
      StepVouches(past, s, run[0], matches);
      StepKeepsBounds(s, run[0], matches);
      StepKeepsOneTree(s, run[0], matches);
      RunVouches(past + [run[0]], After(s, run[0], matches), run[1..], matches);
      FirstMoves(past, run);
    }
  }

  // Over every run whose replies are sane, nothing is listed that was not attached,
  // and nothing under a URL that neither an attach of it nor a reply gave.
  lemma ListedIsAttached(run: seq<Step>, matches: Matcher, t: Id)
    requires CanRun(NO_SESSIONS, run, matches) && SaneSteps(NO_SESSIONS, run, matches)
    ensures var s := AfterAll(NO_SESSIONS, run, matches);
            t in s.unreachable ==>
              && (exists u :: Announced(run, t, u))
              && (Announced(run, t, s.unreachable[t]) || Replied(run, s.unreachable[t]))
  {
    NothingIsRooted();
    RunVouches([], NO_SESSIONS, run, matches);
    assert [] + run == run;
  }
}

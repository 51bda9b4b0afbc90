// Discovery: the browser announces the targets below a session on one ordered
// connection, and the second command of every auto-attach is a barrier behind
// those announcements. Draining the setup tasks therefore covers every depth.
module Discovery {
  import opened Prelude
  import opened Forest
  import opened Surgery
  import opened Frames
  import opened FrameLaws
  import opened Desks
  import opened SessionLaws
  import opened DropLaws

  // The targets of a page that does not change: below each, the supported ones
  // that the browser hosts directly under it.
  datatype Page = Page(top: Id, kids: map<Id, set<Id>>)
  {
    function Below(p: Id): set<Id> {
      if p in kids then kids[p] else {}
    }

    ghost predicate IsNested(u: Id) {
      exists p :: p in kids && u in kids[p]
    }
  }

  // Whose auto-attach a message belongs to: a setup task's, or the page session's.
  type Owner = Option<nat>

  datatype Message = Announce(sid: Sid, target: Id, url: string) | Barrier(owner: Owner)

  // wire is what the browser has sent and the client has not read. handled are the
  // auto-attaches the browser has handled, with their targets; passed those whose
  // barrier has been read; heard the targets announced to the client.
  datatype Net = Net(desk: Desk, wire: seq<Message>, handled: map<Owner, Id>, passed: set<Owner>,
                     heard: set<Id>, given: set<Sid>)

  datatype Move =
    | Inside(step: Step)
    | Open(owner: Owner, batch: seq<Message>)
    | Raise(owner: Owner)
    | Deliver

  // A reply holds a renderer's own frames: of the nested targets, only its own.
  ghost predicate Honest(page: Page, t: FrameTree, target: Id) {
    forall x :: x in Ids(t) && page.IsNested(x) ==> x == target
  }

  function Sids(batch: seq<Message>): set<Sid> {
    set i | 0 <= i < |batch| && batch[i].Announce? :: batch[i].sid
  }

  // The announcements one auto-attach produces: every target below its own, each
  // on a session id never used before.
  ghost predicate Announces(n: Net, page: Page, target: Id, batch: seq<Message>) {
    && (forall i :: 0 <= i < |batch| ==>
          batch[i].Announce? && batch[i].sid != "" && batch[i].sid !in n.given && batch[i].target in page.Below(target))
    && (forall i, j :: 0 <= i < j < |batch| ==> batch[i].sid != batch[j].sid)
    && (forall u :: u in page.Below(target) ==> Announced(batch, u))
  }

  ghost predicate Announced(batch: seq<Message>, u: Id) {
    exists i :: 0 <= i < |batch| && batch[i].Announce? && batch[i].target == u
  }

  ghost predicate Allowed(n: Net, page: Page, m: Move) {
    match m
    case Inside(a) =>
      && CanHappen(n.desk, a) && !a.TargetAttached? && !a.TargetDetached?
      && (a.SetupFinished? ==> Some(a.serial) in n.passed)
      && (a.TreeAnswered? && a.reply.Some? ==> Honest(page, a.reply.value, n.desk.tasks[a.serial].target))
    case Open(None, batch) => None !in n.handled && Announces(n, page, page.top, batch)
    case Open(Some(k), batch) =>
      && Some(k) !in n.handled && k in n.desk.tasks && n.desk.tasks[k].stage == Attaching
      && Announces(n, page, n.desk.tasks[k].target, batch)
    case Raise(owner) => owner in n.handled
    case Deliver => n.wire != []
  }

  ghost function Moved(n: Net, page: Page, m: Move, matches: Matcher): Net
    requires Allowed(n, page, m)
  {
    match m
    case Inside(a) => n.(desk := After(n.desk, a, matches))
    case Open(owner, batch) =>
      var target := if owner.None? then page.top else n.desk.tasks[owner.value].target;
      n.(wire := n.wire + batch, handled := n.handled[owner := target], given := n.given + Sids(batch))
    case Raise(owner) => n.(wire := n.wire + [Barrier(owner)])
    case Deliver =>
      match n.wire[0]
      case Announce(sid, target, url) =>
        n.(wire := n.wire[1..], desk := After(n.desk, TargetAttached(sid, target, url, true), matches),
           heard := n.heard + {target})
      case Barrier(owner) => n.(wire := n.wire[1..], passed := n.passed + {owner})
  }

  ghost predicate AllowedRun(n: Net, page: Page, ms: seq<Move>, matches: Matcher)
    decreases |ms|
  {
    ms != [] ==> Allowed(n, page, ms[0]) && AllowedRun(Moved(n, page, ms[0], matches), page, ms[1..], matches)
  }

  ghost function MovedAll(n: Net, page: Page, ms: seq<Move>, matches: Matcher): Net
    requires AllowedRun(n, page, ms, matches)
    decreases |ms|
  {
    if ms == [] then n else MovedAll(Moved(n, page, ms[0], matches), page, ms[1..], matches)
  }

  // ------------------------------------------------------------- what is kept

  predicate Covered(s: Desk, u: Id) {
    s.HasTarget(u) || u in s.unreachable
  }

  // No session's frames include another nested target's.
  ghost predicate Own(s: Desk, page: Page) {
    && (forall k :: k in s.sessions ==> page.IsNested(s.sessions[k].target))
    && (forall x :: x in s.tree.frames && s.tree.frames[x].data.session.Some? && page.IsNested(x) ==>
          var k := s.tree.frames[x].data.session.value; k in s.sessions && s.sessions[k].target == x)
    && (forall k :: k in s.sessions && s.sessions[k].held.Some? ==>
          Honest(page, s.sessions[k].held.value, s.sessions[k].target))
  }

  // Everything announced by an auto-attach has been heard or is on its way.
  ghost predicate OnTheWay(n: Net, page: Page) {
    forall o :: o in n.handled ==> forall u :: u in page.Below(n.handled[o]) ==> u in n.heard || Announced(n.wire, u)
  }

  // And what a barrier stands behind is ahead of it.
  ghost predicate Ahead(n: Net, page: Page) {
    forall i :: 0 <= i < |n.wire| && n.wire[i].Barrier? ==>
      && n.wire[i].owner in n.handled
      && forall u :: u in page.Below(n.handled[n.wire[i].owner]) ==> u in n.heard || Announced(n.wire[..i], u)
  }

  ghost predicate Heard(n: Net, page: Page) {
    forall o :: o in n.passed ==> o in n.handled && page.Below(n.handled[o]) <= n.heard
  }

  // The wire holds announcements of nested targets, each on a session id of its own.
  ghost predicate Unused(n: Net, page: Page) {
    && Sids(n.wire) <= n.given
    && OwnIds(n.desk, n.given - Sids(n.wire))
    && (forall i :: 0 <= i < |n.wire| && n.wire[i].Announce? ==>
          n.wire[i].sid != "" && page.IsNested(n.wire[i].target))
    && (forall i, j :: 0 <= i < j < |n.wire| && n.wire[i].Announce? && n.wire[j].Announce? ==>
          n.wire[i].sid != n.wire[j].sid)
  }

  ghost predicate Tracked(n: Net) {
    && (forall k: nat :: Some(k) in n.handled ==> k < n.desk.born)
    && (forall k :: k in n.desk.tasks && Some(k) in n.handled ==> n.handled[Some(k)] == n.desk.tasks[k].target)
    && (forall k :: k in n.desk.sessions && n.desk.sessions[k].ready ==>
          var o := Some(n.desk.sessions[k].serial);
          o in n.passed && o in n.handled && n.handled[o] == n.desk.sessions[k].target)
  }

  ghost predicate Sound(n: Net, page: Page) {
    && Bounded(n.desk) && Own(n.desk, page)
    && OnTheWay(n, page) && Ahead(n, page) && Heard(n, page) && Unused(n, page) && Tracked(n)
    && (None in n.handled ==> n.handled[None] == page.top)
    && forall u :: u in n.heard ==> Covered(n.desk, u)
  }

  // ------------------------------------------------ no announced target is lost

  ghost predicate Covers(s: Desk, r: Desk) {
    forall u :: Covered(s, u) ==> Covered(r, u)
  }

  // Where every reply is honest, no session has its own frame answered for by
  // another, so a drop takes that one session only.
  lemma DropsItself(s: Desk, page: Page, sid: Sid, matches: Matcher)
    requires OnePerTarget(s) && Own(s, page) && sid in s.sessions
    ensures Dropped(s, sid, matches) ==
            s.(sessions := s.sessions - {sid}, order := Without(s.order, sid),
               tree := Apply(s.tree, SessionGone(sid), matches),
               unreachable := s.unreachable - {s.sessions[sid].target})
  {
    hide Apply;
    var left := s.(sessions := s.sessions - {sid}, order := Without(s.order, sid),
                   tree := Apply(s.tree, SessionGone(sid), matches));
    forall k | k in left.sessions ensures left.sessions[k].target !in Answering(s.tree.frames, sid) {
      assert page.IsNested(s.sessions[k].target);
    }
    NoOrphans(left, left.order, Answering(s.tree.frames, sid), matches);
  }

  lemma AbandonCovers(s: Desk, page: Page, n: nat, matches: Matcher)
    requires OnePerTarget(s) && Own(s, page) && n in s.tasks
    requires s.tasks[n].sid in s.sessions ==> s.sessions[s.tasks[n].sid].target == s.tasks[n].target
    ensures var r := Abandoned(s, s.tasks[n].sid, s.tasks[n].target, s.tasks[n].url, matches);
            Covers(s, r) && Own(r, page) && s.tasks[n].target in r.unreachable
  {
    hide Apply;
    var sid := s.tasks[n].sid;
    if sid in s.sessions {
      DropsItself(s, page, sid, matches);
      GoneIsUnmarked(s.tree, sid, matches);
      var r := Abandoned(s, sid, s.tasks[n].target, s.tasks[n].url, matches);
      forall u | Covered(s, u) ensures Covered(r, u) {
        if s.HasTarget(u) {
          var k :| k in s.sessions && s.sessions[k].target == u;
          if k != sid { assert k in r.sessions && r.sessions[k].target == u; }
        }
      }
    }
  }

  // A change that leaves every session in place, with its target.
  lemma SameTargets(s: Desk, r: Desk)
    requires s.sessions.Keys <= r.sessions.Keys && s.unreachable.Keys <= r.unreachable.Keys
    requires forall k :: k in s.sessions ==> r.sessions[k].target == s.sessions[k].target
    ensures Covers(s, r)
  {
    forall u | s.HasTarget(u) ensures r.HasTarget(u) {
      var k :| k in s.sessions && s.sessions[k].target == u;
      assert k in r.sessions && r.sessions[k].target == u;
    }
  }

  lemma SplicedOwn(s: Desk, page: Page, sid: Sid, t: FrameTree, matches: Matcher)
    requires Own(s, page) && sid in s.sessions && Honest(page, t, s.sessions[sid].target)
    ensures Own(s.(tree := Apply(s.tree, Spliced(t, sid), matches)), page)
  {
    if CanSplice(s.tree.frames, t) {
      var left := Drop(s.tree.frames, t.Name());
      ParseAdds(left, t, Some(t.parentId.value), Some(sid));
      var r := Splice(s.tree.frames, t, sid);
      forall x | x in r && r[x].data.session.Some? && page.IsNested(x)
        ensures var k := r[x].data.session.value; k in s.sessions && s.sessions[k].target == x
      {
        SplicedData(s.tree.frames, t, sid, x);
      }
    }
  }

  // Each frame after a splice is one of the tree's, or has the data it had.
  lemma SplicedData(m: FrameMap, t: FrameTree, sid: Sid, x: Id)
    requires CanSplice(m, t) && x in Splice(m, t, sid)
    ensures (x in Ids(t) && Splice(m, t, sid)[x].data.session == Some(sid))
            || (x !in Ids(t) && x in m && Splice(m, t, sid)[x].data == m[x].data)
  {
    var left := Drop(m, t.Name());
    DropData(m, t.Name());
    ParseAdds(left, t, t.parentId, Some(sid));
    ParsedByMark(t, t.parentId, Some(sid));
    hide Drop, Ids, Parse;
  }

  lemma DropData(m: FrameMap, x: Id)
    ensures forall y :: y in Drop(m, x) ==> y in m && Drop(m, x)[y].data == m[y].data
  {
  }

  lemma ParsedByMark(t: FrameTree, parent: Option<Id>, mark: Option<Sid>)
    ensures forall x :: x in Parse(map[], t, parent, mark) ==> Parse(map[], t, parent, mark)[x].data.session == mark
  {
    ParsedAll(map[], t, parent, mark);
  }

  lemma {:induction false} ParsedAll(m: FrameMap, t: FrameTree, parent: Option<Id>, mark: Option<Sid>)
    requires forall x :: x in m ==> m[x].data.session == mark
    ensures forall x :: x in Parse(m, t, parent, mark) ==> Parse(m, t, parent, mark)[x].data.session == mark
    decreases t, 1
  {
    if t.Name() != "" {
      RowAll(m[t.Name() := Node(parent, KidNames(t.childFrames), Frame(t.url, t.loader, mark, None))],
             t.childFrames, t.Name(), mark);
    }
  }

  lemma {:induction false} RowAll(m: FrameMap, ts: seq<FrameTree>, parent: Id, mark: Option<Sid>)
    requires forall x :: x in m ==> m[x].data.session == mark
    ensures forall x :: x in ParseRow(m, ts, parent, mark) ==> ParseRow(m, ts, parent, mark)[x].data.session == mark
    decreases ts, 0
  {
    if ts != [] {
      ParsedAll(m, ts[0], Some(parent), mark);
      RowAll(Parse(m, ts[0], Some(parent), mark), ts[1..], parent, mark);
    }
  }

  lemma {:induction false} PassOwn(s: Desk, page: Page, todo: seq<Sid>, matches: Matcher)
    requires Own(s, page)
    ensures Own(Pass(s, todo, matches), page) && Covers(s, Pass(s, todo, matches))
    decreases |todo|
  {
    if todo != [] {
      hide Own, CanSplice, Apply, Covered;
      var k := todo[0];
      if Tried(s, k, matches) != s {
        HeldHonest(s, page, k);
        SplicedOwn(s, page, k, s.sessions[k].held.value, matches);
        EmptiedOwn(s.(tree := Apply(s.tree, Spliced(s.sessions[k].held.value, k), matches)), page, k);
        SameTargets(s, Tried(s, k, matches));
      }
      PassOwn(Tried(s, k, matches), page, todo[1..], matches);
    }
  }

  lemma HeldHonest(s: Desk, page: Page, k: Sid)
    requires Own(s, page) && k in s.sessions && s.sessions[k].held.Some?
    ensures Honest(page, s.sessions[k].held.value, s.sessions[k].target)
  {
  }

  lemma EmptiedOwn(s: Desk, page: Page, k: Sid)
    requires Own(s, page) && k in s.sessions
    ensures Own(Hold(s, k, None), page)
  {
  }

  lemma {:induction false} RespliceOwn(s: Desk, page: Page, matches: Matcher)
    requires Own(s, page)
    ensures Own(Respliced(s, matches), page) && Covers(s, Respliced(s, matches))
    decreases Holding(s)
  {
    hide Own, Pass, Covered;
    PassOwn(s, page, s.order, matches);
    if Pass(s, s.order, matches) != s {
      RespliceOwn(Pass(s, s.order, matches), page, matches);
    }
  }

  lemma HeldOwn(s: Desk, page: Page, n: nat, t: FrameTree)
    requires Own(s, page) && n in s.tasks && !s.IsStale(n) && Honest(page, t, s.sessions[s.tasks[n].sid].target)
    ensures var r := At(Hold(s, s.tasks[n].sid, Some(t)), n, Enabling); Own(r, page) && Covers(s, r)
  {
    hide Honest;
    SameTargets(s, At(Hold(s, s.tasks[n].sid, Some(t)), n, Enabling));
  }

  lemma UndoneOwn(s: Desk, page: Page, n: nat, t: FrameTree, matches: Matcher)
    requires OnePerTarget(s) && Own(s, page) && n in s.tasks
    requires s.tasks[n].sid in s.sessions ==> s.sessions[s.tasks[n].sid].target == s.tasks[n].target
    ensures var task := s.tasks[n];
            var r := Done(Undone(s, task.sid, task.target, task.url, t, matches), n);
            Own(r, page) && Covers(s, r)
  {
    hide Abandoned;
    var task := s.tasks[n];
    AbandonCovers(s, page, n, matches);
    SameTargets(Abandoned(s, task.sid, task.target, task.url, matches),
                Done(Undone(s, task.sid, task.target, task.url, t, matches), n));
  }

  lemma InstallOwn(s: Desk, page: Page, n: nat, t: FrameTree, matches: Matcher)
    requires Bounded(s) && Own(s, page) && n in s.tasks && !s.IsStale(n) && Honest(page, t, s.tasks[n].target)
    ensures Own(Installed(s, n, t, matches), page) && Covers(s, Installed(s, n, t, matches))
  {
    hide Apply, CanSplice, DepthWalk, Running, Undone, Honest;
    var task := s.tasks[n];
    var r := Installed(s, n, t, matches);
    if !CanSplice(s.tree.frames, t) {
      HeldOwn(s, page, n, t);
    } else {
      var spliced := s.(tree := Apply(s.tree, Spliced(t, task.sid), matches));
      SplicedOwn(s, page, task.sid, t, matches);
      SameTargets(s, spliced);
      if DepthWalk(spliced.tree.frames, t.Name(), {}) > MAX_DEPTH {
        UndoneOwn(spliced, page, n, t, matches);
      }
    }
  }

  lemma PageOwn(s: Desk, page: Page, e: Event, matches: Matcher)
    requires Own(s, page) && !e.Spliced?
    ensures Own(s.(tree := Apply(s.tree, e, matches)), page)
  {
    hide Apply;
    EventMarks(s.tree, e, matches);
  }

  // A setup task's session id, if still in use, is in use by its own session.
  lemma OwnTarget(s: Desk, seen: set<Sid>, n: nat)
    requires Bounded(s) && OwnIds(s, seen) && n in s.tasks
    ensures s.tasks[n].sid in s.sessions ==> s.sessions[s.tasks[n].sid].target == s.tasks[n].target
  {
    assert s.tasks[n].sid in s.sessions ==> !s.IsStale(n);
  }

  lemma InsideCovers(s: Desk, page: Page, seen: set<Sid>, a: Step, matches: Matcher)
    requires Bounded(s) && Own(s, page) && OwnIds(s, seen)
    requires CanHappen(s, a) && !a.TargetAttached? && !a.TargetDetached?
    requires a.TreeAnswered? && a.reply.Some? ==> Honest(page, a.reply.value, s.tasks[a.serial].target)
    ensures Own(After(s, a, matches), page) && Covers(s, After(s, a, matches))
  {
    hide Bounded, Apply, Respliced, Installed, Abandoned, OwnIds, Running;
    match a
    case PageEvent(e) => PageOwn(s, page, e, matches);
    case TreeAnswered(n, reply) =>
      if !s.IsStale(n) && reply.Some? { InstallOwn(s, page, n, reply.value, matches); }
    case SetupFailed(n) =>
      OwnTarget(s, seen, n);
      BoundedOne(s);
      AbandonCovers(s, page, n, matches);
    case SetupFinished(n) => SameTargets(s, After(s, a, matches));
    case Resplice => RespliceOwn(s, page, matches);
    case _ =>
  }

  lemma BoundedOne(s: Desk)
    requires Bounded(s)
    ensures OnePerTarget(s)
  {
  }

  lemma AttachCovers(s: Desk, page: Page, sid: Sid, target: Id, url: string)
    requires Own(s, page) && page.IsNested(target) && sid != "" && target != "" && sid !in s.sessions && MarksLive(s)
    ensures var r := Admitted(s, sid, target, url);
            Own(r, page) && Covers(s, r) && Covered(r, target)
  {
    var r := Admitted(s, sid, target, url);
    SameTargets(s, r);
    if !s.HasTarget(target) && |s.sessions| < MAX_SESSIONS {
      assert sid in r.sessions && r.sessions[sid].target == target;
    }
  }

  // ------------------------------------------------------------- every move

  lemma InsideSound(n: Net, page: Page, a: Step, matches: Matcher)
    requires Sound(n, page) && Allowed(n, page, Inside(a))
    ensures Sound(Moved(n, page, Inside(a), matches), page)
  {
    hide After, Bounded, Own, OnTheWay, Ahead, Heard, Covered, Running, CanHappen, OwnIds, Honest;
    var r := Moved(n, page, Inside(a), matches);
    StepKeepsBounds(n.desk, a, matches);
    InsideCovers(n.desk, page, n.given - Sids(n.wire), a, matches);
    BoundedTended(n.desk);
    StepOwnsIds(n.desk, a, n.given - Sids(n.wire), matches);
    assert n.given - Sids(n.wire) + {} == n.given - Sids(n.wire);
    assert Unused(r, page);
    InsideTracked(n, page, a, matches);
    assert OnTheWay(r, page) && Ahead(r, page) && Heard(r, page) by {
      SameWire(n, r, page);
    }
  }

  lemma SameWire(n: Net, r: Net, page: Page)
    requires r.wire == n.wire && r.handled == n.handled && r.passed == n.passed && r.heard == n.heard
    ensures OnTheWay(n, page) ==> OnTheWay(r, page)
    ensures Ahead(n, page) ==> Ahead(r, page)
    ensures Heard(n, page) ==> Heard(r, page)
  {
  }

  lemma InsideTracked(n: Net, page: Page, a: Step, matches: Matcher)
    requires Tracked(n) && Tended(n.desk) && Heard(n, page) && Allowed(n, page, Inside(a))
    ensures Tracked(n.(desk := After(n.desk, a, matches)))
  {
    StepAddsNothing(n.desk, a, matches);
    if a.SetupFinished? {
      FinishedTracked(n, page, a.serial, matches);
    } else {
      hide After;
    }
  }

  lemma FinishedTracked(n: Net, page: Page, k: nat, matches: Matcher)
    requires Tracked(n) && Tended(n.desk) && Heard(n, page) && Allowed(n, page, Inside(SetupFinished(k)))
    ensures Tracked(n.(desk := After(n.desk, SetupFinished(k), matches)))
  {
    var s := n.desk;
    var r := After(s, SetupFinished(k), matches);
    forall j | j in r.sessions && r.sessions[j].ready
      ensures var o := Some(r.sessions[j].serial);
              o in n.passed && o in n.handled && n.handled[o] == r.sessions[j].target
    {
      if !s.IsStale(k) && j == s.tasks[k].sid {
        assert n.handled[Some(k)] == s.tasks[k].target;
      }
    }
  }

  lemma AnnouncedMore(a: seq<Message>, b: seq<Message>, u: Id)
    ensures Announced(a, u) || Announced(b, u) ==> Announced(a + b, u)
  {
    if Announced(a, u) {
      var i :| 0 <= i < |a| && a[i].Announce? && a[i].target == u;
      assert (a + b)[i] == a[i];
    }
    if Announced(b, u) {
      var i :| 0 <= i < |b| && b[i].Announce? && b[i].target == u;
      assert (a + b)[|a| + i] == b[i];
    }
  }

  lemma SidsConcat(a: seq<Message>, b: seq<Message>)
    ensures Sids(a + b) == Sids(a) + Sids(b)
  {
    forall x | x in Sids(a) + Sids(b) ensures x in Sids(a + b) {
      if x in Sids(a) {
        var i :| 0 <= i < |a| && a[i].Announce? && a[i].sid == x;
        assert (a + b)[i] == a[i];
      } else {
        var i :| 0 <= i < |b| && b[i].Announce? && b[i].sid == x;
        assert (a + b)[|a| + i] == b[i];
      }
    }
  }

  lemma BelowIsNested(page: Page, p: Id, u: Id)
    requires u in page.Below(p)
    ensures page.IsNested(u)
  {
    assert p in page.kids;
  }

  // A batch by itself: nested targets on ids that are new and all different.
  lemma BatchUnused(n: Net, page: Page, target: Id, batch: seq<Message>)
    requires Announces(n, page, target, batch)
    ensures Sids(batch) !! n.given
    ensures forall i :: 0 <= i < |batch| ==> batch[i].Announce? && batch[i].sid != "" && page.IsNested(batch[i].target)
    ensures forall i :: 0 <= i < |batch| ==> batch[i].sid !in n.given
    ensures forall i, j :: 0 <= i < j < |batch| ==> batch[i].sid != batch[j].sid
  {
    forall i | 0 <= i < |batch| ensures page.IsNested(batch[i].target) {
      BelowIsNested(page, target, batch[i].target);
    }
  }

  lemma WireMore(wire: seq<Message>, batch: seq<Message>, given: set<Sid>, page: Page)
    requires Sids(wire) <= given
    requires forall i :: 0 <= i < |wire| && wire[i].Announce? ==> wire[i].sid != "" && page.IsNested(wire[i].target)
    requires forall i, j :: 0 <= i < j < |wire| && wire[i].Announce? && wire[j].Announce? ==> wire[i].sid != wire[j].sid
    requires forall i :: 0 <= i < |batch| ==> batch[i].Announce? && batch[i].sid != "" && page.IsNested(batch[i].target)
    requires forall i :: 0 <= i < |batch| ==> batch[i].sid !in given
    requires forall i, j :: 0 <= i < j < |batch| ==> batch[i].sid != batch[j].sid
    ensures var r := wire + batch;
            && (forall i :: 0 <= i < |r| && r[i].Announce? ==> r[i].sid != "" && page.IsNested(r[i].target))
            && (forall i, j :: 0 <= i < j < |r| && r[i].Announce? && r[j].Announce? ==> r[i].sid != r[j].sid)
  {
    hide Page.IsNested;
    var r := wire + batch;
    forall i, j | 0 <= i < j < |r| && r[i].Announce? && r[j].Announce? ensures r[i].sid != r[j].sid {
      if i < |wire| <= j {
        assert wire[i].sid in Sids(wire);
        assert r[j] == batch[j - |wire|];
      }
    }
  }

  lemma OpenUnused(n: Net, page: Page, owner: Owner, batch: seq<Message>, matches: Matcher)
    requires Unused(n, page) && Allowed(n, page, Open(owner, batch))
    ensures Unused(Moved(n, page, Open(owner, batch), matches), page)
  {
    var r := Moved(n, page, Open(owner, batch), matches);
    BatchUnused(n, page, if owner.None? then page.top else n.desk.tasks[owner.value].target, batch);
    WireMore(n.wire, batch, n.given, page);
    hide OwnIds, Page.IsNested, Sids, Announces;
    SidsConcat(n.wire, batch);
    assert r.given - Sids(r.wire) == n.given - Sids(n.wire);
  }

  lemma OpenAhead(n: Net, page: Page, owner: Owner, batch: seq<Message>, matches: Matcher)
    requires Ahead(n, page) && Allowed(n, page, Open(owner, batch))
    ensures Ahead(Moved(n, page, Open(owner, batch), matches), page)
  {
    var r := Moved(n, page, Open(owner, batch), matches);
    assert forall i :: |n.wire| <= i < |r.wire| ==> r.wire[i] == batch[i - |n.wire|];
    forall i | 0 <= i < |r.wire| && r.wire[i].Barrier?
      ensures r.wire[i].owner in r.handled
      ensures forall u :: u in page.Below(r.handled[r.wire[i].owner]) ==> u in r.heard || Announced(r.wire[..i], u)
    {
      assert i < |n.wire|;
      assert r.wire[..i] == n.wire[..i];
      assert r.wire[i] == n.wire[i];
    }
  }

  lemma OpenOnTheWay(n: Net, page: Page, owner: Owner, batch: seq<Message>, matches: Matcher)
    requires OnTheWay(n, page) && Allowed(n, page, Open(owner, batch))
    ensures OnTheWay(Moved(n, page, Open(owner, batch), matches), page)
  {
    var r := Moved(n, page, Open(owner, batch), matches);
    forall o, u | o in r.handled && u in page.Below(r.handled[o]) ensures u in r.heard || Announced(r.wire, u) {
      AnnouncedMore(n.wire, batch, u);
    }
  }

  lemma OpenSound(n: Net, page: Page, owner: Owner, batch: seq<Message>, matches: Matcher)
    requires Sound(n, page) && Allowed(n, page, Open(owner, batch))
    ensures Sound(Moved(n, page, Open(owner, batch), matches), page)
  {
    hide Bounded, Own, OnTheWay, Ahead, Unused, Covered, Announces;
    OpenUnused(n, page, owner, batch, matches);
    OpenAhead(n, page, owner, batch, matches);
    OpenOnTheWay(n, page, owner, batch, matches);
    BoundedTended(n.desk);
  }

  lemma RaiseSound(n: Net, page: Page, owner: Owner, matches: Matcher)
    requires Sound(n, page) && Allowed(n, page, Raise(owner))
    ensures Sound(Moved(n, page, Raise(owner), matches), page)
  {
    hide Bounded, Own, Covered, OwnIds, OnTheWay, Ahead, Unused;
    RaiseUnused(n, page, owner, matches);
    RaiseOrdered(n, page, owner, matches);
  }

  lemma RaiseUnused(n: Net, page: Page, owner: Owner, matches: Matcher)
    requires Unused(n, page) && Allowed(n, page, Raise(owner))
    ensures Unused(Moved(n, page, Raise(owner), matches), page)
  {
    hide OwnIds;
    SidsConcat(n.wire, [Barrier(owner)]);
    assert Sids([Barrier(owner)]) == {};
    assert Sids(n.wire) + {} == Sids(n.wire);
  }

  lemma RaiseOrdered(n: Net, page: Page, owner: Owner, matches: Matcher)
    requires OnTheWay(n, page) && Ahead(n, page) && Allowed(n, page, Raise(owner))
    ensures OnTheWay(Moved(n, page, Raise(owner), matches), page)
    ensures Ahead(Moved(n, page, Raise(owner), matches), page)
  {
    var r := Moved(n, page, Raise(owner), matches);
    forall o, u | o in r.handled && u in page.Below(r.handled[o]) ensures u in r.heard || Announced(r.wire, u) {
      AnnouncedMore(n.wire, [Barrier(owner)], u);
    }
    forall i | 0 <= i < |r.wire| && r.wire[i].Barrier?
      ensures r.wire[i].owner in r.handled
      ensures forall u :: u in page.Below(r.handled[r.wire[i].owner]) ==> u in r.heard || Announced(r.wire[..i], u)
    {
      assert r.wire[..i] == n.wire[..i];
      if i == |n.wire| {
        assert n.wire[..i] == n.wire;
      }
    }
  }

  // ------------------------------------------------------------- a delivery

  lemma AnnouncedRest(wire: seq<Message>, u: Id)
    requires wire != [] && Announced(wire, u)
    ensures Announced(wire[1..], u) || (wire[0].Announce? && wire[0].target == u)
  {
    var i :| 0 <= i < |wire| && wire[i].Announce? && wire[i].target == u;
    if i > 0 {
      assert wire[1..][i - 1] == wire[i];
    }
  }

  lemma DeliverOrdered(n: Net, page: Page, matches: Matcher)
    requires OnTheWay(n, page) && Ahead(n, page) && Heard(n, page) && n.wire != []
    ensures var r := Moved(n, page, Deliver, matches); OnTheWay(r, page) && Ahead(r, page) && Heard(r, page)
  {
    hide After;
    var r := Moved(n, page, Deliver, matches);
    forall o, u | o in r.handled && u in page.Below(r.handled[o]) ensures u in r.heard || Announced(r.wire, u) {
      if u !in n.heard { AnnouncedRest(n.wire, u); }
    }
    forall i | 0 <= i < |r.wire| && r.wire[i].Barrier?
      ensures r.wire[i].owner in r.handled
      ensures forall u :: u in page.Below(r.handled[r.wire[i].owner]) ==> u in r.heard || Announced(r.wire[..i], u)
    {
      assert r.wire[i] == n.wire[i + 1];
      forall u | u in page.Below(r.handled[r.wire[i].owner]) ensures u in r.heard || Announced(r.wire[..i], u) {
        assert n.wire[..i + 1][1..] == r.wire[..i] && n.wire[..i + 1][0] == n.wire[0];
        if u !in n.heard { AnnouncedRest(n.wire[..i + 1], u); }
      }
    }
    if n.wire[0].Barrier? {
      forall u | u in page.Below(n.handled[n.wire[0].owner]) ensures u in n.heard {
        assert n.wire[..0] == [];
        assert !Announced([], u);
      }
    }
  }

  lemma SidsRest(wire: seq<Message>)
    requires wire != []
    requires forall i, j :: 0 <= i < j < |wire| && wire[i].Announce? && wire[j].Announce? ==> wire[i].sid != wire[j].sid
    ensures Sids(wire[1..]) == Sids(wire) - if wire[0].Announce? then {wire[0].sid} else {}
  {
    SidsConcat([wire[0]], wire[1..]);
    assert [wire[0]] + wire[1..] == wire;
    assert Sids([wire[0]]) == if wire[0].Announce? then {wire[0].sid} else {} by {
      assert [wire[0]][0] == wire[0];
    }
    forall i | 0 <= i < |wire[1..]| && wire[1..][i].Announce? && wire[0].Announce?
      ensures wire[1..][i].sid != wire[0].sid
    {
      assert wire[1..][i] == wire[i + 1];
    }
  }

  lemma DeliverUnused(n: Net, page: Page, matches: Matcher)
    requires Unused(n, page) && n.wire != [] && Tended(n.desk)
    ensures Unused(Moved(n, page, Deliver, matches), page)
  {
    hide After, OwnIds;
    var r := Moved(n, page, Deliver, matches);
    var seen := n.given - Sids(n.wire);
    SidsRest(n.wire);
    assert forall i :: 0 <= i < |r.wire| ==> r.wire[i] == n.wire[i + 1];
    if n.wire[0].Announce? {
      var sid := n.wire[0].sid;
      assert sid in Sids(n.wire);
      assert r.given - Sids(r.wire) == seen + {sid};
      StepOwnsIds(n.desk, TargetAttached(sid, n.wire[0].target, n.wire[0].url, true), seen, matches);
    } else {
      assert r.given - Sids(r.wire) == seen;
    }
  }

  lemma NewTracked(n: Net, sid: Sid, target: Id, url: string)
    requires Tracked(n) && Tended(n.desk)
    ensures Tracked(n.(desk := Admitted(n.desk, sid, target, url)))
  {
    assert Some(n.desk.born) !in n.handled;
  }

  lemma AnnounceSound(n: Net, page: Page, matches: Matcher)
    requires Sound(n, page) && !page.IsNested("") && n.wire != [] && n.wire[0].Announce?
    ensures Sound(Moved(n, page, Deliver, matches), page)
  {
    hide Bounded, Own, OnTheWay, Ahead, Heard, Unused, Tracked, Covered, Admitted;
    var r := Moved(n, page, Deliver, matches);
    var m := n.wire[0];
    DeliverOrdered(n, page, matches);
    BoundedTended(n.desk);
    DeliverUnused(n, page, matches);
    StepKeepsBounds(n.desk, TargetAttached(m.sid, m.target, m.url, true), matches);
    NewTracked(n, m.sid, m.target, m.url);
    TrackedAlike(n.(desk := Admitted(n.desk, m.sid, m.target, m.url)), r);
    HeadUnused(n, page);
    AttachCovers(n.desk, page, m.sid, m.target, m.url);
  }

  lemma TrackedAlike(n: Net, r: Net)
    requires Tracked(n) && r.desk == n.desk && r.handled == n.handled && n.passed <= r.passed
    ensures Tracked(r)
  {
  }

  lemma HeadUnused(n: Net, page: Page)
    requires Unused(n, page) && Bounded(n.desk) && n.wire != [] && n.wire[0].Announce?
    ensures n.wire[0].sid !in n.desk.sessions && n.wire[0].sid != "" && page.IsNested(n.wire[0].target)
    ensures MarksLive(n.desk)
  {
    assert n.wire[0].sid in Sids(n.wire);
  }

  lemma BarrierSound(n: Net, page: Page, matches: Matcher)
    requires Sound(n, page) && n.wire != [] && n.wire[0].Barrier?
    ensures Sound(Moved(n, page, Deliver, matches), page)
  {
    hide Bounded, Own, OnTheWay, Ahead, Heard, Unused, Tracked, Covered;
    DeliverOrdered(n, page, matches);
    BoundedTended(n.desk);
    DeliverUnused(n, page, matches);
    TrackedAlike(n, Moved(n, page, Deliver, matches));
  }

  lemma MoveSound(n: Net, page: Page, m: Move, matches: Matcher)
    requires Sound(n, page) && !page.IsNested("") && Allowed(n, page, m)
    ensures Sound(Moved(n, page, m, matches), page)
  {
    match m
    case Inside(a) => InsideSound(n, page, a, matches);
    case Open(owner, batch) => OpenSound(n, page, owner, batch, matches);
    case Raise(owner) => RaiseSound(n, page, owner, matches);
    case Deliver => if n.wire[0].Announce? { AnnounceSound(n, page, matches); } else { BarrierSound(n, page, matches); }
  }

  lemma {:induction false} RunSound(n: Net, page: Page, ms: seq<Move>, matches: Matcher)
    requires Sound(n, page) && !page.IsNested("") && AllowedRun(n, page, ms, matches)
    ensures Sound(MovedAll(n, page, ms, matches), page)
    decreases |ms|
  {
    if ms != [] {
      hide Sound, Moved, Allowed;
      MoveSound(n, page, ms[0], matches);
      RunSound(Moved(n, page, ms[0], matches), page, ms[1..], matches);
    }
  }

  // ------------------------------------------------------------- what settles

  ghost const SILENCE: Net := Net(NO_SESSIONS, [], map[], {}, {}, {})

  // When the page session's barrier has been read and no setup task is left,
  // every target below the page or below a target with a session has a session or
  // is listed as unreachable.
  lemma SettledCoversEveryDepth(page: Page, ms: seq<Move>, p: Id, u: Id, matches: Matcher)
    requires !page.IsNested("") && AllowedRun(SILENCE, page, ms, matches)
    requires var n := MovedAll(SILENCE, page, ms, matches);
             None in n.passed && n.desk.tasks == map[] && (p == page.top || n.desk.HasTarget(p))
    requires u in page.Below(p)
    ensures Covered(MovedAll(SILENCE, page, ms, matches).desk, u)
  {
    var n := MovedAll(SILENCE, page, ms, matches);
    SilenceSound(page);
    RunSound(SILENCE, page, ms, matches);
    hide MovedAll, AllowedRun;
    if p == page.top {
      assert page.Below(n.handled[None]) <= n.heard;
    } else {
      var k :| k in n.desk.sessions && n.desk.sessions[k].target == p;
      BoundedTended(n.desk);
      assert n.desk.sessions[k].ready;
      assert page.Below(n.handled[Some(n.desk.sessions[k].serial)]) <= n.heard;
    }
  }

  lemma SilenceSound(page: Page)
    requires !page.IsNested("")
    ensures Sound(SILENCE, page)
  {
  }

  lemma ByCover(s: Desk, u: Id)
    ensures Covered(s, u) <==> s.HasTarget(u) || u in s.unreachable
  {
  }

  // path leads from the page down, one hosting target at a time.
  ghost predicate IsPath(page: Page, path: seq<Id>) {
    && |path| > 0 && path[0] == page.top
    && forall i :: 0 < i < |path| ==> path[i] in page.Below(path[i - 1])
  }

  // So nothing vanishes: on the way down to any target, however deep, either every
  // target has a session or the first that has none is listed.
  lemma {:induction false} NothingVanishes(page: Page, ms: seq<Move>, path: seq<Id>, matches: Matcher) returns (i: nat)
    requires !page.IsNested("") && AllowedRun(SILENCE, page, ms, matches) && IsPath(page, path)
    requires var n := MovedAll(SILENCE, page, ms, matches); None in n.passed && n.desk.tasks == map[]
    ensures var s := MovedAll(SILENCE, page, ms, matches).desk;
            && 0 < i <= |path|
            && (forall j :: 0 < j < i ==> s.HasTarget(path[j]))
            && (i < |path| ==> path[i] in s.unreachable)
    decreases |path|
  {
    hide MovedAll, AllowedRun, Covered;
    var s := MovedAll(SILENCE, page, ms, matches).desk;
    if |path| == 1 {
      i := 1;
    } else {
      var up := path[..|path| - 1];
      i := NothingVanishes(page, ms, up, matches);
      if i == |up| {
        SettledCoversEveryDepth(page, ms, path[|up| - 1], path[|up|], matches);
        assert s.HasTarget(path[|up|]) || path[|up|] in s.unreachable by { ByCover(s, path[|up|]); }
        if s.HasTarget(path[|up|]) {
          i := |path|;
        }
      }
    }
  }
}

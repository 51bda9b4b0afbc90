// Which sessions and which frames go when one session goes.
module DropLaws {
  import opened Prelude
  import opened Forest
  import opened Surgery
  import opened Frames
  import opened FrameLaws
  import opened Desks
  import opened SessionLaws

  // The frames of m that one of the sessions in gone answers for.
  ghost function AnsweredByAny(m: FrameMap, gone: set<Sid>): set<Id> {
    set x | x in m && m[x].data.session.Some? && m[x].data.session.value in gone
  }

  ghost predicate Goes(m: FrameMap, x: Id, gone: set<Sid>) {
    x in AnsweredByAny(m, gone) || BelowAny(m, x, AnsweredByAny(m, gone))
  }

  // r is s without the sessions in gone, the frames they answer for and all below.
  ghost predicate Left(s: Desk, r: Desk, gone: set<Sid>) {
    && gone <= s.sessions.Keys
    && r.sessions.Keys == s.sessions.Keys - gone
    && (forall k :: k in r.sessions ==> r.sessions[k] == s.sessions[k])
    && (forall x :: x in r.tree.frames <==> x in s.tree.frames && !Goes(s.tree.frames, x, gone))
    && (forall x :: x in r.tree.frames ==>
          r.tree.frames[x].parent == s.tree.frames[x].parent && r.tree.frames[x].data == s.tree.frames[x].data)
  }

  lemma LeftNothing(s: Desk)
    ensures Left(s, s, {})
  {
    assert AnsweredByAny(s.tree.frames, {}) == {};
  }

  // Climbing among the frames that stay leads where it led before.
  lemma {:induction false} ClimbAmongLeft(m: FrameMap, r: FrameMap, x: Id, n: nat)
    requires x in r && r.Keys <= m.Keys
    requires forall y :: y in r ==> r[y].parent == m[y].parent
    requires forall y :: y in r && r[y].parent.Some? && r[y].parent.value in m ==> r[y].parent.value in r
    ensures Climb(r, x, n) == Climb(m, x, n)
    decreases n
  {
    if n > 0 && r[x].parent.Some? && r[x].parent.value in r {
      ClimbAmongLeft(m, r, r[x].parent.value, n - 1);
    }
  }

  lemma BelowAmongLeft(m: FrameMap, r: FrameMap, x: Id, a: Id)
    requires x in r && r.Keys <= m.Keys
    requires forall y :: y in r ==> r[y].parent == m[y].parent
    requires forall y :: y in r && r[y].parent.Some? && r[y].parent.value in m ==> r[y].parent.value in r
    ensures Below(r, x, a) <==> Below(m, x, a)
  {
    if r[x].parent.Some? {
      var p := r[x].parent.value;
      forall n: nat ensures Climb(r, p, n) == Climb(m, p, n) {
        ClimbAmongLeft(m, r, x, n + 1);
        assert Climb(r, x, n + 1) == Climb(r, p, n);
        assert Climb(m, x, n + 1) == Climb(m, p, n);
      }
      if AtOrBelow(r, p, a) {
        var n: nat :| Climb(r, p, n) == Some(a);
        assert Climb(m, p, n) == Some(a);
      }
      if AtOrBelow(m, p, a) {
        var n: nat :| Climb(m, p, n) == Some(a);
        assert Climb(r, p, n) == Some(a);
      }
    }
  }

  // A frame whose parent goes, goes.
  lemma GoesDown(m: FrameMap, y: Id, gone: set<Sid>)
    requires y in m && m[y].parent.Some? && Goes(m, m[y].parent.value, gone)
    ensures Goes(m, y, gone)
  {
    var p, all := m[y].parent.value, AnsweredByAny(m, gone);
    var a := p;
    if p !in all {
      a :| a in all && Below(m, p, a);
    }
    AtOrBelowStep(m, p, a);
    assert Below(m, y, a);
  }

  lemma LeftTwice(s: Desk, m: Desk, r: Desk, a: set<Sid>, b: set<Sid>)
    requires Left(s, m, a) && Left(m, r, b)
    ensures Left(s, r, a + b)
  {
    var f, g := s.tree.frames, m.tree.frames;
    forall y | y in g && g[y].parent.Some? && g[y].parent.value in f ensures g[y].parent.value in g {
      if Goes(f, g[y].parent.value, a) { GoesDown(f, y, a); }
    }
    forall x | x in f ensures Goes(f, x, a + b) <==> Goes(f, x, a) || (x in g && Goes(g, x, b)) {
      GoesTwice(f, g, x, a, b);
    }
  }

  lemma GoesTwice(f: FrameMap, g: FrameMap, x: Id, a: set<Sid>, b: set<Sid>)
    requires x in f && g.Keys <= f.Keys
    requires forall y :: y in g <==> y in f && !Goes(f, y, a)
    requires forall y :: y in g ==> g[y].parent == f[y].parent && g[y].data == f[y].data
    requires forall y :: y in g && g[y].parent.Some? && g[y].parent.value in f ==> g[y].parent.value in g
    ensures Goes(f, x, a + b) <==> Goes(f, x, a) || (x in g && Goes(g, x, b))
  {
    var both := AnsweredByAny(f, a + b);
    assert AnsweredByAny(f, a) <= both && AnsweredByAny(g, b) <= both;
    if x in g {
      forall z ensures Below(g, x, z) <==> Below(f, x, z) {
        BelowAmongLeft(f, g, x, z);
      }
      if BelowAny(f, x, both) {
        var z :| z in both && Below(f, x, z);
        if z !in AnsweredByAny(f, a) && z !in g {
          BelowGoes(f, x, z, a);
        }
      }
    }
  }

  // What is below a frame that goes, goes.
  lemma BelowGoes(f: FrameMap, x: Id, z: Id, a: set<Sid>)
    requires Below(f, x, z) && z in f && Goes(f, z, a)
    ensures Goes(f, x, a)
  {
    if z !in AnsweredByAny(f, a) {
      var w :| w in AnsweredByAny(f, a) && Below(f, z, w);
      AtOrBelowStep(f, z, w);
      AtOrBelowTrans(f, f[x].parent.value, z, w);
      assert Below(f, x, w);
    }
  }

  lemma LeftFirst(s: Desk, sid: Sid, matches: Matcher)
    requires sid in s.sessions
    ensures Left(s, s.(sessions := s.sessions - {sid}, order := Without(s.order, sid),
                       tree := Apply(s.tree, SessionGone(sid), matches)), {sid})
    ensures Answering(s.tree.frames, sid) !! Apply(s.tree, SessionGone(sid), matches).frames.Keys
  {
    hide Apply, DropAll, Goes, Answering, Without;
    GoneFrames(s.tree, sid, matches);
    DropAllGoes(s.tree.frames, sid);
  }

  lemma DropAllGoes(m: FrameMap, sid: Sid)
    ensures var r := DropAll(m, Answering(m, sid));
            && (forall x :: x in r <==> x in m && !Goes(m, x, {sid}))
            && (forall x :: x in r ==> r[x].parent == m[x].parent && r[x].data == m[x].data)
            && Answering(m, sid) !! r.Keys
  {
    hide Below;
    assert AnsweredByAny(m, {sid}) == Answering(m, sid);
  }

  lemma GoneFrames(s: State, sid: Sid, matches: Matcher)
    ensures Apply(s, SessionGone(sid), matches).frames == DropAll(s.frames, Answering(s.frames, sid))
  {
  }

  function Gone(s: Desk, r: Desk): set<Sid> {
    s.sessions.Keys - r.sessions.Keys
  }

  // A session goes only for a reason: its own frame was answered for by another
  // that went, or its frame is among the ones given.
  ghost predicate Caused(s: Desk, gone: set<Sid>, orphaned: set<Id>) {
    forall k :: k in gone && k in s.sessions ==>
      s.sessions[k].target in orphaned || s.sessions[k].target in AnsweredByAny(s.tree.frames, gone - {k})
  }

  lemma LeftGone(s: Desk, r: Desk, gone: set<Sid>)
    requires Left(s, r, gone)
    ensures gone == Gone(s, r)
  {
  }

  lemma AnsweredGrows(s: Desk, m: Desk, a: set<Sid>, b: set<Sid>)
    requires Left(s, m, a)
    ensures AnsweredByAny(m.tree.frames, b) <= AnsweredByAny(s.tree.frames, a + b)
    ensures AnsweredByAny(s.tree.frames, a) <= AnsweredByAny(s.tree.frames, a + b)
  {
  }

  lemma {:induction false} DropLeaves(s: Desk, sid: Sid, matches: Matcher) returns (gone: set<Sid>)
    requires sid in s.sessions
    ensures Left(s, Dropped(s, sid, matches), gone) && sid in gone
    ensures forall k :: k in gone && k != sid ==>
              k in s.sessions && s.sessions[k].target in AnsweredByAny(s.tree.frames, gone - {k})
    ensures Elems(s.order) == s.sessions.Keys ==>
              forall k :: k in s.sessions && s.sessions[k].target in Answering(s.tree.frames, sid) ==> k in gone
    decreases |s.sessions|, 1, 0
  {
    hide Apply, Left;
    var orphaned := Answering(s.tree.frames, sid);
    var left := s.(sessions := s.sessions - {sid}, order := Without(s.order, sid),
                   tree := Apply(s.tree, SessionGone(sid), matches));
    LeftFirst(s, sid, matches);
    GoneIsUnmarked(s.tree, sid, matches);
    assert left.sessions.Keys < s.sessions.Keys;
    KeysCount(left.sessions, s.sessions);
    var more := OrphansLeave(left, left.order, orphaned, matches);
    var swept := DroppedOrphans(left, left.order, orphaned, matches);
    LeftTwice(s, left, swept, {sid}, more);
    LeftSub(left, swept, more);
    LeftSub(s, left, {sid});
    gone := {sid} + more;
    forall k | k in more ensures s.sessions[k].target in AnsweredByAny(s.tree.frames, gone - {k}) {
      FirstCause(s, left, sid, more, k);
    }
    assert Dropped(s, sid, matches) == swept.(unreachable := swept.unreachable - {s.sessions[sid].target});
    LeftTree(s, swept, Dropped(s, sid, matches), gone);
    LeftSub(s, Dropped(s, sid, matches), gone);
  }

  lemma FirstCause(s: Desk, left: Desk, sid: Sid, more: set<Sid>, k: Sid)
    requires Left(s, left, {sid}) && Caused(left, more, Answering(s.tree.frames, sid))
    requires k in more && k in left.sessions
    ensures s.sessions[k].target in AnsweredByAny(s.tree.frames, {sid} + more - {k})
  {
    AnsweredGrows(s, left, {sid}, more - {k});
    assert {sid} + (more - {k}) == {sid} + more - {k};
    assert Answering(s.tree.frames, sid) <= AnsweredByAny(s.tree.frames, {sid} + more - {k});
  }

  lemma LeftTree(s: Desk, r: Desk, r': Desk, gone: set<Sid>)
    requires Left(s, r, gone) && r'.tree == r.tree && r'.sessions == r.sessions
    ensures Left(s, r', gone)
  {
  }

  lemma LeftSub(s: Desk, r: Desk, gone: set<Sid>)
    requires Left(s, r, gone)
    ensures gone <= s.sessions.Keys && r.sessions.Keys == s.sessions.Keys - gone
    ensures forall k :: k in r.sessions ==> r.sessions[k] == s.sessions[k]
    ensures r.tree.frames.Keys <= s.tree.frames.Keys
  {
  }

  lemma {:induction false} OrphansLeave(s: Desk, others: seq<Sid>, orphaned: set<Id>, matches: Matcher)
    returns (gone: set<Sid>)
    ensures Left(s, DroppedOrphans(s, others, orphaned, matches), gone)
    ensures Caused(s, gone, orphaned)
    ensures orphaned !! s.tree.frames.Keys ==>
              forall k :: k in others && k in s.sessions && s.sessions[k].target in orphaned ==> k in gone
    decreases |s.sessions|, 2, |others|
  {
    gone := {};
    if others == [] {
      LeftNothing(s);
    } else {
      hide Left, IsOrphan, Dropped, AnsweredByAny, Caused;
      var s' := if IsOrphan(s, others[0], orphaned) then Dropped(s, others[0], matches) else s;
      var first := OrphanLeaves(s, others[0], orphaned, matches);
      LeftSub(s, s', first);
      KeysCount(s'.sessions, s.sessions);
      var more := OrphansLeave(s', others[1..], orphaned, matches);
      LeftTwice(s, s', DroppedOrphans(s', others[1..], orphaned, matches), first, more);
      CausedTwice(s, s', first, more, orphaned);
      RestGoes(s, s', others, orphaned, first, more);
      gone := first + more;
    }
  }

  lemma RestGoes(s: Desk, s': Desk, others: seq<Sid>, orphaned: set<Id>, first: set<Sid>, more: set<Sid>)
    requires others != [] && Left(s, s', first)
    requires orphaned !! s.tree.frames.Keys && others[0] in s.sessions && s.sessions[others[0]].target in orphaned ==>
               others[0] in first
    requires orphaned !! s'.tree.frames.Keys ==>
               forall k :: k in others[1..] && k in s'.sessions && s'.sessions[k].target in orphaned ==> k in more
    ensures orphaned !! s.tree.frames.Keys ==>
              forall k :: k in others && k in s.sessions && s.sessions[k].target in orphaned ==> k in first + more
  {
  }

  lemma OrphanLeaves(s: Desk, o: Sid, orphaned: set<Id>, matches: Matcher) returns (first: set<Sid>)
    ensures Left(s, if IsOrphan(s, o, orphaned) then Dropped(s, o, matches) else s, first)
    ensures forall k :: k in first && k in s.sessions ==>
              s.sessions[k].target in orphaned || s.sessions[k].target in AnsweredByAny(s.tree.frames, first - {k})
    ensures IsOrphan(s, o, orphaned) ==> o in first
    ensures orphaned !! s.tree.frames.Keys && o in s.sessions && s.sessions[o].target in orphaned ==> o in first
    decreases |s.sessions|, 1, 1
  {
    hide Left;
    first := {};
    LeftNothing(s);
    if IsOrphan(s, o, orphaned) {
      first := DropLeaves(s, o, matches);
    }
  }

  lemma CausedTwice(s: Desk, s': Desk, a: set<Sid>, b: set<Sid>, orphaned: set<Id>)
    requires Left(s, s', a) && Caused(s', b, orphaned)
    requires forall k :: k in a && k in s.sessions ==>
               s.sessions[k].target in orphaned || s.sessions[k].target in AnsweredByAny(s.tree.frames, a - {k})
    ensures Caused(s, a + b, orphaned)
  {
    forall k | k in a + b && k in s.sessions
      ensures s.sessions[k].target in orphaned || s.sessions[k].target in AnsweredByAny(s.tree.frames, a + b - {k})
    {
      if k in a {
        assert AnsweredByAny(s.tree.frames, a - {k}) <= AnsweredByAny(s.tree.frames, a + b - {k});
      } else {
        assert k in s'.sessions;
        AnsweredGrows(s, s', a, b - {k});
        assert a + (b - {k}) == a + b - {k};
      }
    }
  }

  // What a drop takes, whatever it cascades into. The session goes, and every
  // session whose own frame it answered for; any other that goes has its own frame
  // answered for by one that went. Exactly the frames they answer for go, with all
  // that lies below; every other frame keeps its parent and its data.
  lemma DropTakes(s: Desk, sid: Sid, matches: Matcher)
    requires sid in s.sessions && Elems(s.order) == s.sessions.Keys
    ensures var r := Dropped(s, sid, matches);
            var gone := Gone(s, r);
            && Left(s, r, gone)
            && sid in gone
            && (forall k :: k in s.sessions && s.sessions[k].target in Answering(s.tree.frames, sid) ==> k in gone)
            && (forall k :: k in gone && k != sid ==> s.sessions[k].target in AnsweredByAny(s.tree.frames, gone - {k}))
  {
    var gone := DropLeaves(s, sid, matches);
    LeftGone(s, Dropped(s, sid, matches), gone);
  }

  // What the teardown promises: no session stays that answered for a frame that
  // went.
  ghost predicate NoneLeftBehind(s: Desk, r: Desk) {
    forall x :: x in s.tree.frames && x !in r.tree.frames && s.tree.frames[x].data.session.Some? ==>
      s.tree.frames[x].data.session.value !in r.sessions
  }

  lemma {:induction false} NoOrphans(s: Desk, others: seq<Sid>, orphaned: set<Id>, matches: Matcher)
    requires forall k :: k in s.sessions ==> s.sessions[k].target !in orphaned
    ensures DroppedOrphans(s, others, orphaned, matches) == s
    decreases |others|
  {
    if others != [] {
      NoOrphans(s, others[1..], orphaned, matches);
    }
  }

  // ------------------------------------------------------ exactly what a drop takes

  // Of the sessions whose own frame the departed one answered for, none answers for
  // a frame itself.
  ghost predicate Answerless(s: Desk, sid: Sid) {
    forall k :: k in s.sessions && k != sid && s.sessions[k].target in Answering(s.tree.frames, sid) ==>
      Answering(s.tree.frames, k) == {}
  }

  // Whoever answers for a frame answers for its own: a session's frames come with
  // its own frame at their root.
  ghost predicate OwnFrameFirst(s: Desk) {
    forall k :: k in s.sessions && Answering(s.tree.frames, k) != {} ==>
      s.sessions[k].target in Answering(s.tree.frames, k)
  }

  lemma OwnFrameFirstIsAnswerless(s: Desk, sid: Sid)
    requires OwnFrameFirst(s)
    ensures Answerless(s, sid)
  {
  }

  // A session that answers for nothing goes alone and takes no frame.
  lemma FramelessGoes(s: Desk, o: Sid, matches: Matcher)
    requires o in s.sessions && Answering(s.tree.frames, o) == {}
    ensures var r := Dropped(s, o, matches); r.sessions == s.sessions - {o} && r.tree.frames == s.tree.frames
  {
    var left := s.(sessions := s.sessions - {o}, order := Without(s.order, o),
                   tree := Apply(s.tree, SessionGone(o), matches));
    GoneFrames(s.tree, o, matches);
    DropAllNone(s.tree.frames);
    hide Apply;
    NoOrphans(left, left.order, {}, matches);
  }

  lemma {:induction false} FramelessGo(s: Desk, others: seq<Sid>, orphaned: set<Id>, matches: Matcher)
    requires orphaned !! s.tree.frames.Keys
    requires forall k :: k in s.sessions && s.sessions[k].target in orphaned ==> Answering(s.tree.frames, k) == {}
    ensures var r := DroppedOrphans(s, others, orphaned, matches);
            && r.tree.frames == s.tree.frames
            && forall k :: k in r.sessions <==> k in s.sessions && !(k in others && s.sessions[k].target in orphaned)
    decreases |others|
  {
    if others == [] {
      assert DroppedOrphans(s, others, orphaned, matches) == s;
    } else {
      hide Dropped;
      var s' := if IsOrphan(s, others[0], orphaned) then Dropped(s, others[0], matches) else s;
      if IsOrphan(s, others[0], orphaned) { FramelessGoes(s, others[0], matches); }
      FramelessGo(s', others[1..], orphaned, matches);
      assert forall k :: k in others <==> k == others[0] || k in others[1..];
    }
  }

  // Where they answer for nothing themselves, a drop takes the session, and those
  // whose own frame it answered for, and no other, in whatever order the table has.
  lemma DropTakesExactly(s: Desk, sid: Sid, matches: Matcher)
    requires sid in s.sessions && Elems(s.order) == s.sessions.Keys && Answerless(s, sid)
    ensures var r := Dropped(s, sid, matches);
            && (forall k :: k in Gone(s, r) <==>
                  k in s.sessions && (k == sid || s.sessions[k].target in Answering(s.tree.frames, sid)))
            && (forall x :: x in r.tree.frames <==> x in s.tree.frames && !Goes(s.tree.frames, x, {sid}))
  {
    var left := s.(sessions := s.sessions - {sid}, order := Without(s.order, sid),
                   tree := Apply(s.tree, SessionGone(sid), matches));
    LeftFirst(s, sid, matches);
    forall k | k in left.sessions && left.sessions[k].target in Answering(s.tree.frames, sid)
      ensures Answering(left.tree.frames, k) == {}
    {
      assert Answering(left.tree.frames, k) <= Answering(s.tree.frames, k);
    }
    hide Apply, Goes;
    FramelessGo(left, left.order, Answering(s.tree.frames, sid), matches);
    hide DroppedOrphans;
  }

  // It keeps the promise exactly when nothing below the frames of the departed
  // session is another live session's: the cascade asks only about frames that
  // session answered for itself.
  lemma LeftBehindIff(s: Desk, sid: Sid, matches: Matcher)
    requires sid in s.sessions && Elems(s.order) == s.sessions.Keys && MarksLive(s) && Answerless(s, sid)
    ensures NoneLeftBehind(s, Dropped(s, sid, matches)) <==>
            forall x :: x in s.tree.frames && BelowAny(s.tree.frames, x, Answering(s.tree.frames, sid)) ==>
              s.tree.frames[x].data.session in {None, Some(sid)}
  {
    DropTakesExactly(s, sid, matches);
    var m, r := s.tree.frames, Dropped(s, sid, matches);
    assert AnsweredByAny(m, {sid}) == Answering(m, sid);
    hide Dropped, BelowAny;
    forall x | x in m && BelowAny(m, x, Answering(m, sid)) && m[x].data.session !in {None, Some(sid)}
      ensures x !in r.tree.frames && m[x].data.session.value in r.sessions
    {
      var k := m[x].data.session.value;
      assert x in Answering(m, k);
      assert k !in Gone(s, r);
    }
  }

  // A marked frame under a frame of another session.
  ghost predicate Nested(m: FrameMap, x: Id, z: Id) {
    && x in m && z in m && Below(m, x, z)
    && m[x].data.session.Some? && m[z].data.session.Some? && m[x].data.session != m[z].data.session
  }

  // Whatever a drop cascades into: where no session's frame lies below another
  // session's, it keeps the promise.
  lemma UnnestedLeavesNone(s: Desk, sid: Sid, matches: Matcher)
    requires sid in s.sessions && Elems(s.order) == s.sessions.Keys
    requires forall x, z :: x in s.tree.frames && z in s.tree.frames ==> !Nested(s.tree.frames, x, z)
    ensures NoneLeftBehind(s, Dropped(s, sid, matches))
  {
    DropTakes(s, sid, matches);
    hide Dropped;
    var m, r := s.tree.frames, Dropped(s, sid, matches);
    var gone := Gone(s, r);
    forall x | x in m && x !in r.tree.frames && m[x].data.session.Some? ensures m[x].data.session.value !in r.sessions {
      if x !in AnsweredByAny(m, gone) {
        var z :| z in AnsweredByAny(m, gone) && Below(m, x, z);
        assert !Nested(m, x, z);
      }
    }
  }

  // And of any drop: it keeps the promise exactly when every session with a frame
  // below those of the sessions that went has gone too.
  lemma LeftBehindByCascadeIff(s: Desk, sid: Sid, matches: Matcher)
    requires sid in s.sessions && Elems(s.order) == s.sessions.Keys && MarksLive(s)
    ensures var r := Dropped(s, sid, matches);
            var m, gone := s.tree.frames, Gone(s, r);
            NoneLeftBehind(s, r) <==>
              forall x, z :: Nested(m, x, z) && m[z].data.session.value in gone ==> m[x].data.session.value in gone
  {
    DropTakes(s, sid, matches);
    hide Dropped;
    var m, r := s.tree.frames, Dropped(s, sid, matches);
    var gone := Gone(s, r);
    if NoneLeftBehind(s, r) {
      forall x, z | Nested(m, x, z) && m[z].data.session.value in gone ensures m[x].data.session.value in gone {
        assert z in AnsweredByAny(m, gone);
        assert BelowAny(m, x, AnsweredByAny(m, gone));
        assert x !in r.tree.frames;
      }
    }
    if forall x, z :: Nested(m, x, z) && m[z].data.session.value in gone ==> m[x].data.session.value in gone {
      forall x | x in m && x !in r.tree.frames && m[x].data.session.Some?
        ensures m[x].data.session.value !in r.sessions
      {
        if BelowAny(m, x, AnsweredByAny(m, gone)) {
          var z :| z in AnsweredByAny(m, gone) && Below(m, x, z);
          if m[x].data.session != m[z].data.session { assert Nested(m, x, z); }
          assert m[x].data.session.value in gone;
        }
      }
    }
  }

  // A frame spliced below a frame of another session: the session stays, with
  // nothing left to answer for.
  function Marked(session: Sid): Frame { Frame("u", "l", Some(session), None) }

  function NestedFrames(): FrameMap {
    map["r" := Node(None, ["a"], Frame("u", "l", None, None)), "a" := Node(Some("r"), ["b"], Marked("A")),
        "b" := Node(Some("a"), [], Marked("B"))]
  }

  lemma NestedStays(s: Desk, matches: Matcher)
    requires s.tree.frames == NestedFrames() && s.sessions.Keys == {"A", "B"} && Elems(s.order) == {"A", "B"}
    requires s.sessions["B"].target == "b"
    ensures var r := Dropped(s, "A", matches);
            "B" in r.sessions && Answering(s.tree.frames, "B") == {"b"} && Answering(r.tree.frames, "B") == {}
  {
    hide Dropped, NestedFrames, Below;
    NestedMarks();
    DropTakes(s, "A", matches);
    var m, r := NestedFrames(), Dropped(s, "A", matches);
    var gone := Gone(s, r);
    assert "B" !in gone;
    assert gone == {"A"};
    assert "a" in AnsweredByAny(m, gone);
    assert Goes(m, "b", gone);
    assert "b" !in r.tree.frames;
    assert Answering(r.tree.frames, "B") <= Answering(m, "B");
  }

  lemma NestedMarks()
    ensures var m := NestedFrames();
            && Answering(m, "B") == {"b"} && m["b"].data.session == Some("B") && "b" !in Answering(m, "A")
            && "a" in m && m["a"].data.session == Some("A") && Below(m, "b", "a")
  {
    assert Climb(NestedFrames(), "a", 0) == Some("a");
  }

  // One splice of a childless tree under a childless frame.
  lemma LeafSpliced(m: FrameMap, d: map<Id, nat>, x: Id, p: Id, sid: Sid)
    requires DepthMap(m, d) && p in m && m[p].kids == [] && x !in m && x != "" && p != ""
    ensures var t := FrameTree(Some(x), Some(p), "u", "l", []);
            CanSplice(m, t)
            && Splice(m, t, sid) == m[p := m[p].(kids := [x])][x := Node(Some(p), [], Marked(sid))]
  {
    var t := FrameTree(Some(x), Some(p), "u", "l", []);
    SubtreeGone(m, d, x, p);
    assert Ids(t) == [x] && KidNames(t.childFrames) == [];
    assert Drop(m, x) == m;
    assert Parse(m, t, Some(p), Some(sid)) == m[x := Node(Some(p), [], Marked(sid))];
    assert Splice(m, t, sid) == WithKid(m[x := Node(Some(p), [], Marked(sid))], p, x);
    assert x != p && m[p].kids + [x] == [x];
    assert WithKid(m[x := Node(Some(p), [], Marked(sid))], p, x)
        == m[p := m[p].(kids := [x])][x := Node(Some(p), [], Marked(sid))];
  }

  lemma RunOn(s: Desk, run: seq<Step>, a: Step, matches: Matcher)
    requires CanRun(s, run, matches) && CanHappen(AfterAll(s, run, matches), a)
    ensures CanRun(s, run + [a], matches)
    ensures AfterAll(s, run + [a], matches) == After(AfterAll(s, run, matches), a, matches)
    decreases |run|
  {
    hide After, CanHappen;
    if run == [] {
      assert run + [a] == [a] && [a][1..] == [];
      assert CanRun(After(s, a, matches), [a][1..], matches);
      assert AfterAll(After(s, a, matches), [a][1..], matches) == After(s, a, matches);
    } else {
      RunOn(After(s, run[0], matches), run[1..], a, matches);
      assert (run + [a])[1..] == run[1..] + [a];
    }
  }

  // A session attaches, gets its slot and answers with a childless tree whose
  // parent is mapped: three steps.
  ghost function Arrived(s: Desk, sid: Sid, x: Id, p: Id): Desk
    requires p in s.tree.frames
  {
    var m := s.tree.frames;
    s.(tree := s.tree.(frames := m[p := m[p].(kids := [x])][x := Node(Some(p), [], Marked(sid))]),
       sessions := s.sessions[sid := Session(s.born, x, "u", None, false)], order := s.order + [sid],
       tasks := s.tasks[s.born := Task(sid, x, "u", Enabling)], born := s.born + 1)
  }

  ghost predicate CanArrive(s: Desk, d: map<Id, nat>, sid: Sid, x: Id, p: Id) {
    && DepthMap(s.tree.frames, d) && p in d && p in s.tree.frames && "" !in s.tree.frames
    && d[p] < MAX_DEPTH && s.tree.frames[p].kids == []
    && x !in s.tree.frames && x != "" && sid != "" && sid !in s.sessions && !s.HasTarget(x)
    && s.tree.selected.None? && |s.sessions| < MAX_SESSIONS && |Running(s)| < MAX_CONCURRENT_SETUP && s.born !in s.tasks
  }

  lemma ArriveAnswers(s: Desk, d: map<Id, nat>, sid: Sid, x: Id, p: Id, matches: Matcher)
    requires CanArrive(s, d, sid, x, p)
    ensures var given := At(TakenOn(s, sid, x, "u"), s.born, Reading);
            var t := FrameTree(Some(x), Some(p), "u", "l", []);
            !given.IsStale(s.born) && Installed(given, s.born, t, matches) == Arrived(s, sid, x, p)
  {
    hide DepthMap, Splice, CanSplice, DepthWalk;
    LeafSpliced(s.tree.frames, d, x, p, sid);
    var given := At(TakenOn(s, sid, x, "u"), s.born, Reading);
    var t := FrameTree(Some(x), Some(p), "u", "l", []);
    SplicedTree(s.tree, t, sid, matches);
    ArriveDepth(s.tree.frames, d, x, p, sid);
    assert s.tasks[s.born := Task(sid, x, "u", Queued)][s.born := Task(sid, x, "u", Reading)]
           [s.born := Task(sid, x, "u", Enabling)] == s.tasks[s.born := Task(sid, x, "u", Enabling)];
  }

  lemma SplicedTree(s: State, t: FrameTree, sid: Sid, matches: Matcher)
    requires CanSplice(s.frames, t) && s.selected.None?
    ensures Apply(s, Spliced(t, sid), matches) == s.(frames := Splice(s.frames, t, sid))
  {
  }

  lemma ArriveDepth(m: FrameMap, d: map<Id, nat>, x: Id, p: Id, sid: Sid)
    requires DepthMap(m, d) && p in m && d[p] < MAX_DEPTH && m[p].kids == [] && "" !in m && x !in m && x != ""
    ensures var r := m[p := m[p].(kids := [x])][x := Node(Some(p), [], Marked(sid))];
            DepthWalk(r, x, {}) <= MAX_DEPTH && DepthMap(r, d[x := d[p] + 1])
  {
    var r, e := m[p := m[p].(kids := [x])][x := Node(Some(p), [], Marked(sid))], d[x := d[p] + 1];
    forall y | y in r ensures Placed(r, e, y) {
      if y != x { assert Placed(m, d, y); }
    }
    DepthWalkIsDepth(r, e, x, {});
  }

  lemma ArriveRuns(s: Desk, run: seq<Step>, d: map<Id, nat>, sid: Sid, x: Id, p: Id, matches: Matcher)
    returns (all: seq<Step>)
    requires CanRun(NO_SESSIONS, run, matches) && AfterAll(NO_SESSIONS, run, matches) == s && CanArrive(s, d, sid, x, p)
    ensures CanRun(NO_SESSIONS, all, matches) && AfterAll(NO_SESSIONS, all, matches) == Arrived(s, sid, x, p)
  {
    hide DepthMap, Installed, Arrived;
    ArriveAnswers(s, d, sid, x, p, matches);
    var taken := TakenOn(s, sid, x, "u");
    var t := FrameTree(Some(x), Some(p), "u", "l", []);
    assert Running(taken) == Running(s);
    RunOn(NO_SESSIONS, run, TargetAttached(sid, x, "u", true), matches);
    all := run + [TargetAttached(sid, x, "u", true)];
    RunOn(NO_SESSIONS, all, SlotGiven(s.born), matches);
    all := all + [SlotGiven(s.born)];
    RunOn(NO_SESSIONS, all, TreeAnswered(s.born, Some(t)), matches);
    all := all + [TreeAnswered(s.born, Some(t))];
  }

  // Messages lead there: the page's tree, a session below the page, a session below
  // that one's frame.
  lemma NestedRun(matches: Matcher) returns (run: seq<Step>, s: Desk)
    ensures CanRun(NO_SESSIONS, run, matches) && AfterAll(NO_SESSIONS, run, matches) == s
    ensures s.tree.frames == NestedFrames() && s.sessions.Keys == {"A", "B"} && s.order == ["A", "B"]
    ensures s.sessions["B"].target == "b"
  {
    var t := FrameTree(Some("r"), None, "u", "l", []);
    RunOn(NO_SESSIONS, [], PageEvent(TreeRead(t)), matches);
    run := [] + [PageEvent(TreeRead(t))];
    s := AfterAll(NO_SESSIONS, run, matches);
    FirstTree(t, matches);
    assert Running(s) == {};
    run := ArriveRuns(s, run, map["r" := 0], "A", "a", "r", matches);
    s := Arrived(s, "A", "a", "r");
    SecondArrives(s);
    run := ArriveRuns(s, run, map["r" := 0, "a" := 1], "B", "b", "a", matches);
    s := Arrived(s, "B", "b", "a");
  }

  // And then the first of the two departs.
  lemma NestedSessionStays(matches: Matcher) returns (run: seq<Step>, s: Desk)
    ensures CanRun(NO_SESSIONS, run, matches) && AfterAll(NO_SESSIONS, run, matches) == s
    ensures CanHappen(s, TargetDetached("A"))
    ensures var r := After(s, TargetDetached("A"), matches);
            "B" in r.sessions && Answering(s.tree.frames, "B") == {"b"} && Answering(r.tree.frames, "B") == {}
  {
    hide CanRun, AfterAll, Dropped, NestedFrames;
    run, s := NestedRun(matches);
    NestedStays(s, matches);
  }

  lemma FirstTree(t: FrameTree, matches: Matcher)
    requires t == FrameTree(Some("r"), None, "u", "l", [])
    ensures Apply(NOTHING_YET, TreeRead(t), matches)
         == State(map["r" := Node(None, [], Frame("u", "l", None, None))], Some("r"), None, None, map[])
    ensures DepthMap<Frame>(map["r" := Node(None, [], Frame("u", "l", None, None))], map["r" := 0])
  {
    assert KidNames(t.childFrames) == [];
  }

  lemma SecondArrives(s: Desk)
    requires s.tree.frames == map["r" := Node(None, ["a"], Frame("u", "l", None, None)),
                                  "a" := Node(Some("r"), [], Marked("A"))]
    requires s.tree.selected.None? && s.sessions == map["A" := Session(0, "a", "u", None, false)]
    requires s.tasks == map[0 := Task("A", "a", "u", Enabling)] && s.born == 1
    ensures CanArrive(s, map["r" := 0, "a" := 1], "B", "b", "a")
  {
    assert Running(s) == {0};
  }

  // A answers for b, whose own session is B; the session C of a frame spliced below
  // A's is another matter.
  function CascadeDesk(): Desk {
    var m: FrameMap := map["r" := Node(None, ["a"], Frame("u", "l", None, None)),
                           "a" := Node(Some("r"), ["b", "c"], Marked("A")),
                           "b" := Node(Some("a"), [], Marked("A")), "c" := Node(Some("a"), [], Marked("C"))];
    Desk(State(m, Some("r"), None, None, map[]),
         map["A" := Session(0, "a", "u", None, true), "B" := Session(1, "b", "u", None, true),
             "C" := Session(2, "c", "u", None, true)], ["A", "B", "C"], map[], map[], 3)
  }

  lemma CascadeMarks()
    ensures var s := CascadeDesk(); var m := s.tree.frames;
            && s.sessions.Keys == {"A", "B", "C"} && Elems(s.order) == s.sessions.Keys
            && s.sessions["B"].target in Answering(m, "A") && s.sessions["C"].target == "c"
            && Answering(m, "C") == {"c"} && m["c"].data.session == Some("C")
            && "a" in m && m["a"].data.session == Some("A") && Below(m, "c", "a")
  {
    var m := CascadeDesk().tree.frames;
    assert Climb(m, "a", 0) == Some("a");
  }

  // A drop that cascades and still leaves a session behind, with no frame.
  lemma CascadeLeavesSession(matches: Matcher)
    ensures var s := CascadeDesk();
            var r := Dropped(s, "A", matches);
            && Gone(s, r) == {"A", "B"} && "C" in r.sessions
            && Answering(s.tree.frames, "C") == {"c"} && Answering(r.tree.frames, "C") == {}
            && !NoneLeftBehind(s, r)
  {
    hide Dropped, CascadeDesk, Below;
    CascadeMarks();
    var s := CascadeDesk();
    DropTakes(s, "A", matches);
    var m, r := s.tree.frames, Dropped(s, "A", matches);
    var gone := Gone(s, r);
    assert "C" !in gone;
    assert gone == {"A", "B"};
    assert "a" in AnsweredByAny(m, gone);
    assert Goes(m, "c", gone);
    assert "c" !in r.tree.frames;
    assert Answering(r.tree.frames, "C") <= Answering(m, "C");
  }
}

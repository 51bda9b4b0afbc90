// What a frame-scoped read is pointed at: the selected frame, and the execution
// context that answers for it.
module SelectionLaws {
  import opened Prelude
  import opened Forest
  import opened Surgery
  import opened Frames
  import opened FrameLaws

  // ---------------------------------------------------------------- selection

  // x is the first of ids that the pattern matches; None when none is matched.
  ghost predicate IsFirstMatch(m: FrameMap, ids: seq<Id>, matches: Matcher, pattern: string, r: Option<Id>) {
    match r
    case None => forall y :: y in ids && y in m ==> !matches(pattern, m[y].data.url)
    case Some(x) =>
      exists i :: 0 <= i < |ids| && ids[i] == x && x in m && matches(pattern, m[x].data.url)
        && forall j :: 0 <= j < i && ids[j] in m ==> !matches(pattern, m[ids[j]].data.url)
  }

  lemma {:induction false} FirstMatchIsFirst(m: FrameMap, ids: seq<Id>, matches: Matcher, pattern: string)
    ensures IsFirstMatch(m, ids, matches, pattern, FirstMatch(m, ids, matches, pattern))
    decreases |ids|
  {
    if ids == [] {
    } else if ids[0] in m && matches(pattern, m[ids[0]].data.url) {
      assert ids[0] == FirstMatch(m, ids, matches, pattern).value;
    } else {
      FirstMatchIsFirst(m, ids[1..], matches, pattern);
      var r := FirstMatch(m, ids[1..], matches, pattern);
      if r.Some? {
        var i :| 0 <= i < |ids[1..]| && ids[1..][i] == r.value
                 && forall j :: 0 <= j < i && ids[1..][j] in m ==> !matches(pattern, m[ids[1..][j]].data.url);
        assert ids[i + 1] == r.value;
        forall j | 0 <= j < i + 1 && ids[j] in m ensures !matches(pattern, m[ids[j]].data.url) {
          if j > 0 { assert ids[1..][j - 1] == ids[j]; }
        }
      }
    }
  }

  // The events after which a selection made by pattern is resolved again.
  ghost predicate Repoints(s: State, e: Event) {
    match e
    case Navigated(x, p, _, _) =>
      x != "" && (x in Forgotten(s.frames, x) || p.GetOr("") in Forgotten(s.frames, x) || (p.None? && s.root.None?))
    case WithinDocument(x, url) => x in s.frames && url.Some? && x != ""
    case SessionGone(_) => true
    case Select(_) => true
    case _ => false
  }

  // After any such event the selection is the first listed frame whose URL the
  // pattern matches, and nothing when no listed frame matches: never a frame
  // whose URL has moved away from the pattern.
  lemma SelectionFollowsPattern(s: State, e: Event, matches: Matcher)
    requires Repoints(s, e)
    requires Apply(s, e, matches).pattern.GetOr("") != "" || e.Select?
    ensures var s' := Apply(s, e, matches);
            IsFirstMatch(s'.frames, Reachable(s'.frames, s'.root), matches, s'.pattern.value, s'.selected)
  {
    var s' := Apply(s, e, matches);
    FirstMatchIsFirst(s'.frames, Reachable(s'.frames, s'.root), matches, s'.pattern.value);
  }

  lemma {:induction false} FirstMatchListed(m: FrameMap, ids: seq<Id>, matches: Matcher, pattern: string)
    ensures var r := FirstMatch(m, ids, matches, pattern);
            r.Some? ==> r.value in ids && r.value in m && matches(pattern, m[r.value].data.url)
    decreases |ids|
  {
    if ids != [] {
      FirstMatchListed(m, ids[1..], matches, pattern);
    }
  }

  // A frame a read is given is one `frames list` shows, after any run, stale
  // selections included.
  lemma SelectedFrameIsListed(es: seq<Event>, matches: Matcher)
    requires SaneRun(NOTHING_YET, es, matches)
    ensures var (s, f) := CurrentFrame(Run(NOTHING_YET, es, matches), matches);
            f.Some? ==> f.value in s.frames && f.value in Reachable(s.frames, s.root)
  {
    var s := Run(NOTHING_YET, es, matches);
    if s.selected.Some? && s.selected.value in s.frames {
      EveryMappedFrameIsReachable(es, matches, s.selected.value);
    } else if s.pattern.GetOr("") != "" {
      FirstMatchListed(s.frames, Reachable(s.frames, s.root), matches, s.pattern.value);
    }
  }

  // What a read is given: the selected frame while it is mapped; once it is not, the
  // first listed frame its pattern matches, which is selected from then on; and none
  // where nothing was selected, nothing matches or there is no pattern.
  lemma ReadsFollowSelection(s: State, matches: Matcher)
    ensures var (r, f) := CurrentFrame(s, matches);
            && r == s.(selected := f)
            && (s.selected.None? || s.selected.value in s.frames ==> f == s.selected)
            && (s.selected.Some? && s.selected.value !in s.frames ==>
                 if s.pattern.GetOr("") == "" then f == None
                 else IsFirstMatch(s.frames, Reachable(s.frames, s.root), matches, s.pattern.value, f))
  {
    if s.pattern.Some? {
      FirstMatchIsFirst(s.frames, Reachable(s.frames, s.root), matches, s.pattern.value);
    }
  }

  // And the context it is sent to: that frame's own, on the session that answers for
  // that frame, whenever the frame has one.
  lemma ReadsGoToTheFrame(s: State, matches: Matcher)
    ensures var (r, c) := CurrentContext(s, matches);
            var f := CurrentFrame(s, matches).1;
            && r == CurrentFrame(s, matches).0
            && (c.Some? <==> f.Some? && f.value in r.frames && r.frames[f.value].data.context.Some?)
            && (c.Some? ==> c.value.0 == r.frames[f.value].data.session
                            && Some(c.value.1) == r.frames[f.value].data.context)
  {
    hide CurrentFrame;
  }

  // ----------------------------------------------------------------- contexts

  type Key = (Option<Sid>, int)

  predicate Creates(e: Event, k: Key) {
    e.ContextCreated? && (e.on, e.context) == (k.0, Some(k.1)) && e.frame.GetOr("") != ""
  }

  // The event that ends context k: its own destruction, or a clear of its session.
  predicate Ends(e: Event, k: Key) {
    || (e.ContextDestroyed? && (e.on, e.context) == (k.0, Some(k.1)))
    || (e.ContextsCleared? && e.on == k.0)
  }

  ghost predicate Survives(es: seq<Event>, k: Key) {
    forall i :: 0 <= i < |es| ==> !Ends(es[i], k)
  }

  // k was created at some point of the run and nothing has ended it since.
  ghost predicate Live(es: seq<Event>, k: Key) {
    exists i :: 0 <= i < |es| && Creates(es[i], k) && Survives(es[i + 1..], k)
  }

  lemma LiveStep(e: Event, es: seq<Event>, k: Key)
    ensures Live([e] + es, k) <==> (Creates(e, k) && Survives(es, k)) || Live(es, k)
  {
    var all := [e] + es;
    assert all[0 + 1..] == es;
    assert all[0] == e;
    if Live(es, k) {
      var i :| 0 <= i < |es| && Creates(es[i], k) && Survives(es[i + 1..], k);
      assert all[i + 1] == es[i] && all[i + 1 + 1..] == es[i + 1..];
    }
    if Live(all, k) {
      var i :| 0 <= i < |all| && Creates(all[i], k) && Survives(all[i + 1..], k);
      if i > 0 {
        assert es[i - 1] == all[i] && es[i - 1 + 1..] == all[i + 1..];
      }
    }
  }

  lemma SurvivesStep(e: Event, es: seq<Event>, k: Key)
    ensures Survives([e] + es, k) <==> !Ends(e, k) && Survives(es, k)
  {
    var all := [e] + es;
    assert all[0] == e;
    if Survives(all, k) {
      forall i | 0 <= i < |es| ensures !Ends(es[i], k) {
        assert all[i + 1] == es[i];
      }
    }
  }

  // The context table is exactly the contexts the run has left alive.
  lemma {:induction false} TableIsLive(s: State, es: seq<Event>, matches: Matcher, k: Key)
    ensures k in Run(s, es, matches).contexts <==> (k in s.contexts && Survives(es, k)) || Live(es, k)
    decreases |es|
  {
    if es != [] {
      var s' := Apply(s, es[0], matches);
      TableIsLive(s', es[1..], matches, k);
      assert es == [es[0]] + es[1..];
      LiveStep(es[0], es[1..], k);
      SurvivesStep(es[0], es[1..], k);
      TableStep(s, es[0], matches, k);
    }
  }

  lemma TableStep(s: State, e: Event, matches: Matcher, k: Key)
    ensures k in Apply(s, e, matches).contexts <==> (k in s.contexts && !Ends(e, k)) || Creates(e, k)
  {
  }

  // A frame's context is one of its own session's, filed under that frame.
  ghost predicate Addressed(s: State) {
    forall x :: x in s.frames ==> AddressedAt(s, s.frames[x], x)
  }

  ghost predicate AddressedAt(s: State, n: Node<Frame>, x: Id) {
    n.data.context.Some? ==>
      var k := (n.data.session, n.data.context.value); k in s.contexts && s.contexts[k] == x
  }

  // What Chrome owes here: a context is announced on the session that answers
  // for its frame, under an id not in use on that session.
  ghost predicate Announced(s: State, e: Event) {
    e.ContextCreated? && e.context.Some? && e.frame.GetOr("") != "" ==>
      && (e.on, e.context.value) !in s.contexts
      && (e.frame.value in s.frames ==> s.frames[e.frame.value].data.session == e.on)
  }

  // Every frame of a changed tree was there before with the same data, or has no
  // context.
  ghost predicate Inherits(m: FrameMap, r: FrameMap) {
    forall x :: x in r && r[x].data.context.Some? ==>
      x in m && r[x].data.context == m[x].data.context && r[x].data.session == m[x].data.session
  }

  lemma {:induction false} ParsedInherits(m: FrameMap, t: FrameTree, parent: Option<Id>, session: Option<Sid>)
    ensures Inherits(m, Parse(m, t, parent, session))
    decreases t, 1
  {
    if t.Name() != "" {
      var n := Node(parent, KidNames(t.childFrames), Frame(t.url, t.loader, session, None));
      RowInherits(m[t.Name() := n], t.childFrames, t.Name(), session);
    }
  }

  lemma {:induction false} RowInherits(m: FrameMap, ts: seq<FrameTree>, parent: Id, session: Option<Sid>)
    ensures Inherits(m, ParseRow(m, ts, parent, session))
    decreases ts, 0
  {
    if ts != [] {
      ParsedInherits(m, ts[0], Some(parent), session);
      RowInherits(Parse(m, ts[0], Some(parent), session), ts[1..], parent, session);
    }
  }

  lemma ShapeInherits(s: State, e: Event, matches: Matcher)
    requires !e.ContextCreated? && !e.ContextDestroyed? && !e.ContextsCleared?
    ensures Inherits(s.frames, Apply(s, e, matches).frames)
    ensures Apply(s, e, matches).contexts == s.contexts
  {
    hide Parse, Splice, Navigate, Resolve, Kept, Drop, Detach, Attach, DropAll, Descendants, CanSplice;
    match e
    case TreeRead(t) => ParsedInherits(map[], t, None, None);
    case Detached(x) => DetachInherits(s.frames, x);
    case SessionGone(session) => DropAllInherits(s.frames, Answering(s.frames, session));
    case Spliced(t, session) =>
      if CanSplice(s.frames, t) {
        SpliceInherits(s.frames, t, session);
      }
    case Navigated(x, p, url, loader) => NavigateInherits(s.frames, s.root, x, p, url, loader);
    case Attached(x, p) => AttachInherits(s.frames, x, p);
    case _ =>
  }

  lemma AttachInherits(m: FrameMap, x: Id, p: Id)
    ensures Inherits(m, Attach(m, x, p))
  {
    AtOrBelowStep(m, p, x);
  }

  lemma DetachInherits(m: FrameMap, x: Id)
    ensures Inherits(m, Detach(m, x))
  {
  }

  lemma DropAllInherits(m: FrameMap, gone: set<Id>)
    ensures Inherits(m, DropAll(m, gone))
  {
  }

  lemma SpliceInherits(m: FrameMap, t: FrameTree, session: Sid)
    requires CanSplice(m, t)
    ensures Inherits(m, Splice(m, t, session))
  {
    var left := Drop(m, t.Name());
    assert Inherits(m, left);
    ParsedInherits(left, t, Some(t.parentId.value), Some(session));
    ParseAdds(left, t, Some(t.parentId.value), Some(session));
  }

  lemma NavigateInherits(m: FrameMap, root: Option<Id>, x: Id, p: Option<Id>, url: Option<string>,
                         loader: Option<string>)
    ensures Inherits(m, Navigate(m, root, x, p, url, loader))
  {
  }

  lemma StepKeepsAddressed(s: State, e: Event, matches: Matcher)
    requires Addressed(s) && Announced(s, e)
    ensures Addressed(Apply(s, e, matches))
  {
    if !e.ContextCreated? && !e.ContextDestroyed? && !e.ContextsCleared? {
      ShapeInherits(s, e, matches);
      var s' := Apply(s, e, matches);
      forall x | x in s'.frames ensures AddressedAt(s', s'.frames[x], x) {
        if s'.frames[x].data.context.Some? {
          assert AddressedAt(s, s.frames[x], x);
        }
      }
    } else {
      ContextEventKeeps(s, e, matches);
    }
  }

  lemma ContextEventKeeps(s: State, e: Event, matches: Matcher)
    requires Addressed(s) && Announced(s, e)
    requires e.ContextCreated? || e.ContextDestroyed? || e.ContextsCleared?
    ensures Addressed(Apply(s, e, matches))
  {
    var s' := Apply(s, e, matches);
    forall x | x in s'.frames ensures AddressedAt(s', s'.frames[x], x) {
      assert AddressedAt(s, s.frames[x], x);
    }
  }

  ghost predicate AnnouncedRun(s: State, es: seq<Event>, matches: Matcher)
    decreases |es|
  {
    es != [] ==> Announced(s, es[0]) && AnnouncedRun(Apply(s, es[0], matches), es[1..], matches)
  }

  lemma {:induction false} RunKeepsAddressed(s: State, es: seq<Event>, matches: Matcher)
    requires Addressed(s) && AnnouncedRun(s, es, matches)
    ensures Addressed(Run(s, es, matches))
    decreases |es|
  {
    if es != [] {
      StepKeepsAddressed(s, es[0], matches);
      RunKeepsAddressed(Apply(s, es[0], matches), es[1..], matches);
    }
  }

  // A read is never sent to a context that was destroyed or cleared: after any
  // run, the pair it is given was created and nothing has ended it since.
  lemma SelectedContextIsLive(es: seq<Event>, matches: Matcher)
    requires AnnouncedRun(NOTHING_YET, es, matches)
    ensures var k := CurrentContext(Run(NOTHING_YET, es, matches), matches).1;
            k.Some? ==> Live(es, k.value)
  {
    var s := Run(NOTHING_YET, es, matches);
    RunKeepsAddressed(NOTHING_YET, es, matches);
    var (s', k) := CurrentContext(s, matches);
    if k.Some? {
      var x := CurrentFrame(s, matches).1.value;
      assert AddressedAt(s, s.frames[x], x);
      TableIsLive(NOTHING_YET, es, matches, k.value);
    }
  }

  // An event about one session's contexts touches no other session's.
  lemma OtherSessionsKeepTheirs(s: State, e: Event, matches: Matcher, k: Key, x: Id)
    requires e.ContextDestroyed? || e.ContextsCleared?
    ensures var s' := Apply(s, e, matches);
            && s'.frames.Keys == s.frames.Keys
            && (k.0 != e.on ==> (k in s'.contexts <==> k in s.contexts)
                                && (k in s.contexts ==> s'.contexts[k] == s.contexts[k]))
            && (x in s.frames && s.frames[x].data.session != e.on ==> s'.frames[x] == s.frames[x])
  {
  }

  // Why the announcement has to come on the answering session: filed from
  // another one, the context outlives its own destruction.
  lemma StrayAnnouncement(matches: Matcher)
    requires matches("a", "a")
    ensures var es := [TreeRead(FrameTree(Some("r"), None, "a", "l", [])), Select("a"),
                       ContextCreated(Some("S"), Some(1), Some("r"), true), ContextDestroyed(Some("S"), Some(1))];
            && CurrentContext(Run(NOTHING_YET, es, matches), matches).1 == Some((None, 1))
            && !Live(es, (None, 1))
  {
    var t := FrameTree(Some("r"), None, "a", "l", []);
    var e0, e1 := TreeRead(t), Select("a");
    var e2, e3 := ContextCreated(Some("S"), Some(1), Some("r"), true), ContextDestroyed(Some("S"), Some(1));
    var es := [e0, e1, e2, e3];
    var s1 := Apply(NOTHING_YET, e0, matches);
    var n := Node(None, [], Frame("a", "l", None, None));
    assert s1.frames == map["r" := n] && s1.root == Some("r");
    assert Reachable(s1.frames, s1.root) == ["r"] by {
      assert ["r"][..0] == [];
      assert [] + Reverse(n.kids) == [];
    }
    var s2 := Apply(s1, e1, matches);
    assert s2.selected == Some("r");
    var s3 := Apply(s2, e2, matches);
    var s4 := Apply(s3, e3, matches);
    assert s4.frames["r"].data.context == Some(1);
    assert es[1..] == [e1, e2, e3] && [e1, e2, e3][1..] == [e2, e3] && [e2, e3][1..] == [e3];
    assert Run(NOTHING_YET, es, matches) == Run(s1, [e1, e2, e3], matches);
    assert Run(s1, [e1, e2, e3], matches) == Run(s2, [e2, e3], matches);
    assert Run(s2, [e2, e3], matches) == Run(s3, [e3], matches);
    assert Run(s3, [e3], matches) == s4;
  }

  // Why its id has to be free: announced again for another frame, a context is
  // ended for that frame alone, and the first goes on being handed out.
  function ReusedEvents(): seq<Event> {
    [TreeRead(FrameTree(Some("r"), None, "a", "l", [])), Select("a"),
     ContextCreated(None, Some(1), Some("r"), true), ContextCreated(None, Some(1), Some("c"), true),
     ContextDestroyed(None, Some(1))]
  }

  lemma ReusedAnnouncement(matches: Matcher)
    requires matches("a", "a")
    ensures CurrentContext(Run(NOTHING_YET, ReusedEvents(), matches), matches).1 == Some((None, 1))
    ensures !Live(ReusedEvents(), (None, 1))
  {
    hide Run, Live, Apply;
    ReusedRun(matches);
    ReusedIsEnded();
  }

  lemma ReusedIsEnded()
    ensures !Live(ReusedEvents(), (None, 1))
  {
    var es := ReusedEvents();
    assert es[2 + 1..][1] == es[4] && es[3 + 1..][0] == es[4];
  }

  lemma ReusedRun(matches: Matcher)
    requires matches("a", "a")
    ensures var s := Run(NOTHING_YET, ReusedEvents(), matches);
            && s.selected == Some("r") && "r" in s.frames
            && s.frames["r"].data.context == Some(1) && s.frames["r"].data.session.None?
  {
    var es := ReusedEvents();
    var s2 := RootSelected(matches);
    var s3 := Apply(s2, es[2], matches);
    var s4 := Apply(s3, es[3], matches);
    assert s4.contexts[(None, 1)] == "c" && s4.frames == s3.frames;
    var s5 := Apply(s4, es[4], matches);
    assert s5.frames == s4.frames;
    hide Apply;
    RunFive(NOTHING_YET, es, matches);
  }

  // The page read and its one frame selected.
  lemma RootSelected(matches: Matcher) returns (s: State)
    requires matches("a", "a")
    ensures s == Apply(Apply(NOTHING_YET, ReusedEvents()[0], matches), ReusedEvents()[1], matches)
    ensures s == State(map["r" := Node(None, [], Frame("a", "l", None, None))], Some("r"), Some("r"), Some("a"), map[])
  {
    var s1 := Apply(NOTHING_YET, ReusedEvents()[0], matches);
    var n := Node(None, [], Frame("a", "l", None, None));
    assert s1.frames == map["r" := n] && s1.root == Some("r");
    assert Reachable(s1.frames, s1.root) == ["r"] by {
      assert ["r"][..0] == [];
      assert [] + Reverse(n.kids) == [];
    }
    s := Apply(s1, ReusedEvents()[1], matches);
    assert s.selected == Some("r");
  }

  lemma RunFive(s: State, es: seq<Event>, matches: Matcher)
    requires |es| == 5
    ensures Run(s, es, matches) == Apply(Apply(Apply(Apply(Apply(s, es[0], matches), es[1], matches), es[2], matches),
                                               es[3], matches), es[4], matches)
  {
    hide Apply;
    var s1 := Apply(s, es[0], matches);
    var s2 := Apply(s1, es[1], matches);
    var s3 := Apply(s2, es[2], matches);
    var s4 := Apply(s3, es[3], matches);
    assert es[1..][0] == es[1] && es[1..][1..] == es[2..] && es[2..][0] == es[2] && es[2..][1..] == es[3..];
    assert es[3..][0] == es[3] && es[3..][1..] == es[4..] && es[4..][0] == es[4] && es[4..][1..] == [];
    assert Run(s, es, matches) == Run(s1, es[1..], matches) == Run(s2, es[2..], matches);
    assert Run(s2, es[2..], matches) == Run(s3, es[3..], matches) == Run(s4, es[4..], matches);
  }
}

// What a frame carries is what the events of the run last said of it, and which
// frames there are is what the events left.
module ReportLaws {
  import opened Prelude
  import opened Forest
  import opened Surgery
  import opened Walks
  import opened Frames
  import opened FrameLaws
  import opened SelectionLaws

  // ------------------------------------------------------------ what a reply says

  // The nodes of a reply, each before those it holds. A node without an id is
  // skipped with all it holds.
  function Nodes(t: FrameTree): seq<FrameTree>
    decreases t, 1
  {
    if t.Name() == "" then [] else [t] + RowNodes(t.childFrames)
  }

  function RowNodes(ts: seq<FrameTree>): seq<FrameTree>
    decreases ts, 0
  {
    if ts == [] then [] else Nodes(ts[0]) + RowNodes(ts[1..])
  }

  // The node that names x; the last of them, where several do.
  function Naming(ns: seq<FrameTree>, x: Id): Option<FrameTree> {
    if ns == [] then None
    else
      var later := Naming(ns[1..], x);
      if later.Some? then later else if ns[0].Name() == x then Some(ns[0]) else None
  }

  lemma {:induction false} NamingConcat(a: seq<FrameTree>, b: seq<FrameTree>, x: Id)
    ensures Naming(a + b, x) == if Naming(b, x).Some? then Naming(b, x) else Naming(a, x)
    decreases |a|
  {
    if a == [] {
      assert a + b == b;
    } else {
      assert (a + b)[1..] == a[1..] + b;
      NamingConcat(a[1..], b, x);
    }
  }

  // How a node of a reply is stored.
  predicate StoredAs(n: Node<Frame>, t: FrameTree, session: Option<Sid>) {
    n.data == Frame(t.url, t.loader, session, None) && n.kids == KidNames(t.childFrames)
  }

  lemma {:induction false} ParseSays(m: FrameMap, t: FrameTree, parent: Option<Id>, session: Option<Sid>, x: Id)
    ensures x in Parse(m, t, parent, session) <==> x in m || Naming(Nodes(t), x).Some?
    ensures x in Parse(m, t, parent, session) ==>
              match Naming(Nodes(t), x)
              case Some(n) => StoredAs(Parse(m, t, parent, session)[x], n, session)
              case None => Parse(m, t, parent, session)[x] == m[x]
    decreases t, 1
  {
    if t.Name() != "" {
      var one := m[t.Name() := Node(parent, KidNames(t.childFrames), Frame(t.url, t.loader, session, None))];
      RowSays(one, t.childFrames, t.Name(), session, x);
      NamingConcat([t], RowNodes(t.childFrames), x);
      assert [t][1..] == [];
    }
  }

  lemma {:induction false} RowSays(m: FrameMap, ts: seq<FrameTree>, parent: Id, session: Option<Sid>, x: Id)
    ensures x in ParseRow(m, ts, parent, session) <==> x in m || Naming(RowNodes(ts), x).Some?
    ensures x in ParseRow(m, ts, parent, session) ==>
              match Naming(RowNodes(ts), x)
              case Some(n) => StoredAs(ParseRow(m, ts, parent, session)[x], n, session)
              case None => ParseRow(m, ts, parent, session)[x] == m[x]
    decreases ts, 0
  {
    if ts == [] {
      assert ParseRow(m, ts, parent, session) == m;
    } else {
      ParseSays(m, ts[0], Some(parent), session, x);
      RowSays(Parse(m, ts[0], Some(parent), session), ts[1..], parent, session, x);
      NamingConcat(Nodes(ts[0]), RowNodes(ts[1..]), x);
    }
  }

  function Names(ns: seq<FrameTree>): seq<Id> {
    if ns == [] then [] else [ns[0].Name()] + Names(ns[1..])
  }

  lemma {:induction false} NamesConcat(a: seq<FrameTree>, b: seq<FrameTree>)
    ensures Names(a + b) == Names(a) + Names(b)
    decreases |a|
  {
    if a == [] {
      assert a + b == b;
    } else {
      assert (a + b)[1..] == a[1..] + b;
      NamesConcat(a[1..], b);
    }
  }

  lemma {:induction false} NamesAreIds(t: FrameTree)
    ensures Names(Nodes(t)) == Ids(t)
    decreases t, 1
  {
    if t.Name() != "" {
      NamesConcat([t], RowNodes(t.childFrames));
      assert [t][1..] == [];
      RowNamesAreIds(t.childFrames);
    }
  }

  lemma {:induction false} RowNamesAreIds(ts: seq<FrameTree>)
    ensures Names(RowNodes(ts)) == RowIds(ts)
    decreases ts, 0
  {
    if ts != [] {
      NamesAreIds(ts[0]);
      RowNamesAreIds(ts[1..]);
      NamesConcat(Nodes(ts[0]), RowNodes(ts[1..]));
    }
  }

  lemma {:induction false} NamesAt(ns: seq<FrameTree>)
    ensures |Names(ns)| == |ns| && forall i :: 0 <= i < |ns| ==> Names(ns)[i] == ns[i].Name()
    decreases |ns|
  {
    if ns != [] { NamesAt(ns[1..]); }
  }

  // Where the names are all different, each node is the one of its name.
  lemma {:induction false} NamingItself(ns: seq<FrameTree>, i: nat)
    requires Distinct(Names(ns)) && i < |ns|
    ensures Naming(ns, ns[i].Name()) == Some(ns[i])
    decreases |ns|
  {
    NamesAt(ns);
    DistinctParts([Names(ns)[0]], Names(ns[1..]));
    if i > 0 {
      NamingItself(ns[1..], i - 1);
    } else {
      NamingNone(ns[1..], ns[0].Name());
    }
  }

  lemma {:induction false} NamingNone(ns: seq<FrameTree>, x: Id)
    requires x !in Names(ns)
    ensures Naming(ns, x) == None
    decreases |ns|
  {
    if ns != [] { NamingNone(ns[1..], x); }
  }

  // ------------------------------------------------------------ what an event says

  // What is said of a frame: each part, or nothing about that part.
  datatype News = News(url: Option<string>, loader: Option<string>, session: Option<Option<Sid>>,
                       context: Option<Option<int>>)

  const SILENCE: News := News(None, None, None, None)

  function All(url: string, loader: string, session: Option<Sid>): News {
    News(Some(url), Some(loader), Some(session), Some(None))
  }

  function ReplySays(t: FrameTree, session: Option<Sid>, x: Id): News {
    match Naming(Nodes(t), x)
    case None => SILENCE
    case Some(n) => All(n.url, n.loader, session)
  }

  // A frame that a navigation finds, and does not have to make.
  ghost predicate IsKnown(s: State, x: Id) {
    x in s.frames && !Below(s.frames, x, x)
  }

  // What e, arriving in s, says of the frame x: a reply says all of each frame it
  // names; an attach makes a blank frame; a navigation says the URL and the loader it
  // has, of a new frame all there is to say; a default context is the frame's until
  // it is destroyed or cleared on the frame's session.
  ghost function Says(s: State, e: Event, x: Id): News {
    match e
    case TreeRead(t) => ReplySays(t, None, x)
    case Spliced(t, session) =>
      if t.Name() != "" && t.parentId.GetOr("") != "" && t.parentId.GetOr("") in s.frames
      then ReplySays(t, Some(session), x) else SILENCE
    case Attached(y, _) => if y == x then All("", "", None) else SILENCE
    case Navigated(y, _, url, loader) =>
      if y != x then SILENCE
      else if IsKnown(s, x) then News(url, loader, None, None)
      else All(url.GetOr(""), loader.GetOr(""), None)
    case WithinDocument(y, url) => if y == x then SILENCE.(url := url) else SILENCE
    case ContextCreated(_, context, frame, isDefault) =>
      if frame == Some(x) && isDefault && context.Some? then SILENCE.(context := Some(context)) else SILENCE
    case ContextDestroyed(on, context) =>
      if x in s.frames && s.frames[x].data.session == on && context.Some? && s.frames[x].data.context == context
         && (on, context.value) in s.contexts && s.contexts[(on, context.value)] == x
      then SILENCE.(context := Some(None)) else SILENCE
    case ContextsCleared(on) =>
      if x in s.frames && s.frames[x].data.session == on then SILENCE.(context := Some(None)) else SILENCE
    case _ => SILENCE
  }

  // What x carries after the news, and before it if it was mapped.
  predicate Carries(now: Frame, was: Option<Frame>, news: News) {
    && (news == SILENCE ==> was == Some(now))
    && (was.None? ==> news.url.Some? && news.loader.Some? && news.session.Some? && news.context.Some?)
    && now.url == (if news.url.Some? then news.url.value else if was.Some? then was.value.url else "")
    && now.loader == (if news.loader.Some? then news.loader.value else if was.Some? then was.value.loader else "")
    && now.session == (if news.session.Some? then news.session.value else if was.Some? then was.value.session else None)
    && now.context == (if news.context.Some? then news.context.value else if was.Some? then was.value.context else None)
  }

  ghost function DataOf(s: State, x: Id): Option<Frame> {
    if x in s.frames then Some(s.frames[x].data) else None
  }

  lemma SpliceSays(s: State, t: FrameTree, session: Sid, x: Id)
    requires CanSplice(s.frames, t) && x in Splice(s.frames, t, session)
    ensures Carries(Splice(s.frames, t, session)[x].data, DataOf(s, x), ReplySays(t, Some(session), x))
  {
    hide Parse, Nodes, Naming, Below;
    ParseSays(Drop(s.frames, t.Name()), t, t.parentId, Some(session), x);
  }

  lemma ReadSays(s: State, t: FrameTree, x: Id)
    requires x in Parse(map[], t, None, None)
    ensures Carries(Parse(map[], t, None, None)[x].data, DataOf(s, x), ReplySays(t, None, x))
  {
    hide Parse, Nodes, Naming;
    ParseSays(map[], t, None, None, x);
  }

  lemma AttachSays(s: State, y: Id, p: Id, x: Id)
    requires x in Attach(s.frames, y, p)
    ensures Carries(Attach(s.frames, y, p)[x].data, DataOf(s, x), Says(s, Attached(y, p), x))
  {
    hide Below, AtOrBelow;
    AtOrBelowStep(s.frames, p, y);
  }

  lemma NavigateSays(s: State, y: Id, p: Option<Id>, url: Option<string>, loader: Option<string>, x: Id)
    requires x in Navigate(s.frames, s.root, y, p, url, loader)
    ensures Carries(Navigate(s.frames, s.root, y, p, url, loader)[x].data, DataOf(s, x),
                    Says(s, Navigated(y, p, url, loader), x))
  {
    hide AtOrBelow, Below;
  }

  // Events that move no frame.
  lemma DataSays(s: State, e: Event, matches: Matcher, x: Id)
    requires "" !in s.frames && x in Apply(s, e, matches).frames
    requires e.WithinDocument? || e.ContextCreated? || e.ContextDestroyed? || e.ContextsCleared? || e.Select? || e.Reset?
    ensures Carries(Apply(s, e, matches).frames[x].data, DataOf(s, x), Says(s, e, x))
  {
    hide Resolve, Kept, Parse, Splice, Navigate, Attach, Detach, DropAll;
  }

  lemma LostSays(s: State, r: FrameMap, x: Id)
    requires x in r ==> x in s.frames && r[x].data == s.frames[x].data
    ensures x in r ==> Carries(r[x].data, DataOf(s, x), SILENCE)
  {
  }

  // One event: each frame that is there afterwards carries what the event said of
  // it, and for the rest what it carried before; what the event is silent about is
  // left alone.
  lemma StepSays(s: State, e: Event, matches: Matcher, x: Id)
    requires "" !in s.frames && x in Apply(s, e, matches).frames
    ensures Carries(Apply(s, e, matches).frames[x].data, DataOf(s, x), Says(s, e, x))
  {
    hide Carries, Says, Resolve, Kept, Below;
    var r := Apply(s, e, matches).frames;
    LostSays(s, s.frames, x);
    match e
    case TreeRead(t) =>
      ReadSays(s, t, x);
      assert Says(s, e, x) == ReplySays(t, None, x) by { SaysOfReply(s, t, x); }
    case Spliced(t, session) =>
      SaysOfSplice(s, t, session, x);
      if CanSplice(s.frames, t) { SpliceSays(s, t, session, x); }
    case Attached(y, p) => AttachedSays(s, y, p, matches, x);
    case Navigated(y, p, url, loader) => NavigatedSays(s, y, p, url, loader, matches, x);
    case Detached(y) =>
      SaysNothing(s, e, x);
      LostSays(s, r, x);
    case SessionGone(_) =>
      SaysNothing(s, e, x);
      LostSays(s, r, x);
    case _ => DataSays(s, e, matches, x);
  }

  lemma SaysOfReply(s: State, t: FrameTree, x: Id)
    ensures Says(s, TreeRead(t), x) == ReplySays(t, None, x)
  {
  }

  lemma SaysOfSplice(s: State, t: FrameTree, session: Sid, x: Id)
    ensures Says(s, Spliced(t, session), x) ==
            if CanSplice(s.frames, t) then ReplySays(t, Some(session), x) else SILENCE
  {
  }

  lemma SaysNothing(s: State, e: Event, x: Id)
    requires e.Detached? || e.SessionGone?
    ensures Says(s, e, x) == SILENCE
  {
  }

  lemma AttachedSays(s: State, y: Id, p: Id, matches: Matcher, x: Id)
    requires "" !in s.frames && x in Apply(s, Attached(y, p), matches).frames
    ensures Carries(Apply(s, Attached(y, p), matches).frames[x].data, DataOf(s, x), Says(s, Attached(y, p), x))
  {
    hide Carries, Attach, Kept;
    if y == "" {
      LostSays(s, s.frames, x);
    } else {
      AttachSays(s, y, p, x);
    }
  }

  lemma NavigatedSays(s: State, y: Id, p: Option<Id>, url: Option<string>, loader: Option<string>,
                      matches: Matcher, x: Id)
    requires "" !in s.frames && x in Apply(s, Navigated(y, p, url, loader), matches).frames
    ensures Carries(Apply(s, Navigated(y, p, url, loader), matches).frames[x].data, DataOf(s, x),
                    Says(s, Navigated(y, p, url, loader), x))
  {
    hide Carries, Navigate, Kept, Resolve;
    if y == "" {
      LostSays(s, s.frames, x);
    } else {
      NavigateSays(s, y, p, url, loader, x);
    }
  }

  // --------------------------------------------------------- which frames there are

  // The frame y goes with all below it, and comes back under p if p stays.
  ghost predicate Comes(m: FrameMap, y: Id, p: Id) {
    p != "" && p in m && p != y && !Below(m, p, y)
  }

  // x is mapped once e has arrived in s: a reply of the page leaves its own frames
  // and no other; a splice, its own and all that were not below its root; an attach
  // takes the frame with all below it and brings it back if it can be hung; a detach
  // takes them; a navigation takes what is below and makes a frame it can hang, or
  // the first root; a departure takes what its session answered for and all below.
  ghost predicate MappedAfter(s: State, e: Event, x: Id) {
    var m := s.frames;
    match e
    case TreeRead(t) => x in Ids(t)
    case Spliced(t, _) =>
      if t.Name() != "" && t.parentId.GetOr("") != "" && t.parentId.GetOr("") in m
      then x in Ids(t) || (x in m && x != t.Name() && !Below(m, x, t.Name()))
      else x in m
    case Attached(y, p) =>
      if y == "" then x in m else (x in m && x != y && !Below(m, x, y)) || (x == y && Comes(m, y, p))
    case Detached(y) => x in m && (y == "" || (x != y && !Below(m, x, y)))
    case Navigated(y, p, _, _) =>
      if y == "" then x in m
      else (x in m && !Below(m, x, y))
           || (x == y && ((p.GetOr("") in m && !Below(m, p.GetOr(""), y)) || (p.None? && s.root.None?)))
    case SessionGone(k) =>
      && x in m && m[x].data.session != Some(k)
      && forall a :: a in m && m[a].data.session == Some(k) ==> !Below(m, x, a)
    case _ => x in m
  }

  lemma StepMaps(s: State, e: Event, matches: Matcher, x: Id)
    requires "" !in s.frames
    ensures x in Apply(s, e, matches).frames <==> MappedAfter(s, e, x)
  {
    hide Resolve, Kept, AtOrBelow, Below, Parse, Ids, Attach, Navigate, Splice, DropAll;
    match e
    case TreeRead(t) => ParseAdds(map[], t, None, None);
    case Spliced(t, session) => if CanSplice(s.frames, t) { SpliceMaps(s.frames, t, session, x); }
    case Attached(y, p) => AttachMaps(s.frames, y, p, x);
    case Navigated(y, p, url, loader) => if y != "" { NavigateMaps(s, y, p, url, loader, x); }
    case SessionGone(k) => GoneMaps(s.frames, k, x);
    case _ =>
  }

  lemma SpliceMaps(m: FrameMap, t: FrameTree, session: Sid, x: Id)
    requires CanSplice(m, t)
    ensures x in Splice(m, t, session) <==> x in Ids(t) || (x in m && x != t.Name() && !Below(m, x, t.Name()))
  {
    hide Parse, Ids, Below;
    ParseAdds(Drop(m, t.Name()), t, t.parentId, Some(session));
  }

  lemma AttachMaps(m: FrameMap, y: Id, p: Id, x: Id)
    ensures x in Attach(m, y, p) <==> (x in m && x != y && !Below(m, x, y)) || (x == y && Comes(m, y, p))
  {
    hide AtOrBelow, Below;
    AtOrBelowStep(m, p, y);
  }

  lemma NavigateMaps(s: State, y: Id, p: Option<Id>, url: Option<string>, loader: Option<string>, x: Id)
    requires "" !in s.frames && y != ""
    ensures x in Navigate(s.frames, s.root, y, p, url, loader) <==>
            (x in s.frames && !Below(s.frames, x, y))
            || (x == y && ((p.GetOr("") in s.frames && !Below(s.frames, p.GetOr(""), y)) || (p.None? && s.root.None?)))
  {
    hide AtOrBelow, Below;
  }

  lemma GoneMaps(m: FrameMap, k: Sid, x: Id)
    ensures x in DropAll(m, Answering(m, k)) <==>
            && x in m && m[x].data.session != Some(k)
            && forall a :: a in m && m[a].data.session == Some(k) ==> !Below(m, x, a)
  {
    hide AtOrBelow, Below, WithoutAll;
  }

  // ----------------------------------------------------------- where a frame hangs

  // What e hangs on p: the frame it brings, if it brings one there.
  ghost predicate HungOn(s: State, e: Event, p: Id, y: Id) {
    match e
    case Attached(z, q) => y == z && p == q && y != "" && Comes(s.frames, y, p)
    case Spliced(t, _) =>
      && y == t.Name() && y != "" && t.parentId == Some(p) && p != "" && p in s.frames
      && p != y && !Below(s.frames, p, y) && p !in Ids(t)
    case Navigated(z, q, _, _) => y == z && y != "" && q == Some(p) && y !in s.frames && p in s.frames
    case _ => false
  }

  // It becomes the last of its parent's children and names it as its parent; the
  // others keep their order.
  lemma HangsLast(s: State, e: Event, matches: Matcher, p: Id, y: Id)
    requires Consistent(s) && Sane(s, e) && HungOn(s, e, p, y)
    ensures var m, r := s.frames, Apply(s, e, matches).frames;
            && p in r && r[p].kids == Without(m[p].kids, y) + [y]
            && y in r && r[y].parent == Some(p)
  {
    hide Resolve, Kept, Ids, Below;
    match e
    case Attached(_, _) => AtOrBelowStep(s.frames, p, y);
    case Spliced(t, session) => SpliceHangs(s.frames, t, session);
    case Navigated(_, _, _, _) => NewHangs(s.frames, s.root, p, y);
  }

  lemma SpliceHangs(m: FrameMap, t: FrameTree, session: Sid)
    requires IsForest(m) && CanSplice(m, t) && t.parentId.value !in Ids(t)
    requires Distinct(Ids(t)) && BringsFreshIds(m, t) && !AtOrBelow(m, t.parentId.value, t.Name())
    ensures var (p, y, r) := (t.parentId.value, t.Name(), Splice(m, t, session));
            && p in r && r[p].kids == Without(m[p].kids, y) + [y]
            && y in r && r[y].parent == Some(p)
  {
    hide Parse, Ids, BringsFreshIds, AtOrBelow;
    SpliceIsGraft(m, Depths(m), t, session);
    ParsedParents(t, t.parentId.value, Some(session));
  }

  // In a tree an unmapped frame is below nothing, and nobody's child.
  lemma NewHangs(m: FrameMap, root: Option<Id>, p: Id, y: Id)
    requires IsTree(m, root) && p in m && y !in m
    ensures Without(m[p].kids, y) == m[p].kids && Forgotten(m, y) == m
  {
    ForgetChildless(m, Depths(m), y);
    assert Placed(m, Depths(m), p);
  }

  // Every frame that stays, and is not brought again, keeps its parent.
  lemma OthersHang(s: State, e: Event, matches: Matcher, x: Id)
    requires Consistent(s) && x in s.frames && x in Apply(s, e, matches).frames
    requires Says(s, e, x).session.None?
    ensures Apply(s, e, matches).frames[x].parent == s.frames[x].parent
  {
    hide Resolve, Kept, Ids, Below, Parse, Nodes, Naming, Attach, Navigate, Splice, DropAll, Says;
    match e
    case TreeRead(t) => ReadAgain(s, t, x);
    case Spliced(t, session) => if CanSplice(s.frames, t) { SplicedAgain(s, t, session, x); }
    case Attached(y, p) => AttachedAgain(s, y, p, x);
    case Navigated(y, p, url, loader) => if y != "" { NavigatedAgain(s, y, p, url, loader, x); }
    case Detached(y) => DetachIsDrop(s.frames, s.root, y);
    case SessionGone(k) => GoneAgain(s.frames, Answering(s.frames, k), x);
    case _ =>
  }

  lemma ReadAgain(s: State, t: FrameTree, x: Id)
    requires x in Parse(map[], t, None, None)
    ensures Says(s, TreeRead(t), x).session.Some?
  {
    hide Parse, Nodes, Naming;
    ParseSays(map[], t, None, None, x);
  }

  lemma SplicedAgain(s: State, t: FrameTree, session: Sid, x: Id)
    requires CanSplice(s.frames, t) && x in Splice(s.frames, t, session)
    requires Says(s, Spliced(t, session), x).session.None?
    ensures x in s.frames && Splice(s.frames, t, session)[x].parent == s.frames[x].parent
  {
    hide Parse, Nodes, Naming, Below;
    ParseSays(Drop(s.frames, t.Name()), t, t.parentId, Some(session), x);
  }

  lemma AttachedAgain(s: State, y: Id, p: Id, x: Id)
    requires y != "" ==> x in Attach(s.frames, y, p)
    requires Says(s, Attached(y, p), x).session.None?
    ensures y != "" ==> x in s.frames && Attach(s.frames, y, p)[x].parent == s.frames[x].parent
  {
    hide Below, AtOrBelow;
    AtOrBelowStep(s.frames, p, y);
  }

  lemma NavigatedAgain(s: State, y: Id, p: Option<Id>, url: Option<string>, loader: Option<string>, x: Id)
    requires x in Navigate(s.frames, s.root, y, p, url, loader)
    requires Says(s, Navigated(y, p, url, loader), x).session.None? && "" !in s.frames
    ensures y != "" ==> x in s.frames && Navigate(s.frames, s.root, y, p, url, loader)[x].parent == s.frames[x].parent
  {
    hide Below;
  }

  lemma GoneAgain(m: FrameMap, gone: set<Id>, x: Id)
    requires x in DropAll(m, gone)
    ensures x in m && DropAll(m, gone)[x].parent == m[x].parent
  {
  }

  // ------------------------------------------------------------------- over a run

  lemma {:induction false} RunSnoc(s: State, es: seq<Event>, e: Event, matches: Matcher)
    ensures Run(s, es + [e], matches) == Apply(Run(s, es, matches), e, matches)
    decreases |es|
  {
    hide Apply;
    if es == [] {
      assert [] + [e] == [e] && [e][1..] == [];
      assert Run(Apply(s, e, matches), [e][1..], matches) == Apply(s, e, matches);
    } else {
      assert (es + [e])[1..] == es[1..] + [e];
      RunSnoc(Apply(s, es[0], matches), es[1..], e, matches);
    }
  }

  // What the run has said of x, event by event.
  ghost function Heard(es: seq<Event>, matches: Matcher, x: Id): (r: seq<News>)
    ensures |r| == |es|
    decreases |es|
  {
    if es == [] then []
    else
      var init := es[..|es| - 1];
      Heard(init, matches, x) + [Says(Run(NOTHING_YET, init, matches), es[|es| - 1], x)]
  }

  lemma {:induction false} HeardAt(es: seq<Event>, matches: Matcher, x: Id, i: nat)
    requires i < |es|
    ensures Heard(es, matches, x)[i] == Says(Run(NOTHING_YET, es[..i], matches), es[i], x)
    decreases |es|
  {
    var init := es[..|es| - 1];
    if i < |init| {
      HeardAt(init, matches, x, i);
      assert init[..i] == es[..i];
    } else {
      assert init == es[..i];
    }
  }

  // v is the last thing said.
  ghost predicate LastSaid<T(!new)>(said: seq<Option<T>>, v: T) {
    exists i :: 0 <= i < |said| && said[i] == Some(v) && forall j :: i < j < |said| ==> said[j].None?
  }

  lemma LastSaidSnoc<T(!new)>(said: seq<Option<T>>, next: Option<T>, v: T)
    requires if next.Some? then next == Some(v) else LastSaid(said, v)
    ensures LastSaid(said + [next], v)
  {
    var all := said + [next];
    if next.Some? {
      assert all[|said|] == Some(v);
    } else {
      var i :| 0 <= i < |said| && said[i] == Some(v) && forall j :: i < j < |said| ==> said[j].None?;
      assert all[i] == Some(v);
    }
  }

  function Urls(news: seq<News>): (r: seq<Option<string>>)
    ensures |r| == |news| && forall i :: 0 <= i < |news| ==> r[i] == news[i].url
  {
    seq(|news|, i requires 0 <= i < |news| => news[i].url)
  }

  function Loaders(news: seq<News>): (r: seq<Option<string>>)
    ensures |r| == |news| && forall i :: 0 <= i < |news| ==> r[i] == news[i].loader
  {
    seq(|news|, i requires 0 <= i < |news| => news[i].loader)
  }

  function Sessions(news: seq<News>): (r: seq<Option<Option<Sid>>>)
    ensures |r| == |news| && forall i :: 0 <= i < |news| ==> r[i] == news[i].session
  {
    seq(|news|, i requires 0 <= i < |news| => news[i].session)
  }

  function Contexts(news: seq<News>): (r: seq<Option<Option<int>>>)
    ensures |r| == |news| && forall i :: 0 <= i < |news| ==> r[i] == news[i].context
  {
    seq(|news|, i requires 0 <= i < |news| => news[i].context)
  }

  ghost predicate IsLatest(news: seq<News>, data: Frame) {
    && LastSaid(Urls(news), data.url) && LastSaid(Loaders(news), data.loader)
    && LastSaid(Sessions(news), data.session) && LastSaid(Contexts(news), data.context)
  }

  lemma LatestSnoc(news: seq<News>, next: News, now: Frame, was: Option<Frame>)
    requires Carries(now, was, next) && (was.Some? ==> IsLatest(news, was.value))
    ensures IsLatest(news + [next], now)
  {
    hide LastSaid;
    var all := news + [next];
    assert Urls(all) == Urls(news) + [next.url] && Loaders(all) == Loaders(news) + [next.loader];
    assert Sessions(all) == Sessions(news) + [next.session] && Contexts(all) == Contexts(news) + [next.context];
    LastSaidSnoc(Urls(news), next.url, now.url);
    LastSaidSnoc(Loaders(news), next.loader, now.loader);
    LastSaidSnoc(Sessions(news), next.session, now.session);
    LastSaidSnoc(Contexts(news), next.context, now.context);
  }

  lemma {:induction false} RunNoBlank(es: seq<Event>, matches: Matcher)
    ensures "" !in Run(NOTHING_YET, es, matches).frames
    decreases |es|
  {
    if es == [] {
      assert Run(NOTHING_YET, es, matches) == NOTHING_YET;
    } else {
      hide Apply;
      var init, e := es[..|es| - 1], es[|es| - 1];
      assert es == init + [e];
      RunSnoc(NOTHING_YET, init, e, matches);
      RunNoBlank(init, matches);
      StepNoBlank(Run(NOTHING_YET, init, matches), e, matches);
    }
  }

  lemma StepNoBlank(s: State, e: Event, matches: Matcher)
    requires "" !in s.frames
    ensures "" !in Apply(s, e, matches).frames
  {
    hide Apply, Ids;
    StepMaps(s, e, matches, "");
    match e
    case TreeRead(t) => NoBlankIds(t);
    case Spliced(t, _) => NoBlankIds(t);
    case _ =>
  }

  // After any run, whatever it did: the URL of a mapped frame is the one last said of
  // it, by the reply, navigation or attach that made it or by a navigation since; and
  // so are its loader, the session that answers for it, and its context.
  lemma {:induction false} FrameCarriesLatest(es: seq<Event>, matches: Matcher, x: Id)
    requires x in Run(NOTHING_YET, es, matches).frames
    ensures IsLatest(Heard(es, matches, x), Run(NOTHING_YET, es, matches).frames[x].data)
    decreases |es|
  {
    if es == [] {
      assert false;
    } else {
      hide Apply, Says, Carries, IsLatest;
      var init, e := es[..|es| - 1], es[|es| - 1];
      assert es == init + [e];
      var s := Run(NOTHING_YET, init, matches);
      RunSnoc(NOTHING_YET, init, e, matches);
      RunNoBlank(init, matches);
      StepSays(s, e, matches, x);
      if x in s.frames { FrameCarriesLatest(init, matches, x); }
      LatestSnoc(Heard(init, matches, x), Says(s, e, x), Apply(s, e, matches).frames[x].data, DataOf(s, x));
    }
  }

  // ------------------------------------------------------------------- selection

  // The frame y is lost to e: it lay below the frame the event is about, or was that
  // frame and went.
  ghost predicate Loses(s: State, e: Event, y: Id) {
    match e
    case Attached(x, p) => x != "" && ((y in s.frames && Below(s.frames, y, x)) || (y == x && !Comes(s.frames, x, p)))
    case Detached(x) => x != "" && (y == x || (y in s.frames && Below(s.frames, y, x)))
    case Navigated(x, _, _, _) => x != "" && y in s.frames && Below(s.frames, y, x)
    case Spliced(t, _) =>
      && t.Name() != "" && t.parentId.GetOr("") != "" && t.parentId.GetOr("") in s.frames
      && y in s.frames && Below(s.frames, y, t.Name())
    case _ => false
  }

  // An event that resolves nothing again leaves the selection, unless it loses the
  // selected frame; only a selection and a reset touch the pattern; and only the
  // page's reply and a first parentless navigation name a root.
  lemma SelectionStays(s: State, e: Event, matches: Matcher)
    requires "" !in s.frames
    ensures var r := Apply(s, e, matches);
            && (!Repoints(s, e) && !e.Reset? ==>
                  r.selected == if s.selected.Some? && Loses(s, e, s.selected.value) then None else s.selected)
            && (e.Reset? ==> r.selected == None && r.pattern == None)
            && (e.Select? ==> r.pattern == Some(e.pattern))
            && (!e.Reset? && !e.Select? ==> r.pattern == s.pattern)
            && r.root == (if e.TreeRead? then e.tree.id
                          else if e.Navigated? && e.id != "" && !IsKnown(s, e.id) && e.parentId.None? && s.root.None?
                          then Some(e.id) else s.root)
  {
    hide AtOrBelow, Below, Resolve;
    if e.Attached? { AtOrBelowStep(s.frames, e.parent, e.id); }
  }

  // ------------------------------------------------------------ the order of a reply

  // Each node is stored with its children in the order the reply has them.
  ghost predicate Stores(m: FrameMap, ns: seq<FrameTree>) {
    forall n :: n in ns ==> n.Name() in m && m[n.Name()].kids == KidNames(n.childFrames)
  }

  lemma {:induction false} WalkIsReply(m: FrameMap, d: map<Id, nat>, t: FrameTree)
    requires DepthMap(m, d) && Stores(m, Nodes(t)) && t.Name() != "" && t.Name() in m
    ensures Pre(m, d, t.Name()) == Names(Nodes(t))
    decreases t, 1
  {
    assert t in Nodes(t);
    KidLevels(m, d, t.Name());
    RowIsReply(m, d, t.childFrames, d[t.Name()] + 1);
    NamesConcat([t], RowNodes(t.childFrames));
    assert [t][1..] == [];
  }

  lemma {:induction false} RowIsReply(m: FrameMap, d: map<Id, nat>, ts: seq<FrameTree>, lvl: nat)
    requires DepthMap(m, d) && Stores(m, RowNodes(ts))
    requires forall k :: k in KidNames(ts) ==> k in m && d[k] == lvl
    ensures PreRow(m, d, KidNames(ts), lvl) == Names(RowNodes(ts))
    decreases ts, 0
  {
    if ts != [] {
      NamesConcat(Nodes(ts[0]), RowNodes(ts[1..]));
      KidNamesSplit(ts);
      RowIsReply(m, d, ts[1..], lvl);
      if ts[0].Name() != "" {
        assert ts[0] in Nodes(ts[0]);
        WalkIsReply(m, d, ts[0]);
        assert KidNames(ts)[1..] == KidNames(ts[1..]);
      } else {
        assert KidNames(ts) == KidNames(ts[1..]);
        assert Names(Nodes(ts[0])) == [];
      }
    }
  }

  lemma KidNamesSplit(ts: seq<FrameTree>)
    requires ts != []
    ensures KidNames(ts) == (if ts[0].Name() == "" then [] else [ts[0].Name()]) + KidNames(ts[1..])
  {
  }

  lemma ParseStores(t: FrameTree, parent: Option<Id>, session: Option<Sid>)
    requires Distinct(Ids(t))
    ensures Stores(Parse(map[], t, parent, session), Nodes(t))
  {
    NamesAreIds(t);
    forall n | n in Nodes(t)
      ensures var m := Parse(map[], t, parent, session);
              n.Name() in m && m[n.Name()].kids == KidNames(n.childFrames)
    {
      var i :| 0 <= i < |Nodes(t)| && Nodes(t)[i] == n;
      NamingItself(Nodes(t), i);
      ParseSays(map[], t, parent, session, n.Name());
    }
  }

  // The page's reply is listed in its own order: each frame before those it holds, and
  // these in the order the reply holds them.
  lemma ReplyIsListedInOrder(s: State, t: FrameTree, matches: Matcher)
    requires Distinct(Ids(t)) && t.Name() != ""
    ensures var r := Apply(s, TreeRead(t), matches);
            Reachable(r.frames, r.root) == Names(Nodes(t))
  {
    var m, x := Parse(map[], t, None, None), t.Name();
    hide Parse, Listing;
    ParseIsTree(t, None);
    ParseStores(t, None, None);
    NamesAreIds(t);
    ParseAdds(map[], t, None, None);
    assert x in Ids(t);
    ListingIsPreOrder(m, x);
    WalkIsReply(m, Depths(m), t);
  }

  // And so is a child session's, where it is hung.
  lemma SpliceIsListedInOrder(s: State, t: FrameTree, session: Sid, matches: Matcher)
    requires Consistent(s) && CanSplice(s.frames, t) && Sane(s, Spliced(t, session))
    ensures var m := Apply(s, Spliced(t, session), matches).frames;
            IsForest(m) && t.Name() in m && PreOrder(m, t.Name()) == Names(Nodes(t))
  {
    hide Parse, Ids, BringsFreshIds, AtOrBelow;
    var m, p := Apply(s, Spliced(t, session), matches).frames, t.parentId.value;
    FrameLaws.StepKeepsTree(s, Spliced(t, session), matches);
    SpliceIsGraft(s.frames, Depths(s.frames), t, session);
    ParseStores(t, Some(p), Some(session));
    WalkIsReply(m, Depths(m), t);
  }

  // ------------------------------------------------------------------- contexts

  // The frame a context was last announced for.
  ghost predicate FiledFor(es: seq<Event>, k: Key, x: Id) {
    exists i :: 0 <= i < |es| && Creates(es[i], k) && es[i].frame == Some(x)
      && forall j :: i < j < |es| ==> !Creates(es[j], k) && !Ends(es[j], k)
  }

  lemma {:induction false} ContextIsFiled(es: seq<Event>, matches: Matcher, k: Key)
    requires k in Run(NOTHING_YET, es, matches).contexts
    ensures FiledFor(es, k, Run(NOTHING_YET, es, matches).contexts[k])
    decreases |es|
  {
    if es == [] {
      assert false;
    } else {
      var init, e := es[..|es| - 1], es[|es| - 1];
      assert es == init + [e];
      var s := Run(NOTHING_YET, init, matches);
      RunSnoc(NOTHING_YET, init, e, matches);
      FiledStep(s, e, matches, k);
      hide Apply;
      if Creates(e, k) {
        assert es[|init|] == e;
      } else {
        ContextIsFiled(init, matches, k);
        var i :| 0 <= i < |init| && Creates(init[i], k) && init[i].frame == Some(s.contexts[k])
                 && forall j :: i < j < |init| ==> !Creates(init[j], k) && !Ends(init[j], k);
        assert es[i] == init[i];
      }
    }
  }

  lemma FiledStep(s: State, e: Event, matches: Matcher, k: Key)
    requires k in Apply(s, e, matches).contexts
    ensures var r := Apply(s, e, matches);
            if Creates(e, k) then e.frame == Some(r.contexts[k])
            else !Ends(e, k) && k in s.contexts && r.contexts[k] == s.contexts[k]
  {
  }

  // ------------------------------------------------------------------- documents

  // The i-th document of the list: its token is made from its frame's id and the
  // loader last reported, its session is the one last said, and it names its parent's
  // token, made the same way.
  lemma DocumentsFollowReports(es: seq<Event>, matches: Matcher, tokens: Tokens, x: Id)
    requires x in Run(NOTHING_YET, es, matches).frames
    ensures var m := Run(NOTHING_YET, es, matches).frames;
            var d := DocumentOf(m, x, tokens);
            && d.frameId == x
            && (exists loader :: LastSaid(Loaders(Heard(es, matches, x)), loader) && d.token == tokens(x, loader))
            && LastSaid(Sessions(Heard(es, matches, x)), d.session)
            && (m[x].parent.Some? && m[x].parent.value in m ==>
                 var p := m[x].parent.value;
                 d.parentId == Some(p) && d.parentToken.Some?
                 && LastSaid(Sessions(Heard(es, matches, p)), d.parentSession)
                 && exists loader :: LastSaid(Loaders(Heard(es, matches, p)), loader)
                                     && d.parentToken.value == tokens(p, loader))
  {
    hide Heard, LastSaid, Run;
    var m := Run(NOTHING_YET, es, matches).frames;
    FrameCarriesLatest(es, matches, x);
    if m[x].parent.Some? && m[x].parent.value in m {
      FrameCarriesLatest(es, matches, m[x].parent.value);
    }
  }
}

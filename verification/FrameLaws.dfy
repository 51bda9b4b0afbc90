// What every run of frame events keeps, and exactly when a splice keeps it.
module FrameLaws {
  import opened Prelude
  import opened Forest
  import opened Surgery
  import opened Walks
  import opened Frames

  // ------------------------------------------------------- the tree, over runs

  // Whether a map is a tree depends on its links alone.
  lemma SameLinks(m: FrameMap, r: FrameMap, root: Option<Id>)
    requires IsTree(m, root) && r.Keys == m.Keys
    requires forall x :: x in m ==> r[x].parent == m[x].parent && r[x].kids == m[x].kids
    ensures IsTree(r, root)
  {
    var d := Depths(m);
    forall x | x in r ensures Placed(r, d, x) {
      assert Placed(m, d, x);
    }
    assert DepthMap(r, d);
  }

  lemma NoBlankIds(t: FrameTree)
    ensures "" !in Ids(t)
  {
    KidNamesAreIds(t.childFrames);
  }

  lemma ReadKeepsTree(t: FrameTree)
    requires Distinct(Ids(t))
    ensures IsTree(Parse(map[], t, None, None), t.id) && "" !in Parse(map[], t, None, None)
  {
    ParseIsTree(t, None);
    ParseAdds(map[], t, None, None);
    NoBlankIds(t);
  }

  lemma SpliceKeepsIds(m: FrameMap, t: FrameTree, session: Sid)
    requires CanSplice(m, t) && "" !in m
    ensures "" !in Splice(m, t, session)
  {
    ParseAdds(Drop(m, t.Name()), t, t.parentId, Some(session));
    NoBlankIds(t);
  }

  lemma NavigatedKeepsTree(s: State, x: Id, p: Option<Id>, url: Option<string>, loader: Option<string>, matches: Matcher)
    requires Consistent(s)
    ensures Consistent(Apply(s, Navigated(x, p, url, loader), matches))
  {
    hide IsTree, Resolve, Kept;
    ForgetInTree(s.frames, s.root, x);
    NavigateKeepsTree(s.frames, s.root, x, p, url, loader);
  }

  lemma ForgetInTree(m: FrameMap, root: Option<Id>, x: Id)
    requires IsTree(m, root)
    ensures x in m ==> x in Forgotten(m, x)
    ensures x !in m ==> Forgotten(m, x) == m
  {
    ForgetChildless(m, Depths(m), x);
  }

  lemma DataKeepsTree(s: State, e: Event, matches: Matcher)
    requires Consistent(s)
    requires e.WithinDocument? || e.ContextCreated? || e.ContextDestroyed? || e.ContextsCleared? || e.Select? || e.Reset?
    ensures Consistent(Apply(s, e, matches))
  {
    hide IsTree, Resolve, Drop, DropAll, Parse, Splice, Navigate, Attach, Detach;
    SameLinks(s.frames, Apply(s, e, matches).frames, s.root);
  }

  lemma StepKeepsTree(s: State, e: Event, matches: Matcher)
    requires Consistent(s) && Sane(s, e)
    ensures Consistent(Apply(s, e, matches))
  {
    match e
    case TreeRead(t) =>
      ReadKeepsTree(t);
    case Attached(x, p) =>
      AttachKeepsTree(s.frames, s.root, x, p);
    case Detached(x) =>
      DetachIsDrop(s.frames, s.root, x);
      DropKeepsTree(s.frames, s.root, x);
    case Navigated(x, p, url, loader) =>
      NavigatedKeepsTree(s, x, p, url, loader, matches);
    case Spliced(t, session) =>
      if CanSplice(s.frames, t) {
        SpliceKeepsTree(s.frames, s.root, t, session);
        SpliceKeepsIds(s.frames, t, session);
      }
    case SessionGone(session) =>
      DropAllKeepsTree(s.frames, s.root, Answering(s.frames, session));
    case _ =>
      DataKeepsTree(s, e, matches);
  }

  ghost function Run(s: State, es: seq<Event>, matches: Matcher): State
    decreases |es|
  {
    if es == [] then s else Run(Apply(s, es[0], matches), es[1..], matches)
  }

  ghost predicate SaneRun(s: State, es: seq<Event>, matches: Matcher)
    decreases |es|
  {
    es != [] ==> Sane(s, es[0]) && SaneRun(Apply(s, es[0], matches), es[1..], matches)
  }

  ghost const NOTHING_YET: State := State(map[], None, None, None, map[])

  lemma {:induction false} RunKeepsTree(s: State, es: seq<Event>, matches: Matcher)
    requires Consistent(s) && SaneRun(s, es, matches)
    ensures Consistent(Run(s, es, matches))
    decreases |es|
  {
    if es != [] {
      StepKeepsTree(s, es[0], matches);
      RunKeepsTree(Apply(s, es[0], matches), es[1..], matches);
    }
  }

  // After any run from an empty manager: the parent links and the children
  // lists describe one acyclic tree, and every mapped frame hangs, through its
  // parents, from the root.
  lemma EveryMappedFrameIsReachable(es: seq<Event>, matches: Matcher, x: Id)
    requires SaneRun(NOTHING_YET, es, matches)
    ensures var s := Run(NOTHING_YET, es, matches);
            && IsTree(s.frames, s.root)
            && (x in s.frames ==>
                 && s.root.Some?
                 && s.root.value in s.frames
                 && AtOrBelow(s.frames, x, s.root.value)
                 && x in Reachable(s.frames, s.root))
  {
    assert DepthMap(NOTHING_YET.frames, map[]);
    RunKeepsTree(NOTHING_YET, es, matches);
    var s := Run(NOTHING_YET, es, matches);
    if x in s.frames {
      ReachableFromRoot(s.frames, s.root, x);
      ListingIsPreOrder(s.frames, s.root.value);
      WalkIsComplete(s.frames, s.root.value);
    }
  }

  // ------------------------------------------------------------- the listing

  lemma ElementsSplit<T(!new)>(a: seq<T>, x: T, b: seq<T>)
    requires Distinct(a + ([x] + b))
    ensures x !in a && Distinct((a + [x]) + b)
  {
    DistinctParts(a, [x] + b);
    assert x in [x] + b;
    assert a + ([x] + b) == (a + [x]) + b;
  }

  lemma {:induction false} ListingFrom(m: FrameMap, d: map<Id, nat>, stack: seq<Id>, done: seq<Id>)
    requires DepthMap(m, d)
    requires forall x :: x in stack ==> x in m
    requires Distinct(done + Pending(m, d, stack))
    ensures Listing(m, stack, Elems(done)) == Pending(m, d, stack)
    decreases m.Keys - Elems(done), |stack|
  {
    if stack != [] {
      var x, rest := stack[|stack| - 1], stack[..|stack| - 1];
      KidLevels(m, d, x);
      var row := PreRow(m, d, m[x].kids, d[x] + 1);
      assert Pending(m, d, stack) == [x] + (row + Pending(m, d, rest));
      ElementsSplit(done, x, row + Pending(m, d, rest));
      PendingPush(m, d, rest, m[x].kids, d[x] + 1);
      assert Elems(done + [x]) == Elems(done) + {x};
      assert x in m.Keys - Elems(done) && x !in m.Keys - Elems(done + [x]);
      ListingFrom(m, d, rest + Reverse(m[x].kids), done + [x]);
    }
  }

  // Under the tree invariant the stack walk lists the document order: the root,
  // then the subtrees of its children in turn.
  lemma ListingIsPreOrder(m: FrameMap, root: Id)
    requires IsTree(m, Some(root)) && root in m
    ensures Reachable(m, Some(root)) == PreOrder(m, root)
  {
    var d := Depths(m);
    PreDistinct(m, d, root);
    assert Pending(m, d, []) == [];
    assert [root][..0] == [];
    assert Pending(m, d, [root]) == Pre(m, d, root) + [];
    assert [] + Pending(m, d, [root]) == Pre(m, d, root);
    ListingFrom(m, d, [root], []);
    assert Elems<Id>([]) == {};
  }

  lemma {:induction false} ListedInMap(m: FrameMap, stack: seq<Id>, seen: set<Id>)
    ensures forall x :: x in Listing(m, stack, seen) ==> x in m
    decreases m.Keys - seen, |stack|
  {
    if stack != [] {
      var x, rest := stack[|stack| - 1], stack[..|stack| - 1];
      if x !in m || x in seen {
        ListedInMap(m, rest, seen);
      } else {
        ListedInMap(m, rest + Reverse(m[x].kids), seen + {x});
      }
    }
  }

  lemma ListingInMap(m: FrameMap, root: Option<Id>)
    ensures forall x :: x in Reachable(m, root) ==> x in m
  {
    if root.Some? {
      ListedInMap(m, [root.value], {});
    }
  }

  // ------------------------------------------------- the recursive flat list

  // What the recursive walk lists at x: its subtree in document order, each
  // frame with its depth. Nothing for an id the map does not hold.
  ghost function Subtree(m: FrameMap, x: Id): seq<(Id, nat)>
    requires IsForest(m)
  {
    if x in m then
      PreInMap(m, x);
      Tagged(PreOrder(m, x), Depths(m))
    else []
  }

  ghost function SubtreeRow(m: FrameMap, ks: seq<Id>): seq<(Id, nat)>
    requires IsForest(m)
  {
    if ks == [] then [] else Subtree(m, ks[0]) + SubtreeRow(m, ks[1..])
  }

  lemma PreInMap(m: FrameMap, x: Id)
    requires IsForest(m) && x in m
    ensures forall y :: y in PreOrder(m, x) ==> y in m
  {
    forall y | y in PreOrder(m, x) ensures y in m {
      PreMembers(m, Depths(m), x, y);
    }
  }

  lemma {:induction false} SubtreeRowSnoc(m: FrameMap, ks: seq<Id>, i: nat)
    requires IsForest(m) && i < |ks|
    ensures SubtreeRow(m, ks[..i + 1]) == SubtreeRow(m, ks[..i]) + Subtree(m, ks[i])
    decreases i
  {
    hide Subtree, IsForest;
    if i == 0 {
      assert ks[..1] == [ks[0]] && [ks[0]][1..] == [];
    } else {
      assert ks[..i + 1][1..] == ks[1..][..i] && ks[..i][1..] == ks[1..][..i - 1];
      SubtreeRowSnoc(m, ks[1..], i - 1);
    }
  }

  lemma TaggedConcat(a: seq<Id>, b: seq<Id>, d: map<Id, nat>)
    requires forall x :: x in a + b ==> x in d
    ensures forall x :: x in a ==> x in d
    ensures forall x :: x in b ==> x in d
    ensures Tagged(a + b, d) == Tagged(a, d) + Tagged(b, d)
  {
    assert forall x :: x in a ==> x in a + b;
    assert forall x :: x in b ==> x in a + b;
  }

  lemma {:induction false} SubtreeRowIsRow(m: FrameMap, ks: seq<Id>, lvl: nat)
    requires IsForest(m)
    requires forall k :: k in ks ==> k in m && Depths(m)[k] == lvl
    ensures forall y :: y in PreRow(m, Depths(m), ks, lvl) ==> y in m
    ensures SubtreeRow(m, ks) == Tagged(PreRow(m, Depths(m), ks, lvl), Depths(m))
    decreases |ks|
  {
    if ks != [] {
      hide Tagged, Pre;
      PreInMap(m, ks[0]);
      SubtreeRowIsRow(m, ks[1..], lvl);
      TaggedConcat(PreOrder(m, ks[0]), PreRow(m, Depths(m), ks[1..], lvl), Depths(m));
    }
  }

  lemma SubtreeNothing(m: FrameMap, x: Id)
    requires IsForest(m)
    ensures x !in m ==> Subtree(m, x) == []
    ensures SubtreeRow(m, []) == []
  {
  }

  lemma SubtreeUnfold(m: FrameMap, x: Id)
    requires IsForest(m) && x in m
    ensures Subtree(m, x) == [(x, Depths(m)[x])] + SubtreeRow(m, m[x].kids)
  {
    hide Pre, PreRow, SubtreeRow, IsForest, Depths, Tagged, Placed;
    var d := Depths(m);
    KidLevels(m, d, x);
    PreInMap(m, x);
    SubtreeRowIsRow(m, m[x].kids, d[x] + 1);
    TaggedConcat([x], PreRow(m, d, m[x].kids, d[x] + 1), d);
    TaggedOne(x, d);
  }

  lemma TaggedOne(x: Id, d: map<Id, nat>)
    requires x in d
    ensures Tagged([x], d) == [(x, d[x])]
  {
    assert [x][1..] == [];
  }

  // The recursive walk from the root and the stack walk list the same frames in
  // the same order.
  lemma FlatIsListing(m: FrameMap, root: Option<Id>)
    requires IsTree(m, root)
    ensures forall x :: x in Reachable(m, root) ==> x in m
    ensures root.Some? && root.value in m ==> Depths(m)[root.value] == 0
    ensures (if root.Some? then Subtree(m, root.value) else []) == Tagged(Reachable(m, root), Depths(m))
  {
    ListingInMap(m, root);
    if root.Some? {
      if root.value in m {
        assert Placed(m, Depths(m), root.value);
        ListingIsPreOrder(m, root.value);
      } else {
        assert Listing(m, [root.value], {}) == Listing(m, [root.value][..0], {});
      }
    }
  }

  // The order a stitched read relies on: after the root's, every document
  // follows the document that owns it.
  lemma OwnersComeFirst(m: FrameMap, root: Id, tokens: Tokens, i: nat) returns (j: nat)
    requires IsTree(m, Some(root)) && root in m && "" !in m
    requires i < |Reachable(m, Some(root))|
    ensures forall x :: x in Reachable(m, Some(root)) ==> x in m
    ensures var all := Reachable(m, Some(root));
            var here := DocumentOf(m, all[i], tokens);
            if i == 0 then here.parentId == None && here.parentToken == None
            else j < i && var owner := DocumentOf(m, all[j], tokens);
                 && here.parentId == Some(owner.frameId)
                 && here.parentToken == Some(owner.token)
                 && here.parentSession == owner.session
  {
    ListingInMap(m, Some(root));
    ListingIsPreOrder(m, root);
    var d := Depths(m);
    j := 0;
    if i > 0 {
      j := ParentFirst(m, d, root, i);
      PreMembers(m, d, root, Pre(m, d, root)[j]);
    } else {
      KidLevels(m, d, root);
      assert Reachable(m, Some(root))[0] == root;
    }
  }

  // ---------------------------------------------------------------- the depth

  // How many parent links lead from x to the root, stopping at a repeated frame.
  ghost function DepthWalk(m: FrameMap, x: Id, seen: set<Id>): nat
    decreases m.Keys - seen
  {
    if x !in m || x in seen || m[x].parent.GetOr("") == "" then 0
    else 1 + DepthWalk(m, m[x].parent.value, seen + {x})
  }

  // In a tree that is the frame's depth.
  lemma {:induction false} DepthWalkIsDepth(m: FrameMap, d: map<Id, nat>, x: Id, seen: set<Id>)
    requires DepthMap(m, d) && x in m && "" !in m
    requires forall y :: y in seen ==> y in m && d[y] > d[x]
    ensures DepthWalk(m, x, seen) == d[x]
    decreases d[x]
  {
    assert Placed(m, d, x);
    if m[x].parent.Some? {
      DepthWalkIsDepth(m, d, m[x].parent.value, seen + {x});
    }
  }

  // ------------------------------------------------- exactly when a splice is safe

  lemma Shallowest(s: set<Id>, d: map<Id, nat>) returns (y: Id)
    requires s != {} && s <= d.Keys
    ensures y in s && forall z :: z in s ==> d[y] <= d[z]
    decreases |s|
  {
    y :| y in s;
    if s != {y} {
      var rest := s - {y};
      assert rest != {};
      var z := Shallowest(rest, d);
      y := if d[y] <= d[z] then y else z;
    }
  }

  // In a parsed reply the root hangs from the given parent and every other node
  // from a node of the reply.
  lemma ParsedParents(t: FrameTree, p: Id, session: Option<Sid>)
    requires t.Name() != "" && Distinct(Ids(t))
    ensures var b := Parse(map[], t, Some(p), session);
            && b.Keys == Elems(Ids(t)) && t.Name() in b
            && b[t.Name()].parent == Some(p)
            && forall y :: y in b && y != t.Name() ==> b[y].parent.Some? && b[y].parent.value in b
  {
    var x := t.Name();
    DistinctParts([x], RowIds(t.childFrames));
    ParseAdds(map[], t, Some(p), session);
    RowHangs(t.childFrames, x, session, 1);
    var row := ParseRow(map[], t.childFrames, x, session);
    var one: FrameMap := map[x := Node(Some(p), KidNames(t.childFrames), Frame(t.url, t.loader, session, None))];
    ParseRowAdds(one, t.childFrames, x, session);
    assert map[][x := one[x]] == one;
    assert Parse(map[], t, Some(p), session) == one + row;
    forall y | y in row ensures row[y].parent.Some? && (row[y].parent.value == x || row[y].parent.value in row) {
      assert Hung(row, RowDepths(t.childFrames, 1), x, KidNames(t.childFrames), y);
    }
  }

  lemma SpliceBelowItself(m: FrameMap, root: Option<Id>, t: FrameTree, session: Sid)
    requires IsTree(m, root) && CanSplice(m, t) && Distinct(Ids(t))
    requires AtOrBelow(m, t.parentId.value, t.Name())
    ensures !IsTree(Splice(m, t, session), root)
  {
    var x, p := t.Name(), t.parentId.value;
    var left := Drop(m, x);
    SubtreeGone(m, Depths(m), x, p);
    ParseAdds(left, t, Some(p), Some(session));
    ParsedParents(t, p, Some(session));
    var b := Parse(map[], t, Some(p), Some(session));
    var r := Splice(m, t, session);
    assert r == left + b;
    forall d: map<Id, nat> ensures !DepthMap(r, d) {
      if d.Keys == r.Keys {
        var y := Shallowest(b.Keys, d);
        assert !Placed(r, d, y);
      }
    }
  }

  // The reply's ids that name frames outside the replaced subtree; the one
  // nearest the root is held by a frame the reply does not touch.
  lemma ForeignId(m: FrameMap, t: FrameTree) returns (y: Id)
    requires IsForest(m) && Distinct(Ids(t)) && !BringsFreshIds(m, t)
    ensures y in Ids(t) && y in Drop(m, t.Name()) && y != t.Name()
    ensures m[y].parent.Some? ==>
              var q := m[y].parent.value;
              q in Drop(m, t.Name()) && q !in Ids(t) && y in Drop(m, t.Name())[q].kids
  {
    var x, d := t.Name(), Depths(m);
    var over := set z | z in Ids(t) && z in m && !AtOrBelow(m, z, x);
    var w :| w in Ids(t) && w in m && !AtOrBelow(m, w, x);
    assert w in over;
    y := Shallowest(over, d);
    SubtreeGone(m, d, x, y);
    AtOrBelowStep(m, x, x);
    AtOrBelowStep(m, y, x);
    assert Placed(m, d, y);
    if m[y].parent.Some? {
      SubtreeGone(m, d, x, m[y].parent.value);
    }
  }

  lemma SpliceOverOthers(m: FrameMap, root: Option<Id>, t: FrameTree, session: Sid)
    requires IsTree(m, root) && CanSplice(m, t) && Distinct(Ids(t))
    requires !BringsFreshIds(m, t)
    ensures !IsTree(Splice(m, t, session), root)
  {
    var p, left := t.parentId.value, Drop(m, t.Name());
    ParseAdds(left, t, Some(p), Some(session));
    ParsedParents(t, p, Some(session));
    var b := Parse(map[], t, Some(p), Some(session));
    var r := Splice(m, t, session);
    var y := ForeignId(m, t);
    assert r[y].parent == b[y].parent && r[y].parent.Some?;
    if m[y].parent.Some? {
      var q := m[y].parent.value;
      assert y in r[q].kids;
      assert r[y].parent != Some(q);
      forall d: map<Id, nat> ensures !DepthMap(r, d) {
        if d.Keys == r.Keys {
          assert !Placed(r, d, q);
        }
      }
    }
  }

  // ------------------------------------------------- replies with repeated ids

  // One map that keeps both forms in step.
  ghost predicate Linked(f: FrameMap) {
    forall x :: x in f ==>
      Distinct(f[x].kids) && forall k :: k in f[x].kids ==> k in f && f[k].parent == Some(x)
  }

  lemma ForestIsLinked(f: FrameMap)
    requires IsForest(f)
    ensures Linked(f)
  {
    var d := Depths(f);
    assert forall x :: x in f ==> Placed(f, d, x);
  }

  // Every entry of part is the one f has.
  ghost predicate Stores(f: FrameMap, part: FrameMap) {
    forall x :: x in part ==> x in f && f[x] == part[x]
  }

  // later is what was stored after the row, some of it perhaps over the row; above
  // are the frames the row lies in. If the two forms agree in what came of it, the
  // row repeats no id, and nothing was stored over it.
  lemma {:induction false} RowDistinct(f: FrameMap, ts: seq<FrameTree>, p: Id, session: Option<Sid>,
                                       later: FrameMap, above: set<Id>)
    requires Linked(f) && Stores(f, ParseRow(map[], ts, p, session) + later)
    requires Distinct(KidNames(ts)) && forall k :: k in KidNames(ts) ==> k in f && f[k].parent == Some(p)
    requires p !in later && p !in above && p !in RowIds(ts) && forall x :: x in RowIds(ts) ==> x !in above
    requires forall w :: w in later ==> later[w].parent.Some? && later[w].parent.value in above + later.Keys
    ensures Distinct(RowIds(ts)) && forall x :: x in RowIds(ts) ==> x !in later
    decreases ts, 0
  {
    if ts == [] {
      assert RowIds(ts) == [];
    } else {
      var rest := ParseRow(map[], ts[1..], p, session);
      ParseAdds(map[], ts[0], Some(p), session);
      ParseRowAdds(Parse(map[], ts[0], Some(p), session), ts[1..], p, session);
      ParseRowAdds(map[], ts[1..], p, session);
      KidNamesTail(ts);
      RowDistinct(f, ts[1..], p, session, later, above);
      if ts[0].Name() != "" {
        FirstDistinct(f, ts, p, session, rest, later, above);
        DistinctConcat(Ids(ts[0]), RowIds(ts[1..]));
      }
    }
  }

  lemma KidNamesTail(ts: seq<FrameTree>)
    requires ts != [] && Distinct(KidNames(ts))
    ensures Distinct(KidNames(ts[1..])) && forall k :: k in KidNames(ts[1..]) ==> k in KidNames(ts)
    ensures ts[0].Name() != "" ==> ts[0].Name() in KidNames(ts) && ts[0].Name() !in KidNames(ts[1..])
  {
    DistinctParts(if ts[0].Name() == "" then [] else [ts[0].Name()], KidNames(ts[1..]));
    if ts[0].Name() != "" { assert ts[0].Name() in [ts[0].Name()]; }
  }

  lemma {:induction false} FirstDistinct(f: FrameMap, ts: seq<FrameTree>, p: Id, session: Option<Sid>, rest: FrameMap,
                                         later: FrameMap, above: set<Id>)
    requires ts != [] && ts[0].Name() != ""
    requires Linked(f) && Stores(f, Parse(map[], ts[0], Some(p), session) + (rest + later))
    requires rest == ParseRow(map[], ts[1..], p, session)
    requires rest.Keys == Elems(RowIds(ts[1..])) && rest.Keys !! later.Keys
    requires Distinct(KidNames(ts)) && forall k :: k in KidNames(ts) ==> k in f && f[k].parent == Some(p)
    requires p !in later && p !in above && p !in RowIds(ts) && forall x :: x in RowIds(ts) ==> x !in above
    requires forall w :: w in later ==> later[w].parent.Some? && later[w].parent.value in above + later.Keys
    ensures Distinct(Ids(ts[0])) && forall x :: x in Ids(ts[0]) ==> x !in rest && x !in later
    decreases ts[0], 1
  {
    var t, x, after := ts[0], ts[0].Name(), rest + later;
    var row := ParseRow(map[], t.childFrames, x, session);
    KidNamesTail(ts);
    ParseSplit(t, Some(p), session);
    IdsSplit(t);
    assert RowIds(ts) == Ids(t) + RowIds(ts[1..]);
    assert x in Ids(t);
    assert x !in after by {
      if x in rest && x !in later { RowParents(ts[1..], p, session, x); }
    }
    assert x !in row by {
      if x in row { RowParents(t.childFrames, x, session, x); }
    }
    assert f[x].kids == KidNames(t.childFrames);
    forall w | w in after ensures after[w].parent.Some? && after[w].parent.value in (above + {p}) + after.Keys {
      if w !in later { RowParents(ts[1..], p, session, w); }
    }
    RowDistinct(f, t.childFrames, x, session, after, above + {p});
    DistinctConcat([x], RowIds(t.childFrames));
  }

  // A reply whose root is its own, parsed into links that agree, repeats no id.
  lemma ReplyDistinct(f: FrameMap, t: FrameTree, parent: Option<Id>, session: Option<Sid>)
    requires Linked(f) && Stores(f, Parse(map[], t, parent, session))
    requires t.Name() != "" && t.Name() !in RowIds(t.childFrames)
    ensures Distinct(Ids(t))
  {
    ParseSplit(t, parent, session);
    IdsSplit(t);
    RowDistinct(f, t.childFrames, t.Name(), session, map[], {});
    DistinctConcat([t.Name()], RowIds(t.childFrames));
  }

  // A set of frames none of which has its parent outside, is in no forest.
  lemma NoTop(f: FrameMap, s: set<Id>, x: Id)
    requires x in s && s <= f.Keys
    requires forall y :: y in s ==> f[y].parent.Some? && f[y].parent.value in s
    ensures !IsForest(f)
  {
    forall d: map<Id, nat> ensures !DepthMap(f, d) {
      if d.Keys == f.Keys {
        var y := Shallowest(s, d);
        assert !Placed(f, d, y);
      }
    }
  }

  lemma SpliceDistinct(m: FrameMap, t: FrameTree, session: Sid)
    requires CanSplice(m, t) && IsForest(Splice(m, t, session))
    ensures Distinct(Ids(t))
  {
    var x, p, r := t.Name(), t.parentId.value, Splice(m, t, session);
    var b := Parse(map[], t, Some(p), Some(session));
    ParseAdds(Drop(m, x), t, Some(p), Some(session));
    IdsSplit(t);
    assert x in Ids(t);
    assert Stores(r, b);
    if p in Ids(t) || x in RowIds(t.childFrames) {
      forall y | y in b ensures b[y].parent.Some? && b[y].parent.value in b {
        BlockParents(t, Some(p), Some(session), y);
        if y == x && x in RowIds(t.childFrames) {
          ParseSplit(t, Some(p), Some(session));
          RowParents(t.childFrames, x, Some(session), x);
        }
      }
      NoTop(r, b.Keys, x);
    } else {
      ForestIsLinked(r);
      ReplyDistinct(r, t, Some(p), Some(session));
    }
  }

  // The page session's own tree is one tree exactly when it repeats no id.
  lemma TreeReadSafeIff(t: FrameTree)
    ensures IsTree(Parse(map[], t, None, None), t.id) <==> Distinct(Ids(t))
  {
    if Distinct(Ids(t)) {
      ParseIsTree(t, None);
    } else if IsTree(Parse(map[], t, None, None), t.id) {
      var b, x := Parse(map[], t, None, None), t.Name();
      ParseSplit(t, None, None);
      if x in RowIds(t.childFrames) {
        RowParents(t.childFrames, x, None, x);
      }
      ForestIsLinked(b);
      ReplyDistinct(b, t, None, None);
    }
  }

  // splice_session_tree has no guard of its own against hanging a frame below
  // itself, unlike handle_frame_attached. It keeps the tree exactly when the reply
  // repeats no id, the parent is outside the replaced subtree, and no id of the
  // reply names a frame elsewhere.
  lemma SpliceSafeIff(m: FrameMap, root: Option<Id>, t: FrameTree, session: Sid)
    requires IsTree(m, root) && CanSplice(m, t)
    ensures IsTree(Splice(m, t, session), root) <==>
            Distinct(Ids(t)) && !AtOrBelow(m, t.parentId.value, t.Name()) && BringsFreshIds(m, t)
  {
    if !Distinct(Ids(t)) {
      if IsTree(Splice(m, t, session), root) { SpliceDistinct(m, t, session); }
    } else if AtOrBelow(m, t.parentId.value, t.Name()) {
      SpliceBelowItself(m, root, t, session);
    } else if BringsFreshIds(m, t) {
      SpliceKeepsTree(m, root, t, session);
    } else {
      SpliceOverOthers(m, root, t, session);
    }
  }
}

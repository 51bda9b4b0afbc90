// The frame manager itself: frame objects held in a map and in each other's
// children lists, edited in place by one method per event. Each method is
// proved to do to the objects what Frames says the event does to the tree.
module FrameManagers {
  import opened Prelude
  import opened Forest
  import opened Surgery
  import opened Walks
  import opened Frames
  import opened FrameLaws

  class FrameInfo {
    const frameId: Id
    var url: string
    var loader: string
    var parentId: Option<Id>
    var context: Option<int>
    var session: Option<Sid>
    var children: seq<FrameInfo>

    constructor (frameId: Id, url: string, loader: string, parentId: Option<Id>, session: Option<Sid>)
      ensures this.frameId == frameId && children == []
      ensures View() == Node(parentId, [], Frame(url, loader, session, None))
    {
      this.frameId := frameId;
      this.url := url;
      this.loader := loader;
      this.parentId := parentId;
      this.context := None;
      this.session := session;
      this.children := [];
    }

    function View(): Node<Frame>
      reads this
    {
      Node(parentId, Names(children), Frame(url, loader, session, context))
    }
  }

  function Names(fs: seq<FrameInfo>): (r: seq<Id>)
    ensures |r| == |fs| && forall i :: 0 <= i < |fs| ==> r[i] == fs[i].frameId
  {
    if fs == [] then [] else [fs[0].frameId] + Names(fs[1..])
  }

  function OtherThan(fs: seq<FrameInfo>, x: Id): (r: seq<FrameInfo>)
    ensures Names(r) == Without(Names(fs), x)
  {
    if fs == [] then []
    else if fs[0].frameId == x then OtherThan(fs[1..], x)
    else
      var r := [fs[0]] + OtherThan(fs[1..], x);
      assert r[1..] == OtherThan(fs[1..], x);
      r
  }

  class FrameManager {
    var frames: map<Id, FrameInfo>
    var root: Option<Id>
    var selected: Option<Id>
    var pattern: Option<string>
    var contexts: map<(Option<Sid>, int), Id>
    const matches: Matcher
    ghost var Repr: set<FrameInfo>  // the frame objects this manager has made

    // Every object is filed under its own id, so no object is filed twice.
    ghost predicate Keyed()
      reads this`frames, this`Repr
    {
      forall x :: x in frames ==> x != "" && frames[x] in Repr && frames[x].frameId == x
    }

    ghost function Tree(): FrameMap
      requires Keyed()
      reads this`frames, this`Repr, Repr
    {
      map x | x in frames :: frames[x].View()
    }

    ghost function Now(): State
      requires Keyed()
      reads this, Repr
    {
      State(Tree(), root, selected, pattern, contexts)
    }

    constructor (matches: Matcher)
      ensures Keyed() && Now() == NOTHING_YET && this.matches == matches && Repr == {}
    {
      Repr := {};
      frames := map[];
      root, selected, pattern := None, None, None;
      contexts := map[];
      this.matches := matches;
    }

    // ------------------------------------------------------------- in-place edits

    // The frames that name parentId as their parent and are not doomed yet.
    method Claim(parentId: Id, doomed: set<Id>) returns (claimed: seq<Id>)
      requires Keyed()
      ensures Claims(Tree(), parentId, doomed, claimed)
    {
      claimed := [];
      var unseen := frames.Keys;
      while unseen != {}
        invariant unseen <= frames.Keys
        invariant forall x :: x in claimed <==>
                    x in frames.Keys - unseen && frames[x].parentId == Some(parentId) && x !in doomed
        decreases |unseen|
      {
        var candidate :| candidate in unseen;
        unseen := unseen - {candidate};
        if frames[candidate].parentId == Some(parentId) && candidate !in doomed {
          claimed := claimed + [candidate];
        }
      }
    }

    // Everything below frameId by parent links, the frame itself excepted.
    method Doomed(frameId: Id) returns (doomed: set<Id>)
      requires Keyed()
      ensures doomed == Descendants(Tree(), frameId)
    {
      doomed := {};
      var frontier := [frameId];
      while frontier != []
        invariant Sought(Tree(), frameId, doomed, frontier)
        decreases Tree().Keys - doomed, |frontier|
      {
        var parentId := frontier[|frontier| - 1];
        var rest := frontier[..|frontier| - 1];
        var claimed := Claim(parentId, doomed);
        SoughtStep(Tree(), frameId, doomed, frontier, claimed);
        doomed := doomed + Elems(claimed);
        frontier := rest + claimed;
      }
      AllClaimed(Tree(), doomed, frameId);
    }

    method ForgetDescendants(frameId: Id) returns (ghost doomed: set<Id>)
      requires Keyed()
      modifies this`frames, this`selected
      ensures Keyed()
      ensures doomed == Descendants(old(Tree()), frameId)
      ensures frames == old(frames) - doomed && Tree() == old(Tree()) - doomed
      ensures selected == Kept(old(selected), doomed)
    {
      hide FrameInfo.View, Names, Descendants;
      ghost var m := Tree();
      var gone := Doomed(frameId);
      doomed := gone;
      frames := frames - gone;
      assert Tree() == m - gone;
      if selected.Some? && selected.value in gone {
        selected := None;
      }
    }

    method UnlinkEach(frameId: Id)
      requires Keyed()
      modifies Repr`children
      ensures forall x :: x in frames ==>
                frames[x].View() == old(frames[x].View()).(kids := Without(old(frames[x].View().kids), frameId))
    {
      var unseen := frames.Keys;
      while unseen != {}
        invariant unseen <= frames.Keys
        invariant forall x :: x in unseen ==> frames[x].children == old(frames[x].children)
        invariant forall x :: x in frames.Keys - unseen ==>
                    Names(frames[x].children) == Without(old(Names(frames[x].children)), frameId)
        decreases |unseen|
      {
        var x :| x in unseen;
        unseen := unseen - {x};
        UnlinkFrom(frames[x], frameId);
      }
    }

    method Unlink(frameId: Id)
      requires Keyed()
      modifies Repr`children
      ensures Keyed()
      ensures Tree() == Unlinked(old(Tree()), frameId)
    {
      hide FrameInfo.View, Names;
      ghost var m := Tree();
      UnlinkEach(frameId);
      assert Tree() == Unlinked(m, frameId);
    }

    ghost predicate Filed(b: FrameMap)
      requires Keyed()
      reads this`frames, this`Repr, Repr
    {
      forall x :: x in b ==> x in frames && frames[x].View() == b[x]
    }

    method ParseFrameTree(tree: FrameTree, parentId: Option<Id>, session: Option<Sid>) returns (info: FrameInfo?)
      requires Keyed()
      modifies this`frames, this`Repr
      ensures Keyed() && old(Repr) <= Repr && fresh(Repr - old(Repr))
      ensures Grown(old(frames), frames, Ids(tree), old(Repr))
      ensures Filed(Parse(map[], tree, parentId, session))
      ensures info == null <==> tree.Name() == ""
      ensures info != null ==> info.frameId == tree.Name()
      decreases tree, 2
    {
      if tree.Name() == "" {
        return null;
      }
      info := ParseNamed(tree, parentId, session);
    }

    method ParseNamed(tree: FrameTree, parentId: Option<Id>, session: Option<Sid>) returns (info: FrameInfo)
      requires Keyed() && tree.Name() != ""
      modifies this`frames, this`Repr
      ensures Keyed() && old(Repr) <= Repr && fresh(Repr - old(Repr))
      ensures Grown(old(frames), frames, Ids(tree), old(Repr))
      ensures Filed(Parse(map[], tree, parentId, session))
      ensures info.frameId == tree.Name()
      decreases tree, 1
    {
      hide Parse, ParseRow, Ids, RowIds, Grown, Filed, FrameInfo.View, Names;
      var frameId := tree.Name();
      info := File(frameId, tree.url, tree.loader, parentId, session);
      ghost var mid, repr := frames, Repr;
      ParseKids(info, tree.childFrames, session);
      GrownTwice(old(frames), mid, frames, [frameId], RowIds(tree.childFrames), old(Repr), repr);
      GrownKeeps(mid, frames, RowIds(tree.childFrames), repr, frameId);
      IdsSplit(tree);
      FiledTree(info, tree, parentId, session);
    }

    // The node and its row, filed together.
    lemma FiledTree(made: FrameInfo, tree: FrameTree, parentId: Option<Id>, session: Option<Sid>)
      requires Keyed() && tree.Name() != "" && tree.Name() in frames
      requires made.View() == Node(parentId, KidNames(tree.childFrames), Frame(tree.url, tree.loader, session, None))
      requires tree.Name() !in RowIds(tree.childFrames) ==> frames[tree.Name()] == made
      requires Filed(ParseRow(map[], tree.childFrames, tree.Name(), session))
      ensures Filed(Parse(map[], tree, parentId, session))
    {
      hide Filed, FrameInfo.View, Ids, RowIds, Parse, ParseRow;
      ParseSplit(tree, parentId, session);
      FiledOver(tree.Name(), made.View(), ParseRow(map[], tree.childFrames, tree.Name(), session));
    }

    // A new frame under its id, in the place of any that was there.
    method File(frameId: Id, url: string, loader: string, parentId: Option<Id>, session: Option<Sid>)
      returns (made: FrameInfo)
      requires Keyed() && frameId != ""
      modifies this`frames, this`Repr
      ensures Keyed() && made.frameId == frameId && made.children == [] && fresh(made) && Repr == old(Repr) + {made}
      ensures frames == old(frames)[frameId := made] && Grown(old(frames), frames, [frameId], old(Repr))
      ensures made.View() == Node(parentId, [], Frame(url, loader, session, None))
    {
      made := new FrameInfo(frameId, url, loader, parentId, session);
      frames := frames[frameId := made];
      Repr := Repr + {made};
    }

    lemma FiledNothing()
      requires Keyed()
      ensures Filed(map[])
    {
    }

    lemma FiledOver(x: Id, n: Node<Frame>, row: FrameMap)
      requires Keyed() && x in frames && Filed(row) && (x !in row ==> frames[x].View() == n)
      ensures Filed(map[x := n] + row)
    {
    }

    method ParseKids(info: FrameInfo, cs: seq<FrameTree>, session: Option<Sid>)
      requires Keyed() && info.children == [] && info in Repr
      modifies this`frames, this`Repr, info`children
      ensures Keyed() && old(Repr) <= Repr && fresh(Repr - old(Repr))
      ensures Grown(old(frames), frames, RowIds(cs), old(Repr))
      ensures Filed(ParseRow(map[], cs, info.frameId, session))
      ensures info.View() == old(info.View()).(kids := KidNames(cs))
      decreases cs, 0
    {
      hide Grown, Parse, Ids, Filed;
      FiledNothing();
      var i := 0;
      ghost var done, ids := map[], [];
      GrownNothing(frames, Repr);
      while i < |cs|
        invariant 0 <= i <= |cs|
        invariant done == ParseRow(map[], cs[..i], info.frameId, session) && ids == RowIds(cs[..i])
        invariant Keyed() && old(Repr) <= Repr && fresh(Repr - old(Repr))
        invariant Grown(old(frames), frames, ids, old(Repr))
        invariant Filed(done)
        invariant Names(info.children) == KidNames(cs[..i])
      {
        RowGrows(cs, i, info.frameId, session);
        ghost var mid, repr := frames, Repr;
        GrownNew(old(frames), frames, ids, old(Repr));
        ParseKid(info, cs[i], session, done);
        GrownTwice(old(frames), mid, frames, ids, Ids(cs[i]), old(Repr), repr);
        done, ids := done + Parse(map[], cs[i], Some(info.frameId), session), ids + Ids(cs[i]);
        i := i + 1;
      }
      assert cs[..i] == cs;
    }

    method ParseKid(info: FrameInfo, tree: FrameTree, session: Option<Sid>, ghost done: FrameMap)
      requires Keyed() && info in Repr && Filed(done)
      requires forall x :: x in done ==> frames[x] != info
      modifies this`frames, this`Repr, info`children
      ensures Keyed() && old(Repr) <= Repr && fresh(Repr - old(Repr))
      ensures Grown(old(frames), frames, Ids(tree), old(Repr))
      ensures Filed(done + Parse(map[], tree, Some(info.frameId), session))
      ensures Names(info.children) == old(Names(info.children)) + if tree.Name() == "" then [] else [tree.Name()]
      decreases tree, 4
    {
      var child := ParseBeside(tree, info.frameId, session, done);
      if child != null {
        ghost var b := done + Parse(map[], tree, Some(info.frameId), session);
        ParseAdds(map[], tree, Some(info.frameId), session);
        assert forall x :: x in b ==> frames[x] != info;
        info.children := info.children + [child];
      }
    }

    method ParseBeside(tree: FrameTree, parentId: Id, session: Option<Sid>, ghost done: FrameMap)
      returns (child: FrameInfo?)
      requires Keyed() && Filed(done)
      modifies this`frames, this`Repr
      ensures Keyed() && old(Repr) <= Repr && fresh(Repr - old(Repr))
      ensures Grown(old(frames), frames, Ids(tree), old(Repr))
      ensures Filed(done + Parse(map[], tree, Some(parentId), session))
      ensures child == null <==> tree.Name() == ""
      ensures child != null ==> child.frameId == tree.Name()
      decreases tree, 3
    {
      child := ParseFrameTree(tree, Some(parentId), session);
      ParseAdds(map[], tree, Some(parentId), session);
    }

    // ParseFrameTree, seen as a change of the whole tree.
    method Store(tree: FrameTree, parentId: Option<Id>, session: Option<Sid>) returns (info: FrameInfo?)
      requires Keyed()
      modifies this`frames, this`Repr
      ensures Keyed() && old(Repr) <= Repr && fresh(Repr - old(Repr))
      ensures Grown(old(frames), frames, Ids(tree), old(Repr))
      ensures Tree() == Parse(old(Tree()), tree, parentId, session)
      ensures info == null <==> tree.Name() == ""
      ensures info != null ==> info.frameId == tree.Name()
    {
      hide FrameInfo.View, Names, Parse, Ids;
      ghost var m := Tree();
      info := ParseFrameTree(tree, parentId, session);
      ParseAdds(m, tree, parentId, session);
      assert Tree() == m + Parse(map[], tree, parentId, session);
      hide *;
    }

    method DropFrame(frameId: Id) returns (ghost doomed: set<Id>)
      requires Keyed()
      modifies this`frames, this`selected, Repr`children
      ensures Keyed()
      ensures doomed == Descendants(old(Tree()), frameId)
      ensures frames == old(frames) - doomed - {frameId}
      ensures Tree() == Drop(old(Tree()), frameId)
      ensures selected == Kept(old(selected), doomed)
    {
      hide FrameInfo.View, Names, Below, Drop, Unlinked;
      ghost var m := Tree();
      doomed := ForgetDescendants(frameId);
      Unlink(frameId);
      ghost var m' := Tree();
      frames := frames - {frameId};
      assert Tree() == m' - {frameId};
      DropInSteps(m, frameId);
      hide *;
    }

    // Hang an object from another: the tree changes only while the other is
    // still the one the map holds.
    method Append(parent: FrameInfo, child: FrameInfo)
      requires Keyed() && parent in Repr
      modifies parent`children
      ensures Keyed()
      ensures Tree() == if parent.frameId in frames && frames[parent.frameId] == parent
                        then WithKid(old(Tree()), parent.frameId, child.frameId) else old(Tree())
    {
      hide Names;
      ghost var m, kids := Tree(), Names(parent.children);
      AppendNames(parent.children, child);
      parent.children := parent.children + [child];
      if parent.frameId in frames && frames[parent.frameId] == parent {
        assert m[parent.frameId].kids == kids;
        assert Tree() == WithKid(m, parent.frameId, child.frameId);
      } else {
        assert forall x :: x in frames ==> frames[x] != parent;
        assert Tree() == m;
      }
    }

    // ------------------------------------------------------------------ the events

    method UpdateFromFrameTree(tree: FrameTree)
      requires Keyed()
      modifies this, Repr
      ensures Keyed()
      ensures Now() == Apply(old(Now()), TreeRead(tree), matches)
    {
      hide FrameInfo.View, Names, Parse;
      frames := map[];
      assert Tree() == map[];
      var info := Store(tree, None, None);
      root := tree.id;
    }

    method SpliceSessionTree(tree: FrameTree, sessionId: Sid) returns (ok: bool)
      requires Keyed()
      modifies this, Repr
      ensures Keyed() && old(Repr) <= Repr && fresh(Repr - old(Repr))
      ensures ok == CanSplice(old(Tree()), tree)
      ensures Now() == Apply(old(Now()), Spliced(tree, sessionId), matches)
    {
      hide FrameInfo.View, Names, Splice, Descendants;
      var frameId, parentId := tree.Name(), tree.parentId.GetOr("");
      if frameId == "" || parentId == "" || parentId !in frames {
        return false;
      }
      SpliceUnder(tree, parentId, sessionId);
      ok := true;
    }

    method SpliceUnder(tree: FrameTree, parentId: Id, sessionId: Sid)
      requires Keyed() && CanSplice(Tree(), tree) && tree.parentId == Some(parentId)
      modifies this`frames, this`selected, this`Repr, Repr`children
      ensures Keyed() && old(Repr) <= Repr && fresh(Repr - old(Repr))
      ensures Tree() == Splice(old(Tree()), tree, sessionId)
      ensures selected == Kept(old(selected), Descendants(old(Tree()), tree.Name()))
    {
      hide FrameInfo.View, Names, Parse, Drop, Descendants, Ids;
      ghost var m := Tree();
      var parent := frames[parentId];
      ghost var doomed := DropFrame(tree.Name());
      ghost var left := Tree();
      ghost var kept := frames;
      var info := Store(tree, Some(parentId), Some(sessionId));
      assert parentId in left && parentId !in Ids(tree) ==> frames[parentId] == parent;
      assert parentId in frames && frames[parentId] == parent ==> parentId in left && parentId !in Ids(tree);
      Append(parent, info);
    }

    method HandleFrameAttached(frameId: Id, parentId: Id)
      requires Keyed()
      modifies this, Repr
      ensures Keyed() && old(Repr) <= Repr && fresh(Repr - old(Repr))
      ensures Now() == Apply(old(Now()), Attached(frameId, parentId), matches)
    {
      hide FrameInfo.View, Names, Drop, Descendants, AtOrBelow, Attach;
      if frameId == "" {
        return;
      }
      ghost var m := Tree();
      var refused := parentId == "" || parentId !in frames;
      if !refused {
        refused := IsDescendant(parentId, frameId);
      }
      ghost var doomed := DropFrame(frameId);
      if refused {
        if selected == Some(frameId) {
          selected := None;
        }
        AttachRefused(m, frameId, parentId);
        return;
      }
      AttachPlaced(m, frameId, parentId);
      Place(frameId, parentId);
    }

    // A new frame object under a parent the map holds.
    method Place(frameId: Id, parentId: Id)
      requires Keyed() && frameId != "" && parentId in frames && parentId != frameId
      modifies this`frames, this`Repr, Repr`children
      ensures Keyed() && old(Repr) <= Repr && fresh(Repr - old(Repr))
      ensures Tree() == WithKid(old(Tree())[frameId := Fresh(parentId)], parentId, frameId)
    {
      hide Names;
      ghost var m := Tree();
      var info := new FrameInfo(frameId, "", "", Some(parentId), None);
      var parent := frames[parentId];
      frames := frames[frameId := info];
      Repr := Repr + {info};
      assert Tree() == m[frameId := Fresh(parentId)];
      Append(parent, info);
    }

    // Is frameId at or below ancestorId? Ends on any map, cycles included.
    method IsDescendant(frameId: Id, ancestorId: Id) returns (r: bool)
      requires Keyed() && ancestorId != ""
      ensures r <==> AtOrBelow(Tree(), frameId, ancestorId)
    {
      hide Names;
      ghost var m := Tree();
      ghost var n: nat := 0;
      ghost var named := {frameId} + set x | x in m && m[x].parent.Some? :: m[x].parent.value;
      var seen: set<Id> := {};
      var current := Some(frameId);
      while current.GetOr("") != "" && current.value !in seen
        invariant current == Climb(m, frameId, n)
        invariant forall x :: x in seen ==> x != ancestorId && x != ""
        invariant forall x :: x in seen && x in m && m[x].parent.Some? ==>
                    m[x].parent.value in seen || m[x].parent == current
        invariant if n == 0 then seen == {} else frameId in seen
        invariant current.Some? ==> current.value in named
        decreases named - seen
      {
        var c := current.value;
        if c == ancestorId {
          return true;
        }
        ClimbAdd(m, frameId, n, c, 1);
        seen := seen + {c};
        current := if c in frames then frames[c].parentId else None;
        n := n + 1;
        assert Climb(m, c, 1) == current;
      }
      forall k: nat ensures Climb(m, frameId, k) != Some(ancestorId) {
        ClimbWithin(m, seen + {""}, frameId, k);
      }
      r := false;
    }

    // How many frames sit between frameId and the root.
    method DepthOf(frameId: Id) returns (depth: nat)
      requires Keyed()
      ensures depth == DepthWalk(Tree(), frameId, {})
    {
      hide Names;
      ghost var m := Tree();
      depth := 0;
      var seen: set<Id> := {};
      var current := frameId;
      while current in frames && current !in seen
        invariant depth + DepthWalk(m, current, seen) == DepthWalk(m, frameId, {})
        decreases frames.Keys - seen
      {
        var parentId := frames[current].parentId;
        if parentId.GetOr("") == "" {
          break;
        }
        seen := seen + {current};
        current := parentId.value;
        depth := depth + 1;
      }
    }

    method HandleFrameDetached(frameId: Id)
      requires Keyed()
      modifies this, Repr
      ensures Keyed() && Repr == old(Repr)
      ensures Now() == Apply(old(Now()), Detached(frameId), matches)
    {
      hide FrameInfo.View, Names, Descendants, Detach, Tree;
      if frameId == "" {
        return;
      }
      ghost var doomed := TakeOut(frameId);
      if selected == Some(frameId) {
        selected := None;
      }
    }

    // The frame and all below it, out of the map and out of its parent's list.
    method TakeOut(frameId: Id) returns (ghost doomed: set<Id>)
      requires Keyed()
      modifies this`frames, this`selected, Repr`children
      ensures Keyed() && Tree() == Detach(old(Tree()), frameId)
      ensures doomed == Descendants(old(Tree()), frameId) && selected == Kept(old(selected), doomed)
    {
      hide FrameInfo.View, Names, Descendants, Below;
      ghost var m := Tree();
      doomed := ForgetDescendants(frameId);
      ghost var left := Tree();
      var frame: FrameInfo? := if frameId in frames then frames[frameId] else null;
      frames := frames - {frameId};
      assert Tree() == left - {frameId};
      ViewOf(frame, left, frameId);
      if frame != null && frame.parentId.GetOr("") != "" && frame.parentId.value in frames {
        UnlinkAt(frame.parentId.value, frameId);
      }
    }

    method UnlinkAt(parentId: Id, frameId: Id)
      requires Keyed() && parentId in frames
      modifies Repr`children
      ensures Keyed()
      ensures Tree() == var m := old(Tree()); m[parentId := m[parentId].(kids := Without(m[parentId].kids, frameId))]
    {
      hide Names;
      ghost var m := Tree();
      UnlinkFrom(frames[parentId], frameId);
      assert Tree()[parentId].kids == Without(m[parentId].kids, frameId);
      assert Tree() == m[parentId := m[parentId].(kids := Without(m[parentId].kids, frameId))];
    }

    method SessionFor(frameId: Id) returns (r: Option<Sid>)
      requires Keyed()
      ensures r == if frameId in Tree() then Tree()[frameId].data.session else None
    {
      r := if frameId in frames then frames[frameId].session else None;
    }

    // Drop every frame a departed session answered for.
    method ForgetSession(sessionId: Sid) returns (doomed: set<Id>)
      requires Keyed()
      modifies this, Repr
      ensures Keyed() && Repr == old(Repr)
      ensures doomed == Answering(old(Tree()), sessionId)
      ensures Now() == Apply(old(Now()), SessionGone(sessionId), matches)
    {
      hide FrameInfo.View, Names, DropAll, Drop, Descendants;
      doomed := AnsweredBy(sessionId);
      DropEach(doomed);
      ReresolveSelection();
    }

    method DropEach(doomed: set<Id>)
      requires Keyed() && doomed <= frames.Keys
      modifies this`frames, this`selected, Repr`children
      ensures Keyed() && Tree() == DropAll(old(Tree()), doomed)
      ensures selected == Kept(old(selected), old(Tree()).Keys - DropAll(old(Tree()), doomed).Keys)
    {
      hide FrameInfo.View, Names, DropAll, Drop, Descendants, Kept;
      ghost var m := Tree();
      KeptNothing(selected, m);
      ghost var done: set<Id> := {};
      var rest := doomed;
      while rest != {}
        invariant Keyed() && done + rest == doomed
        invariant Tree() == DropAll(m, done)
        invariant selected == Kept(old(selected), m.Keys - DropAll(m, done).Keys)
        decreases |rest|
      {
        var frameId :| frameId in rest;
        rest := rest - {frameId};
        DropOne(frameId, m, done, old(selected));
        done := done + {frameId};
      }
      assert done == doomed;
    }

    // One turn of the loop above, done being the frames already taken.
    method DropOne(frameId: Id, ghost m: FrameMap, ghost done: set<Id>, ghost was: Option<Id>)
      requires Keyed() && frameId in m && Tree() == DropAll(m, done)
      requires selected == Kept(was, m.Keys - DropAll(m, done).Keys)
      modifies this`frames, this`selected, Repr`children
      ensures Keyed() && Tree() == DropAll(m, done + {frameId})
      ensures selected == Kept(was, m.Keys - DropAll(m, done + {frameId}).Keys)
    {
      hide FrameInfo.View, Names, DropAll, Drop, Descendants;
      ghost var gone := DropFrame(frameId);
      DropAllStep(m, done, frameId);
      KeptTwice(m, done, frameId, was, gone);
      if selected == Some(frameId) {
        selected := None;
      }
    }

    method AnsweredBy(sessionId: Sid) returns (r: set<Id>)
      requires Keyed()
      ensures r == Answering(Tree(), sessionId)
    {
      r := set x | x in frames && frames[x].session == Some(sessionId);
    }

    // ------------------------------------------------------------------ selection

    method ReachableFrames() returns (reachable: seq<Id>)
      requires Keyed()
      ensures reachable == Reachable(Tree(), root)
    {
      hide FrameInfo.View;
      reachable := [];
      if root.None? {
        return;
      }
      var seen: set<Id> := {};
      var frontier := [root.value];
      while frontier != []
        invariant reachable + Listing(Tree(), frontier, seen) == Reachable(Tree(), root)
        decreases frames.Keys - seen, |frontier|
      {
        var x, rest := frontier[|frontier| - 1], frontier[..|frontier| - 1];
        if x !in frames || x in seen {
          frontier := rest;
        } else {
          NamesView(frames[x]);
          seen := seen + {x};
          reachable := reachable + [x];
          frontier := rest + Reverse(Names(frames[x].children));
        }
      }
    }

    method ResolveFrameByUrl(urlPattern: string) returns (r: Option<Id>)
      requires Keyed()
      ensures r == Resolve(Tree(), root, matches, urlPattern)
    {
      hide Names, Listing, Reachable;
      var all := ReachableFrames();
      var i := 0;
      while i < |all|
        invariant 0 <= i <= |all|
        invariant FirstMatch(Tree(), all[i..], matches, urlPattern) == Resolve(Tree(), root, matches, urlPattern)
      {
        assert all[i..][1..] == all[i + 1..];
        if all[i] in frames && matches(urlPattern, frames[all[i]].url) {
          return Some(all[i]);
        }
        i := i + 1;
      }
      return None;
    }

    method ReresolveSelection()
      requires Keyed()
      modifies this`selected
      ensures Keyed() && Now() == Reresolved(old(Now()), matches)
    {
      hide FrameInfo.View, Names, Resolve;
      if pattern.GetOr("") == "" {
        return;
      }
      selected := ResolveFrameByUrl(pattern.value);
    }

    method SelectFrameByUrl(urlPattern: string) returns (r: Option<Id>)
      requires Keyed()
      modifies this`selected, this`pattern
      ensures Keyed() && Now() == Apply(old(Now()), Select(urlPattern), matches) && r == selected
    {
      hide FrameInfo.View, Names, Resolve;
      pattern := Some(urlPattern);
      r := ResolveFrameByUrl(urlPattern);
      selected := r;
    }

    method ResetFrame()
      requires Keyed()
      modifies this`selected, this`pattern
      ensures Keyed() && Now() == Apply(old(Now()), Reset, matches)
    {
      selected, pattern := None, None;
    }

    method HandleFrameNavigated(frameId: Id, parentId: Option<Id>, url: Option<string>, loader: Option<string>)
      requires Keyed()
      modifies this, Repr
      ensures Keyed() && old(Repr) <= Repr && fresh(Repr - old(Repr))
      ensures Now() == Apply(old(Now()), Navigated(frameId, parentId, url, loader), matches)
    {
      hide FrameInfo.View, Names, Descendants, Reresolved, Navigate, Kept, FrameManager.Tree;
      if frameId == "" {
        return;
      }
      var known := Arrive(frameId, parentId, url, loader);
      if known {
        ReresolveSelection();
      }
    }

    // The tree's part of a navigation; False when the frame has no place in it.
    method Arrive(frameId: Id, parentId: Option<Id>, url: Option<string>, loader: Option<string>) returns (known: bool)
      requires Keyed() && frameId != ""
      modifies this`frames, this`selected, this`root, this`Repr, Repr
      ensures Keyed() && old(Repr) <= Repr && fresh(Repr - old(Repr))
      ensures var left := Forgotten(old(Tree()), frameId);
              && Tree() == Navigate(old(Tree()), old(root), frameId, parentId, url, loader)
              && known == (frameId in left || parentId.GetOr("") in left || (parentId.None? && old(root).None?))
              && root == if frameId !in left && parentId.GetOr("") !in left && known then Some(frameId) else old(root)
      ensures selected == Kept(old(selected), Descendants(old(Tree()), frameId))
    {
      hide FrameInfo.View, Names, Descendants;
      ghost var doomed := ForgetDescendants(frameId);
      known := true;
      if frameId in frames {
        Renavigate(frameId, url, loader);
      } else if parentId.GetOr("") in frames {
        Create(frameId, parentId, url, loader);
      } else if parentId.None? && root.None? {
        Create(frameId, parentId, url, loader);
        root := Some(frameId);
      } else {
        known := false;
      }
    }

    // A new document in a frame the map holds.
    method Renavigate(frameId: Id, url: Option<string>, loader: Option<string>)
      requires Keyed() && frameId in frames
      modifies Repr
      ensures Keyed()
      ensures Tree() == old(Tree())[frameId := Renavigated(old(Tree())[frameId], url, loader)]
    {
      ghost var m := Tree();
      RenavigateFrame(frames[frameId], url, loader);
      hide FrameInfo.View, Renavigated;
      assert Tree() == m[frameId := Renavigated(m[frameId], url, loader)];
    }

    // A frame that navigated before it was seen to attach.
    method Create(frameId: Id, parentId: Option<Id>, url: Option<string>, loader: Option<string>)
      requires Keyed() && frameId != "" && frameId !in frames
      modifies this`frames, this`Repr, Repr`children
      ensures Keyed() && old(Repr) <= Repr && fresh(Repr - old(Repr))
      ensures var made := Node(parentId, [], Frame(url.GetOr(""), loader.GetOr(""), None, None));
              Tree() == if parentId.GetOr("") in old(frames)
                        then WithKid(old(Tree())[frameId := made], parentId.GetOr(""), frameId)
                        else old(Tree())[frameId := made]
    {
      hide Names;
      ghost var m := Tree();
      var created := new FrameInfo(frameId, url.GetOr(""), loader.GetOr(""), parentId, None);
      var held := parentId.GetOr("") in frames;
      frames := frames[frameId := created];
      Repr := Repr + {created};
      assert Tree() == m[frameId := Node(parentId, [], Frame(url.GetOr(""), loader.GetOr(""), None, None))];
      if held {
        Append(frames[parentId.value], created);
      }
    }

    method HandleNavigatedWithinDocument(frameId: Id, url: Option<string>)
      requires Keyed()
      modifies this, Repr
      ensures Keyed() && Repr == old(Repr)
      ensures Now() == Apply(old(Now()), WithinDocument(frameId, url), matches)
    {
      hide Names, Reresolved;
      if frameId == "" || url.None? || frameId !in frames {
        return;
      }
      ghost var m := Tree();
      frames[frameId].url := url.value;
      assert Tree() == m[frameId := m[frameId].(data := m[frameId].data.(url := url.value))];
      ReresolveSelection();
    }

    // ------------------------------------------------------------------ contexts

    method SetContext(frameId: Id, c: Option<int>)
      requires Keyed() && frameId in frames
      modifies Repr`context
      ensures Keyed() && Tree() == WithContext(old(Tree()), frameId, c)
    {
      hide Names;
      ghost var m := Tree();
      frames[frameId].context := c;
      assert Tree() == WithContext(m, frameId, c);
    }

    method HandleExecutionContextCreated(context: Option<int>, frameId: Option<Id>, isDefault: bool, on: Option<Sid>)
      requires Keyed()
      modifies this, Repr
      ensures Keyed() && Repr == old(Repr)
      ensures Now() == Apply(old(Now()), ContextCreated(on, context, frameId, isDefault), matches)
    {
      hide FrameInfo.View, Names;
      if context.Some? && frameId.GetOr("") != "" {
        contexts := contexts[(on, context.value) := frameId.value];
        if frameId.value in frames && isDefault {
          SetContext(frameId.value, context);
        }
      }
    }

    method HandleExecutionContextDestroyed(context: Option<int>, on: Option<Sid>)
      requires Keyed()
      modifies this, Repr
      ensures Keyed() && Repr == old(Repr)
      ensures Now() == Apply(old(Now()), ContextDestroyed(on, context), matches)
    {
      hide Names;
      if context.None? || (on, context.value) !in contexts {
        return;
      }
      ghost var m := Tree();
      var frameId := contexts[(on, context.value)];
      contexts := contexts - {(on, context.value)};
      if frameId in frames && frames[frameId].context == context && frames[frameId].session == on {
        SetContext(frameId, None);
      }
    }

    method HandleExecutionContextsCleared(on: Option<Sid>)
      requires Keyed()
      modifies this, Repr
      ensures Keyed() && Repr == old(Repr)
      ensures Now() == Apply(old(Now()), ContextsCleared(on), matches)
    {
      hide Names;
      contexts := map k | k in contexts && k.0 != on :: contexts[k];
      ClearFrames(on);
    }

    method ClearFrames(on: Option<Sid>)
      requires Keyed()
      modifies Repr`context
      ensures Keyed() && Tree() == Cleared(old(Tree()), on)
    {
      hide Names, FrameInfo.View, ClearedOne;
      ghost var m := Tree();
      var unseen := frames.Keys;
      while unseen != {}
        invariant unseen <= frames.Keys && Keyed() && Tree().Keys == m.Keys
        invariant forall x :: x in m ==> Tree()[x] == if x in unseen then m[x] else ClearedOne(m[x], on)
        decreases unseen
      {
        var x :| x in unseen;
        unseen := unseen - {x};
        ClearFrame(x, on);
      }
    }

    method ClearFrame(frameId: Id, on: Option<Sid>)
      requires Keyed() && frameId in frames
      modifies Repr`context
      ensures Keyed() && Tree() == old(Tree())[frameId := ClearedOne(old(Tree())[frameId], on)]
    {
      hide Names;
      assert Tree()[frameId].data.session == frames[frameId].session;
      if frames[frameId].session == on {
        SetContext(frameId, None);
      }
    }

    // ------------------------------------------------------------------ reading

    method GetSelectedFrame() returns (r: Option<Id>)
      requires Keyed()
      modifies this`selected, this`pattern
      ensures Keyed() && (Now(), r) == CurrentFrame(old(Now()), matches)
    {
      hide FrameInfo.View, Names, Resolve;
      if selected.None? || selected.value in frames {
        return selected;
      }
      if pattern.GetOr("") != "" {
        r := SelectFrameByUrl(pattern.value);
        return;
      }
      selected := None;
      return None;
    }

    method GetSelectedContext() returns (r: Option<(Option<Sid>, int)>)
      requires Keyed()
      modifies this`selected, this`pattern
      ensures Keyed() && (Now(), r) == CurrentContext(old(Now()), matches)
    {
      hide Names, Resolve, CurrentFrame;
      var f := GetSelectedFrame();
      if f.None? || f.value !in frames || frames[f.value].context.None? {
        return None;
      }
      return Some((frames[f.value].session, frames[f.value].context.value));
    }

    method FrameDocuments(tokens: Tokens) returns (documents: seq<Document>)
      requires Keyed()
      ensures forall x :: x in Reachable(Tree(), root) ==> x in Tree()
      ensures |documents| == |Reachable(Tree(), root)|
      ensures forall i :: 0 <= i < |documents| ==>
                documents[i] == DocumentOf(Tree(), Reachable(Tree(), root)[i], tokens)
    {
      hide Names, Listing;
      documents := [];
      var all := ReachableFrames();
      ListingInMap(Tree(), root);
      var i := 0;
      while i < |all|
        invariant 0 <= i <= |all| && |documents| == i
        invariant forall j :: 0 <= j < i ==> documents[j] == DocumentOf(Tree(), all[j], tokens)
      {
        assert all[i] in all && all[i] in Tree();
        var f := frames[all[i]];
        var here := Document(f.frameId, tokens(f.frameId, f.loader), f.session, None, None, None);
        if f.parentId.GetOr("") in frames {
          var p := frames[f.parentId.value];
          here := here.(parentId := Some(p.frameId), parentToken := Some(tokens(p.frameId, p.loader)),
                        parentSession := p.session);
        }
        documents := documents + [here];
        i := i + 1;
      }
    }

    method FlattenFrames(frameId: Id, depth: nat, result: seq<(Id, nat)>) returns (r: seq<(Id, nat)>)
      requires Keyed() && IsTree(Tree(), root)
      requires frameId in frames ==> depth == Depths(Tree())[frameId]
      ensures r == result + Subtree(Tree(), frameId)
      decreases if frameId in frames then From(Depths(Tree()), depth) else {}
    {
      hide Names, FrameInfo.View, Subtree, SubtreeRow, Pre, PreRow, IsForest;
      SubtreeNothing(Tree(), frameId);
      if frameId !in frames {
        return result;
      }
      ghost var m, d := Tree(), Depths(Tree());
      KidLevels(m, d, frameId);
      r := result + [(frameId, depth)];
      var kids := Names(frames[frameId].children);
      assert kids[..0] == [];
      NamesView(frames[frameId]);
      var i := 0;
      while i < |kids|
        invariant 0 <= i <= |kids|
        invariant r == result + [(frameId, depth)] + SubtreeRow(m, kids[..i])
      {
        r := FlattenFrames(kids[i], depth + 1, r);
        SubtreeRowSnoc(m, kids, i);
        i := i + 1;
      }
      assert kids[..i] == kids;
      SubtreeUnfold(m, frameId);
    }

    // The flat list with depths: the frames of the listing, in its order, each
    // with its distance from the root.
    method GetFlatFrames() returns (r: seq<(Id, nat)>)
      requires Keyed() && IsTree(Tree(), root)
      ensures forall x :: x in Reachable(Tree(), root) ==> x in Tree()
      ensures r == Tagged(Reachable(Tree(), root), Depths(Tree()))
    {
      hide Names, FrameInfo.View, Listing, Subtree;
      FlatIsListing(Tree(), root);
      if root.None? {
        return [];
      }
      r := FlattenFrames(root.value, 0, []);
    }
  }

  // The new map holds the old objects except under the ids xs, which hold
  // objects not among those of repr.
  ghost predicate Grown(was: map<Id, FrameInfo>, now: map<Id, FrameInfo>, xs: seq<Id>, repr: set<FrameInfo>) {
    && now.Keys == was.Keys + Elems(xs)
    && (forall x :: x in was && x !in xs ==> now[x] == was[x])
    && forall x :: x in xs ==> now[x] !in repr
  }

  lemma GrownTwice(was: map<Id, FrameInfo>, mid: map<Id, FrameInfo>, now: map<Id, FrameInfo>,
                   xs: seq<Id>, ys: seq<Id>, repr: set<FrameInfo>, more: set<FrameInfo>)
    requires Grown(was, mid, xs, repr) && Grown(mid, now, ys, more) && repr <= more
    ensures Grown(was, now, xs + ys, repr)
  {
  }

  lemma GrownNothing(was: map<Id, FrameInfo>, repr: set<FrameInfo>)
    ensures Grown(was, was, [], repr)
  {
  }

  lemma GrownNew(was: map<Id, FrameInfo>, now: map<Id, FrameInfo>, xs: seq<Id>, repr: set<FrameInfo>)
    requires Grown(was, now, xs, repr)
    ensures forall x :: x in xs ==> x in now && now[x] !in repr
  {
  }

  lemma GrownKeeps(was: map<Id, FrameInfo>, now: map<Id, FrameInfo>, xs: seq<Id>, repr: set<FrameInfo>, x: Id)
    requires Grown(was, now, xs, repr) && x in was
    ensures x in now && (x !in xs ==> now[x] == was[x])
  {
  }

  lemma AppendNames(fs: seq<FrameInfo>, f: FrameInfo)
    ensures Names(fs + [f]) == Names(fs) + [f.frameId]
  {
  }

  method UnlinkFrom(f: FrameInfo, x: Id)
    modifies f`children
    ensures Names(f.children) == Without(old(Names(f.children)), x)
  {
    if x in Names(f.children) {
      f.children := OtherThan(f.children, x);
    }
  }

  ghost predicate Claims(m: FrameMap, p: Id, doomed: set<Id>, claimed: seq<Id>) {
    forall x :: x in claimed <==> x in m && m[x].parent == Some(p) && x !in doomed
  }

  // The search so far: only descendants are doomed, and the children of every
  // doomed frame that is not waiting its turn are doomed too.
  ghost predicate Sought(m: FrameMap, a: Id, doomed: set<Id>, frontier: seq<Id>) {
    && doomed <= Descendants(m, a)
    && (forall x :: x in frontier ==> x == a || x in doomed)
    && forall x {:trigger m[x]} :: x in m && m[x].parent.Some? ==>
         var p := m[x].parent.value; (p == a || p in doomed) && p !in frontier ==> x in doomed
  }

  lemma SoughtStep(m: FrameMap, a: Id, doomed: set<Id>, frontier: seq<Id>, claimed: seq<Id>)
    requires frontier != [] && Sought(m, a, doomed, frontier)
    requires Claims(m, frontier[|frontier| - 1], doomed, claimed)
    ensures Sought(m, a, doomed + Elems(claimed), frontier[..|frontier| - 1] + claimed)
    ensures claimed == [] || m.Keys - (doomed + Elems(claimed)) < m.Keys - doomed
  {
    var p, rest := frontier[|frontier| - 1], frontier[..|frontier| - 1];
    assert frontier == rest + [p];
    AtOrBelowStep(m, p, a);
    if claimed != [] {
      assert claimed[0] in claimed && claimed[0] in m.Keys - doomed;
    }
  }

  lemma AllClaimed(m: FrameMap, doomed: set<Id>, a: Id)
    requires Sought(m, a, doomed, [])
    ensures doomed == Descendants(m, a)
  {
    forall x | x in m && Below(m, x, a) ensures x in doomed {
      var n: nat :| Climb(m, m[x].parent.value, n) == Some(a);
      assert Climb(m, x, n + 1) == Some(a);
      BelowWithin(m, doomed, a, x, n + 1);
    }
  }

  lemma AttachRefused(m: FrameMap, x: Id, p: Id)
    requires Refused(m, x, p)
    ensures Attach(m, x, p) == Drop(m, x)
  {
  }

  lemma AttachPlaced(m: FrameMap, x: Id, p: Id)
    requires !Refused(m, x, p)
    ensures p in Drop(m, x) && p != x
    ensures Attach(m, x, p) == WithKid(Drop(m, x)[x := Fresh(p)], p, x)
  {
    AtOrBelowStep(m, p, x);
  }

  lemma ViewOf(f: FrameInfo?, m: FrameMap, x: Id)
    ensures f != null ==> f.View().parent == f.parentId
  {
  }

  lemma NamesView(f: FrameInfo)
    ensures f.View().kids == Names(f.children)
  {
  }

  lemma KeptNothing(selected: Option<Id>, m: FrameMap)
    ensures DropAll(m, {}) == m && Kept(selected, m.Keys - DropAll(m, {}).Keys) == selected
  {
    DropAllNone(m);
  }

  lemma KeptTwice(m: FrameMap, done: set<Id>, x: Id, was: Option<Id>, gone: set<Id>)
    requires x in m && gone == Descendants(DropAll(m, done), x)
    requires Drop(DropAll(m, done), x) == DropAll(m, done + {x})
    ensures Kept(Kept(Kept(was, m.Keys - DropAll(m, done).Keys), gone), {x})
            == Kept(was, m.Keys - DropAll(m, done + {x}).Keys)
  {
  }

  method RenavigateFrame(f: FrameInfo, url: Option<string>, loader: Option<string>)
    modifies f
    ensures f.View() == Renavigated(old(f.View()), url, loader)
  {
    f.url := url.GetOr(f.url);
    f.loader := loader.GetOr(f.loader);
    f.children := [];
  }
}

// A snapshot read across sessions: the frame map's documents in order, each frame's
// tree from its own session and its owner node from its parent's, stitched.
module CrossSessions {
  import opened Prelude
  import opened Forest
  import opened Walks
  import opened Frames
  import opened FrameLaws
  import opened Stitching
  import opened StitchLaws

  // What the sessions answered about one frame: the DOM node that owns it, and its
  // tree. A frame that will not answer for both is skipped.
  datatype Answer = Answer(owner: Option<int>, tree: Option<seq<Ax>>)

  type Answers = Id -> Answer

  predicate IsRead(d: Document, a: Answer) {
    d.parentToken.Some? && a.owner.Some? && a.tree.Some?
  }

  function ChildOf(d: Document, a: Answer): ChildFrame
    requires IsRead(d, a)
  {
    ChildFrame(a.owner.value, d.parentToken.value, d.token, a.tree.value)
  }

  // The child frames of these documents, in their order, those skipped left out.
  function ChildrenOf(documents: seq<Document>, answers: Answers): (r: seq<ChildFrame>)
    ensures |r| <= |documents|
    decreases |documents|
  {
    if documents == [] then []
    else
      var last := documents[|documents| - 1];
      ChildrenOf(documents[..|documents| - 1], answers)
      + if IsRead(last, answers(last.frameId)) then [ChildOf(last, answers(last.frameId))] else []
  }

  method StitchAcrossSessions(documents: seq<Document>, top: seq<Ax>, answers: Answers) returns (merged: seq<Ax>)
    requires documents != []
    ensures merged == StitchAll(StampedAll(top, documents[0].token), ChildrenOf(documents[1..], answers), 0)
  {
    hide StitchAll, StampedAll;
    var rest := documents[1..];
    var children: seq<ChildFrame> := [];
    var i := 0;
    while i < |rest|
      invariant 0 <= i <= |rest| && children == ChildrenOf(rest[..i], answers)
    {
      assert rest[..i + 1][..i] == rest[..i];
      var a := answers(rest[i].frameId);
      if rest[i].parentToken.Some? && a.owner.Some? && a.tree.Some? {
        children := children + [ChildFrame(a.owner.value, rest[i].parentToken.value, rest[i].token, a.tree.value)];
      }
      i := i + 1;
    }
    assert rest[..i] == rest;
    merged := StitchAxFrames(top, children, documents[0].token);
  }

  // ------------------------------------------------------ where a child comes from

  // A document that was read has its child frame among those of the documents up
  // to it, and it stays there.
  lemma {:induction false} ReadAt(documents: seq<Document>, answers: Answers, i: nat) returns (a: nat)
    requires i < |documents| && IsRead(documents[i], answers(documents[i].frameId))
    ensures a < |ChildrenOf(documents, answers)| && a == |ChildrenOf(documents[..i], answers)|
    ensures ChildrenOf(documents, answers)[a] == ChildOf(documents[i], answers(documents[i].frameId))
    decreases |documents|
  {
    var init := documents[..|documents| - 1];
    if i < |init| {
      a := ReadAt(init, answers, i);
      assert init[..i] == documents[..i];
    } else {
      a := |ChildrenOf(init, answers)|;
    }
  }

  // And every child frame comes from such a document.
  lemma {:induction false} ReadFrom(documents: seq<Document>, answers: Answers, a: nat) returns (i: nat)
    requires a < |ChildrenOf(documents, answers)|
    ensures i < |documents| && IsRead(documents[i], answers(documents[i].frameId))
    ensures a == |ChildrenOf(documents[..i], answers)|
    ensures ChildrenOf(documents, answers)[a] == ChildOf(documents[i], answers(documents[i].frameId))
    decreases |documents|
  {
    var init := documents[..|documents| - 1];
    if a < |ChildrenOf(init, answers)| {
      i := ReadFrom(init, answers, a);
      assert init[..i] == documents[..i];
    } else {
      i := |init|;
    }
  }

  lemma {:induction false} FewerBefore(documents: seq<Document>, answers: Answers, j: nat, i: nat)
    requires j < i <= |documents| && IsRead(documents[j], answers(documents[j].frameId))
    ensures |ChildrenOf(documents[..j], answers)| < |ChildrenOf(documents[..i], answers)|
    decreases i
  {
    assert documents[..i][..i - 1] == documents[..i - 1];
    if j < i - 1 {
      FewerBefore(documents, answers, j, i - 1);
    }
  }

  // ------------------------------------------------------- owners before what they own

  // The documents of a frame map, as the frame manager lists them.
  ghost predicate Listed(m: FrameMap, root: Id, tokens: Tokens, documents: seq<Document>) {
    var all := Reachable(m, Some(root));
    && |documents| == |all| && (forall x :: x in all ==> x in m)
    && forall i :: 0 <= i < |documents| ==> documents[i] == DocumentOf(m, all[i], tokens)
  }

  // The tree that the owner of d is looked for in: the page's, or its parent's if
  // that frame was read.
  function OwnerTree(root: Id, top: seq<Ax>, answers: Answers, d: Document): Option<seq<Ax>> {
    if d.parentId == Some(root) then Some(top)
    else if d.parentId.Some? && answers(d.parentId.value).owner.Some? then answers(d.parentId.value).tree
    else None
  }

  // A frame read has its owner node in the tree read from the frame above.
  ghost predicate OwnerRead(root: Id, top: seq<Ax>, answers: Answers, d: Document) {
    IsRead(d, answers(d.frameId)) ==>
      OwnerTree(root, top, answers, d).Some?
      && HasNode(OwnerTree(root, top, answers, d).value, answers(d.frameId).owner.value)
  }

  // Each document after the first names one listed before it as its owner; only
  // the first is the root's.
  ghost predicate Owned(root: Id, documents: seq<Document>, i: nat, j: nat)
    requires i < |documents|
  {
    && j < i && documents[i].parentId == Some(documents[j].frameId)
    && documents[i].parentToken == Some(documents[j].token)
    && (j == 0 <==> documents[i].parentId == Some(root))
    && (j > 0 ==> documents[j].parentToken.Some?)
  }

  lemma OwnerOf(m: FrameMap, root: Id, tokens: Tokens, documents: seq<Document>, i: nat) returns (j: nat)
    requires IsTree(m, Some(root)) && root in m && "" !in m && Listed(m, root, tokens, documents)
    requires 0 < i < |documents|
    ensures Owned(root, documents, i, j)
  {
    hide Reachable, IsTree;
    j := OwnersComeFirst(m, root, tokens, i);
    FirstIsRoot(m, root);
    if j > 0 { OwnerFrame(m, root, tokens, documents, j); }
  }

  // The a-th child frame has its owner in the page or in an earlier child frame.
  lemma OwnerIsEarlier(root: Id, documents: seq<Document>, top: seq<Ax>, answers: Answers, a: nat, i: nat, j: nat)
    requires documents != [] && a < |ChildrenOf(documents[1..], answers)| && i < |documents| - 1
    requires IsRead(documents[i + 1], answers(documents[i + 1].frameId))
    requires a == |ChildrenOf(documents[1..][..i], answers)|
    requires ChildrenOf(documents[1..], answers)[a] == ChildOf(documents[i + 1], answers(documents[i + 1].frameId))
    requires Owned(root, documents, i + 1, j) && OwnerRead(root, top, answers, documents[i + 1])
    ensures OwnerEarlier(StampedAll(top, documents[0].token), ChildrenOf(documents[1..], answers), a)
  {
    hide StampedAll, ChildrenOf, HasNode, Holds;
    var rest := documents[1..];
    var children := ChildrenOf(rest, answers);
    if j == 0 {
      TopHolds(top, documents[0].token, children[a].ownerBackend);
    } else {
      assert rest[j - 1] == documents[j];
      var b := ReadAt(rest, answers, j - 1);
      FewerBefore(rest, answers, j - 1, i);
      assert b < a && children[b].token == children[a].ownerToken;
      assert HasNode(children[b].nodes, children[a].ownerBackend);
    }
  }

  // What the frame's session and the one above it said of it, as it is stitched.
  predicate Brings(c: ChildFrame, d: Document, a: Answer) {
    d.parentToken == Some(c.ownerToken) && a.owner == Some(c.ownerBackend) && a.tree == Some(c.nodes)
    && c.token == d.token
  }

  predicate Skipped(d: Document, a: Answer) {
    d.parentToken.None? || a.owner.None? || a.tree.None?
  }

  // at says where each stitched frame stands among the documents: in their order, each
  // with what was answered for it, and only those without an answer left out.
  ghost predicate Stands(documents: seq<Document>, answers: Answers, children: seq<ChildFrame>, at: seq<nat>) {
    && |at| == |children|
    && (forall j :: 0 <= j < |at| ==> at[j] < |documents|)
    && (forall i, j :: 0 <= i < j < |at| ==> at[i] < at[j])
    && (forall j :: 0 <= j < |at| ==> Brings(children[j], documents[at[j]], answers(documents[at[j]].frameId)))
    && (forall i: nat :: i < |documents| && i !in at ==> Skipped(documents[i], answers(documents[i].frameId)))
  }

  // No frame that answered is left out, none is brought twice, and none is brought
  // that did not answer.
  lemma {:induction false} EveryAnswerIsStitched(documents: seq<Document>, answers: Answers) returns (at: seq<nat>)
    ensures Stands(documents, answers, ChildrenOf(documents, answers), at)
    decreases |documents|
  {
    if documents == [] {
      at := [];
    } else {
      var n := |documents| - 1;
      var before := EveryAnswerIsStitched(documents[..n], answers);
      var a := answers(documents[n].frameId);
      if Skipped(documents[n], a) {
        at := before;
        LastSkipped(documents, answers, ChildrenOf(documents[..n], answers), at);
      } else {
        at := before + [n];
        LastStands(documents, answers, ChildrenOf(documents[..n], answers), before, ChildOf(documents[n], a));
      }
    }
  }

  lemma LastSkipped(documents: seq<Document>, answers: Answers, children: seq<ChildFrame>, at: seq<nat>)
    requires documents != [] && Stands(documents[..|documents| - 1], answers, children, at)
    requires Skipped(documents[|documents| - 1], answers(documents[|documents| - 1].frameId))
    ensures Stands(documents, answers, children, at)
  {
    forall i: nat | i < |documents| && i !in at ensures Skipped(documents[i], answers(documents[i].frameId)) {
      if i < |documents| - 1 { assert documents[..|documents| - 1][i] == documents[i]; }
    }
  }

  lemma LastStands(documents: seq<Document>, answers: Answers, children: seq<ChildFrame>, at: seq<nat>, c: ChildFrame)
    requires documents != [] && Stands(documents[..|documents| - 1], answers, children, at)
    requires Brings(c, documents[|documents| - 1], answers(documents[|documents| - 1].frameId))
    ensures Stands(documents, answers, children + [c], at + [|documents| - 1])
  {
    var n, more := |documents| - 1, at + [|documents| - 1];
    forall i: nat | i < |documents| && i !in more ensures Skipped(documents[i], answers(documents[i].frameId)) {
      assert i != n by { assert more[|at|] == n; }
      assert i !in at;
      assert documents[..n][i] == documents[i];
    }
  }

  // The order in which the frame manager lists its documents is the order that the
  // stitch relies on: whatever was skipped, every owner comes earlier, as long as
  // each frame read has its owner node in what was read of the frame above it.
  lemma OwnersAreEarlier(m: FrameMap, root: Id, tokens: Tokens, documents: seq<Document>, top: seq<Ax>,
                         answers: Answers)
    requires IsTree(m, Some(root)) && root in m && "" !in m && Listed(m, root, tokens, documents)
    requires documents != [] && forall i :: 0 < i < |documents| ==> OwnerRead(root, top, answers, documents[i])
    ensures OwnersEarlier(StampedAll(top, documents[0].token), ChildrenOf(documents[1..], answers))
  {
    hide Listed, IsTree, StampedAll, ChildrenOf, OwnerEarlier, OwnerRead, Owned;
    var rest := documents[1..];
    forall a | 0 <= a < |ChildrenOf(rest, answers)|
      ensures OwnerEarlier(StampedAll(top, documents[0].token), ChildrenOf(rest, answers), a)
    {
      var i := ReadFrom(rest, answers, a);
      assert rest[i] == documents[i + 1];
      var j := OwnerOf(m, root, tokens, documents, i + 1);
      OwnerIsEarlier(root, documents, top, answers, a, i, j);
    }
  }

  // The first document is the root's, and no other is.
  lemma FirstIsRoot(m: FrameMap, root: Id)
    requires IsTree(m, Some(root)) && root in m
    ensures var all := Reachable(m, Some(root)); all != [] && all[0] == root
  {
    ListingIsPreOrder(m, root);
  }

  lemma OwnerFrame(m: FrameMap, root: Id, tokens: Tokens, documents: seq<Document>, j: nat)
    requires IsTree(m, Some(root)) && root in m && "" !in m && Listed(m, root, tokens, documents)
    requires 0 < j < |documents|
    ensures documents[j].frameId != root && documents[j].parentToken.Some?
  {
    hide Reachable;
    var k := OwnersComeFirst(m, root, tokens, j);
    var zero := OwnersComeFirst(m, root, tokens, 0);
    FirstIsRoot(m, root);
  }

  lemma TopHolds(top: seq<Ax>, token: string, backend: int)
    requires HasNode(top, backend)
    ensures Holds(StampedAll(top, token), token, backend)
  {
    var k :| 0 <= k < |top| && top[k].data.backend == Some(backend);
    assert Owns(StampedAll(top, token)[k], token, backend);
  }

  // So the frames' trees, each one tree, come out as one tree rooted at the page's,
  // with every frame that was read in it.
  lemma AcrossSessionsIsOneTree(m: FrameMap, root: Id, tokens: Tokens, documents: seq<Document>, top: seq<Ax>,
                                topRoot: Id, answers: Answers, roots: seq<Id>)
    requires IsTree(m, Some(root)) && root in m && "" !in m && Listed(m, root, tokens, documents)
    requires documents != [] && forall i :: 0 < i < |documents| ==> OwnerRead(root, top, answers, documents[i])
    requires IsAxTree(top, topRoot) && TreesAll(ChildrenOf(documents[1..], answers), roots)
    requires SpacedAll(IdsOf(top), ChildrenOf(documents[1..], answers), 0)
    ensures var children := ChildrenOf(documents[1..], answers);
            Stitched(StitchAll(StampedAll(top, documents[0].token), children, 0), topRoot,
                     IdsOf(top) + ChildIds(children, 0),
                     [PreOrder(LinksOf(top), topRoot)] + ChildOrders(children, roots, 0))
  {
    hide *;
    OwnersAreEarlier(m, root, tokens, documents, top, answers);
    StitchIsOneTree(top, topRoot, documents[0].token, ChildrenOf(documents[1..], answers), roots);
  }
}

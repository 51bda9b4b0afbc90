// Where each frame of a stitched page hangs: below the node its session named as its
// owner, told by that node's own stamp.
module StitchPlaces {
  import opened Prelude
  import opened Forest
  import opened Stitching
  import opened StitchLaws

  // The node was read from the document and is the DOM node.
  predicate Answers(a: Ax, token: string, backend: int) {
    a.data.token == Some(token) && a.data.backend == Some(backend)
  }

  // Of the nodes read from the document, the k-th is the first for the DOM node.
  predicate IsFirst(all: seq<Ax>, k: nat, token: string, backend: int) {
    k < |all| && Answers(all[k], token, backend) && forall j :: 0 <= j < k ==> !Answers(all[j], token, backend)
  }

  predicate HangsBelow(all: seq<Ax>, e: nat, k: nat) {
    e < |all| && k < |all| && all[e].parentId == Some(all[k].id) && all[e].id in all[k].childIds
  }

  // Where the nodes of the i-th frame begin, n nodes standing before the first.
  function Start(n: nat, children: seq<ChildFrame>, i: nat): nat
    requires i <= |children|
    decreases i
  {
    if i == 0 then n else Start(n + |children[0].nodes|, children[1..], i - 1)
  }

  // What stays of a node through the later splices: it only gains children.
  predicate Stays(a: Ax, b: Ax) {
    b.id == a.id && b.parentId == a.parentId && b.data == a.data && a.childIds <= b.childIds
  }

  lemma OneStays(merged: seq<Ax>, child: ChildFrame, index: nat)
    ensures var all := StitchOne(merged, child, index);
            |all| == |merged| + |child.nodes| && AllStayed(merged, all)
  {
    hide Prefix, OwnerIndex, RootId;
  }

  lemma {:induction false} AllStay(merged: seq<Ax>, children: seq<ChildFrame>, index: nat)
    ensures AllStayed(merged, StitchAll(merged, children, index))
    decreases |children|
  {
    hide StitchOne, AllStayed;
    if children == [] {
      NoneMoved(merged);
    } else {
      OneStays(merged, children[0], index);
      AllStay(StitchOne(merged, children[0], index), children[1..], index + 1);
      StayedTwice(merged, StitchOne(merged, children[0], index), StitchAll(merged, children, index));
    }
  }

  ghost predicate AllStayed(merged: seq<Ax>, all: seq<Ax>) {
    |merged| <= |all| && forall j :: 0 <= j < |merged| ==> Stays(merged[j], all[j])
  }

  lemma NoneMoved(merged: seq<Ax>)
    ensures AllStayed(merged, merged)
  {
  }

  lemma StayedTwice(a: seq<Ax>, b: seq<Ax>, c: seq<Ax>)
    requires AllStayed(a, b) && AllStayed(b, c)
    ensures AllStayed(a, c)
  {
    forall j | 0 <= j < |a| ensures Stays(a[j], c[j]) {
      StaysTwice(a[j], b[j], c[j]);
    }
  }

  lemma StaysTwice(a: Ax, b: Ax, c: Ax)
    requires Stays(a, b) && Stays(b, c)
    ensures Stays(a, c)
  {
  }

  lemma RootOfRenamed(nodes: seq<Ax>, r: Id, at: nat, prefix: string)
    requires IsAxTree(nodes, r) && at < |nodes| && nodes[at].id == r
    ensures RootId(RenamedAll(nodes, prefix)) == Some(prefix + r)
    ensures forall i :: 0 <= i < |nodes| ==> (nodes[i].parentId.None? <==> nodes[i].id == r)
  {
    hide LinksOf, Elems;
    var renamed := RenamedAll(nodes, prefix);
    forall i | 0 <= i < |nodes|
      ensures nodes[i].parentId.None? <==> nodes[i].id == r
      ensures renamed[i].parentId.None? <==> renamed[i].id == prefix + r
    {
      LinksAt(nodes, i);
      if prefix + nodes[i].id == prefix + r { PrefixCancels(prefix, nodes[i].id, r); }
    }
    RootIdIs(renamed, prefix + r, at);
  }

  lemma FirstIsIndex(merged: seq<Ax>, token: string, backend: int)
    ensures forall k: nat :: k < |merged| && IsFirst(merged, k, token, backend) ==>
              OwnerIndex(merged, token, backend) == Some(k)
    ensures (forall j :: 0 <= j < |merged| ==> !Answers(merged[j], token, backend)) ==>
              OwnerIndex(merged, token, backend) == None
  {
    OwnerIndexIsFirst(merged, token, backend);
  }

  // The splice of the frame itself.
  lemma OneHangs(merged: seq<Ax>, child: ChildFrame, index: nat, r: Id, at: nat)
    requires IsAxTree(child.nodes, r) && at < |child.nodes| && child.nodes[at].id == r
    ensures var all := StitchOne(merged, child, index);
            var e := |merged| + at;
            && |all| == |merged| + |child.nodes|
            && (forall k: nat :: k < |merged| && IsFirst(merged, k, child.ownerToken, child.ownerBackend) ==>
                  HangsBelow(all, e, k))
            && ((forall j :: 0 <= j < |merged| ==> !Answers(merged[j], child.ownerToken, child.ownerBackend)) ==>
                 all[e].parentId == None)
  {
    RootOfRenamed(child.nodes, r, at, Prefix(index));
    FirstIsIndex(merged, child.ownerToken, child.ownerBackend);
    OneStays(merged, child, index);
    hide Prefix, RootId, IsAxTree, OwnerIndex, Answers, IsFirst, StitchOne, HangsBelow;
    var owner := OwnerIndex(merged, child.ownerToken, child.ownerBackend);
    if owner.Some? && owner.value < |merged| { OwnedHangs(merged, child, index, r, at, owner.value); }
    if owner.None? { OwnerlessStays(merged, child, index, at); }
  }

  lemma OwnedHangs(merged: seq<Ax>, child: ChildFrame, index: nat, r: Id, at: nat, k: nat)
    requires k < |merged| && OwnerIndex(merged, child.ownerToken, child.ownerBackend) == Some(k)
    requires at < |child.nodes| && child.nodes[at].id == r
    requires RootId(RenamedAll(child.nodes, Prefix(index))) == Some(Prefix(index) + r)
    ensures HangsBelow(StitchOne(merged, child, index), |merged| + at, k)
  {
    hide *;
    var top, p := Prefix(index) + r, merged[k].id;
    var host, right := WithChild(merged[k], top), Added(child, index, top, p);
    OwnedIs(merged, child, index, top, k);
    AddedRoot(child, index, r, p, at);
    HostHas(merged[k], top);
    var all := merged[k := host] + right;
    assert all[k] == host && all[|merged| + at] == right[at];
    HangsNow(all, |merged| + at, k);
  }

  lemma HangsNow(all: seq<Ax>, e: nat, k: nat)
    requires e < |all| && k < |all| && all[e].parentId == Some(all[k].id) && all[e].id in all[k].childIds
    ensures HangsBelow(all, e, k)
  {
  }

  lemma HostHas(a: Ax, top: Id)
    ensures WithChild(a, top).id == a.id && top in WithChild(a, top).childIds
  {
    assert (a.childIds + [top])[|a.childIds|] == top;
  }

  lemma OwnedIs(merged: seq<Ax>, child: ChildFrame, index: nat, top: Id, k: nat)
    requires k < |merged| && OwnerIndex(merged, child.ownerToken, child.ownerBackend) == Some(k)
    requires RootId(RenamedAll(child.nodes, Prefix(index))) == Some(top)
    ensures StitchOne(merged, child, index) ==
            merged[k := WithChild(merged[k], top)] + Added(child, index, top, merged[k].id)
  {
    hide Prefix, RootId, OwnerIndex, WithChild, StampedAll, Reparented, RenamedAll;
  }

  lemma AddedRoot(child: ChildFrame, index: nat, r: Id, p: Id, at: nat)
    requires at < |child.nodes| && child.nodes[at].id == r
    ensures var right := Added(child, index, Prefix(index) + r, p);
            |right| == |child.nodes| && right[at].parentId == Some(p) && right[at].id == Prefix(index) + r
  {
    hide Prefix;
  }

  lemma OwnerlessStays(merged: seq<Ax>, child: ChildFrame, index: nat, at: nat)
    requires OwnerIndex(merged, child.ownerToken, child.ownerBackend) == None && at < |child.nodes|
    requires child.nodes[at].parentId == None
    ensures var all := StitchOne(merged, child, index);
            |all| == |merged| + |child.nodes| && all[|merged| + at].parentId == None
  {
    hide Prefix, RootId, OwnerIndex;
  }

  // Of all the nodes listed before a frame, the first that is its owner's DOM node in
  // its owner's document is the parent of the frame's root; without one, the root
  // keeps none.
  lemma {:induction false} FrameHangsAtItsOwner(merged: seq<Ax>, children: seq<ChildFrame>, index: nat, i: nat,
                                                r: Id, at: nat)
    requires i < |children| && IsAxTree(children[i].nodes, r)
    requires at < |children[i].nodes| && children[i].nodes[at].id == r
    ensures var all, c, start := StitchAll(merged, children, index), children[i], Start(|merged|, children, i);
            && start + at < |all|
            && (forall k: nat :: k < start && IsFirst(all, k, c.ownerToken, c.ownerBackend) ==>
                  HangsBelow(all, start + at, k))
            && ((forall j :: 0 <= j < start ==> !Answers(all[j], c.ownerToken, c.ownerBackend)) ==>
                 all[start + at].parentId == None)
    decreases i
  {
    hide StitchOne, IsAxTree;
    var next := StitchOne(merged, children[0], index);
    OneStays(merged, children[0], index);
    if i > 0 {
      FrameHangsAtItsOwner(next, children[1..], index + 1, i - 1, r, at);
    } else {
      OneHangs(merged, children[0], index, r, at);
      AllStay(merged, children, index);
      AllStay(next, children[1..], index + 1);
      var all, c := StitchAll(merged, children, index), children[0];
      forall k: nat | k < |merged| && IsFirst(all, k, c.ownerToken, c.ownerBackend)
        ensures HangsBelow(all, |merged| + at, k)
      {
        StillFirst(merged, all, k, c.ownerToken, c.ownerBackend);
        StillHangs(next, all, |merged| + at, k);
      }
    }
  }

  lemma StillFirst(merged: seq<Ax>, all: seq<Ax>, k: nat, token: string, backend: int)
    requires AllStayed(merged, all)
    requires k < |merged| && IsFirst(all, k, token, backend)
    ensures IsFirst(merged, k, token, backend)
  {
    forall j | 0 <= j < k ensures !Answers(merged[j], token, backend) {
      assert !Answers(all[j], token, backend);
    }
  }

  lemma StillHangs(next: seq<Ax>, all: seq<Ax>, e: nat, k: nat)
    requires AllStayed(next, all)
    requires HangsBelow(next, e, k)
    ensures HangsBelow(all, e, k)
  {
  }
}

// Splicing the accessibility trees of child frames into the tree of the page.
module Stitching {
  import opened Prelude
  import opened Forest
  import opened Uids

  // What an accessibility node carries besides its links: its DOM node, the
  // document it is stamped with, whether it is ignored, and what it shows.
  datatype AxData = AxData(backend: Option<int>, token: Option<string>, ignored: bool, role: string)

  // One node of a getFullAXTree result.
  datatype Ax = Ax(id: Id, parentId: Option<Id>, childIds: seq<Id>, data: AxData)

  type AxLinks = Links<AxData>

  // One child frame: its owner's DOM node and document, its own document, its tree.
  datatype ChildFrame = ChildFrame(ownerBackend: int, ownerToken: string, token: string, nodes: seq<Ax>)

  // ---------------------------------------------------------------- lists as maps

  function IdsOf(nodes: seq<Ax>): (r: seq<Id>)
    ensures |r| == |nodes| && forall i :: 0 <= i < |nodes| ==> r[i] == nodes[i].id
  {
    if nodes == [] then [] else [nodes[0].id] + IdsOf(nodes[1..])
  }

  function NodeOf(a: Ax): Node<AxData> {
    Node(a.parentId, a.childIds, a.data)
  }

  // The nodes of a list by id; a later node with the same id wins.
  function LinksOf(nodes: seq<Ax>): (m: AxLinks)
    ensures m.Keys == Elems(IdsOf(nodes))
    decreases |nodes|
  {
    if nodes == [] then map[]
    else
      LastId(nodes);
      LinksOf(nodes[..|nodes| - 1])[nodes[|nodes| - 1].id := NodeOf(nodes[|nodes| - 1])]
  }

  lemma SplitLast<T>(s: seq<T>)
    requires s != []
    ensures s == s[..|s| - 1] + [s[|s| - 1]]
  {
  }

  lemma LastId(nodes: seq<Ax>)
    requires nodes != []
    ensures Elems(IdsOf(nodes)) == Elems(IdsOf(nodes[..|nodes| - 1])) + {nodes[|nodes| - 1].id}
  {
    hide IdsOf, Elems;
    var init, last := nodes[..|nodes| - 1], nodes[|nodes| - 1];
    SplitLast(nodes);
    IdsSnoc(init, last);
    ElemsSnoc(IdsOf(init), last.id);
  }

  lemma {:induction false} IdsSnoc(nodes: seq<Ax>, last: Ax)
    ensures IdsOf(nodes + [last]) == IdsOf(nodes) + [last.id]
    decreases |nodes|
  {
    if nodes == [] {
      assert [] + [last] == [last] && [last][1..] == [];
    } else {
      assert (nodes + [last])[1..] == nodes[1..] + [last];
      IdsSnoc(nodes[1..], last);
    }
  }

  lemma {:induction false} LinksAt(nodes: seq<Ax>, i: nat)
    requires i < |nodes| && Distinct(IdsOf(nodes))
    ensures nodes[i].id in LinksOf(nodes) && LinksOf(nodes)[nodes[i].id] == NodeOf(nodes[i])
    decreases |nodes|
  {
    assert IdsOf(nodes)[i] == nodes[i].id;
    var init := nodes[..|nodes| - 1];
    if i < |init| {
      assert IdsOf(nodes)[|init|] == nodes[|init|].id;
      forall a, b | 0 <= a < b < |init| ensures IdsOf(init)[a] != IdsOf(init)[b] {
        assert IdsOf(nodes)[a] != IdsOf(nodes)[b];
      }
      LinksAt(init, i);
    }
  }

  // A reply that is one tree: ids all different, links agreeing in both
  // directions, and one node, root, without a parent.
  ghost predicate IsAxTree(nodes: seq<Ax>, root: Id) {
    Distinct(IdsOf(nodes)) && IsTree(LinksOf(nodes), Some(root)) && root in LinksOf(nodes)
  }

  // ------------------------------------------------------------------ namespacing

  function Prefix(index: nat): string {
    "f" + Dec(index + 1) + ":"
  }

  function Renamed(a: Ax, prefix: string): Ax {
    a.(id := prefix + a.id,
       parentId := if a.parentId.Some? then Some(prefix + a.parentId.value) else None,
       childIds := AllPrefixed(a.childIds, prefix))
  }

  function AllPrefixed(ids: seq<Id>, prefix: string): (r: seq<Id>)
    ensures |r| == |ids| && forall i :: 0 <= i < |ids| ==> r[i] == prefix + ids[i]
  {
    if ids == [] then [] else [prefix + ids[0]] + AllPrefixed(ids[1..], prefix)
  }

  function Stamped(a: Ax, token: string): Ax {
    a.(data := a.data.(token := Some(token)))
  }

  function StampedAll(nodes: seq<Ax>, token: string): (r: seq<Ax>)
    ensures |r| == |nodes| && forall i :: 0 <= i < |nodes| ==> r[i] == Stamped(nodes[i], token)
  {
    if nodes == [] then [] else [Stamped(nodes[0], token)] + StampedAll(nodes[1..], token)
  }

  function RenamedAll(nodes: seq<Ax>, prefix: string): (r: seq<Ax>)
    ensures |r| == |nodes| && forall i :: 0 <= i < |nodes| ==> r[i] == Renamed(nodes[i], prefix)
  {
    if nodes == [] then [] else [Renamed(nodes[0], prefix)] + RenamedAll(nodes[1..], prefix)
  }

  // The last node without a parent, if there is one.
  function RootId(nodes: seq<Ax>): Option<Id>
    decreases |nodes|
  {
    if nodes == [] then None
    else if nodes[|nodes| - 1].parentId.None? then Some(nodes[|nodes| - 1].id)
    else RootId(nodes[..|nodes| - 1])
  }

  // --------------------------------------------------------------------- stitching

  predicate Owns(a: Ax, token: string, backend: int) {
    a.data.token == Some(token) && a.data.backend == Some(backend)
  }

  // The first node taken from a document with the given DOM node.
  function OwnerIndex(merged: seq<Ax>, token: string, backend: int): Option<nat> {
    if merged == [] then None
    else if Owns(merged[0], token, backend) then Some(0)
    else
      var r := OwnerIndex(merged[1..], token, backend);
      if r.Some? then Some(r.value + 1) else None
  }

  lemma {:induction false} OwnerIndexIsFirst(merged: seq<Ax>, token: string, backend: int)
    ensures match OwnerIndex(merged, token, backend)
            case None => forall j :: 0 <= j < |merged| ==> !Owns(merged[j], token, backend)
            case Some(i) => i < |merged| && Owns(merged[i], token, backend)
                            && forall j :: 0 <= j < i ==> !Owns(merged[j], token, backend)
    decreases |merged|
  {
    if merged != [] && !Owns(merged[0], token, backend) {
      OwnerIndexIsFirst(merged[1..], token, backend);
      forall j | 0 < j < |merged| ensures merged[j] == merged[1..][j - 1] {
      }
    }
  }

  function WithChild(a: Ax, child: Id): Ax {
    a.(childIds := a.childIds + [child])
  }

  function Reparented(nodes: seq<Ax>, id: Id, parent: Id): (r: seq<Ax>)
    ensures |r| == |nodes|
    ensures forall i :: 0 <= i < |nodes| ==>
              r[i] == if nodes[i].id == id then nodes[i].(parentId := Some(parent)) else nodes[i]
  {
    if nodes == [] then []
    else
      [if nodes[0].id == id then nodes[0].(parentId := Some(parent)) else nodes[0]]
      + Reparented(nodes[1..], id, parent)
  }

  // One child frame spliced in: its nodes under a prefix of their own, its root
  // below its owner when both are there, stamped with its document.
  function StitchOne(merged: seq<Ax>, child: ChildFrame, index: nat): seq<Ax> {
    var nodes := RenamedAll(child.nodes, Prefix(index));
    var owner := OwnerIndex(merged, child.ownerToken, child.ownerBackend);
    var root := RootId(nodes);
    if owner.Some? && root.Some? && owner.value < |merged| then
      merged[owner.value := WithChild(merged[owner.value], root.value)]
        + StampedAll(Reparented(nodes, root.value, merged[owner.value].id), child.token)
    else merged + StampedAll(nodes, child.token)
  }

  function StitchAll(merged: seq<Ax>, children: seq<ChildFrame>, index: nat): seq<Ax>
    decreases |children|
  {
    if children == [] then merged else StitchAll(StitchOne(merged, children[0], index), children[1..], index + 1)
  }

  type OwnerTable = map<(string, int), nat>

  // The table of owners is the first-claim index of everything taken so far.
  ghost predicate Indexed(merged: seq<Ax>, byOwner: OwnerTable) {
    forall t, b :: ((t, b) in byOwner <==> OwnerIndex(merged, t, b).Some?)
      && ((t, b) in byOwner ==> OwnerIndex(merged, t, b) == Some(byOwner[(t, b)]))
  }

  lemma {:induction false} OwnerAppended(merged: seq<Ax>, a: Ax, token: string, backend: int)
    ensures OwnerIndex(merged + [a], token, backend) ==
            if OwnerIndex(merged, token, backend).Some? then OwnerIndex(merged, token, backend)
            else if Owns(a, token, backend) then Some(|merged|) else None
    decreases |merged|
  {
    if merged == [] {
      assert merged + [a] == [a] && [a][1..] == merged;
    } else {
      assert (merged + [a])[1..] == merged[1..] + [a];
      OwnerAppended(merged[1..], a, token, backend);
    }
  }

  lemma {:induction false} OwnerUnmoved(merged: seq<Ax>, i: nat, a: Ax, token: string, backend: int)
    requires i < |merged| && a.data == merged[i].data
    ensures OwnerIndex(merged[i := a], token, backend) == OwnerIndex(merged, token, backend)
    decreases |merged|
  {
    if i == 0 {
      assert merged[0 := a][1..] == merged[1..];
    } else {
      assert merged[i := a][1..] == merged[1..][i - 1 := a];
      OwnerUnmoved(merged[1..], i - 1, a, token, backend);
    }
  }

  method Take(nodes: seq<Ax>, token: string, merged: seq<Ax>, byOwner: OwnerTable)
    returns (merged': seq<Ax>, byOwner': OwnerTable)
    requires Indexed(merged, byOwner)
    ensures merged' == merged + StampedAll(nodes, token) && Indexed(merged', byOwner')
  {
    merged', byOwner' := merged, byOwner;
    var i := 0;
    ghost var stamped := StampedAll(nodes, token);
    while i < |nodes|
      invariant 0 <= i <= |nodes|
      invariant merged' == merged + stamped[..i] && Indexed(merged', byOwner')
    {
      var node := Stamped(nodes[i], token);
      ghost var before := merged';
      if node.data.backend.Some? && (token, node.data.backend.value) !in byOwner' {
        byOwner' := byOwner'[(token, node.data.backend.value) := |merged'|];
      }
      merged' := merged' + [node];
      forall t, b ensures OwnerIndex(merged', t, b) ==
                          if OwnerIndex(before, t, b).Some? then OwnerIndex(before, t, b)
                          else if Owns(node, t, b) then Some(|before|) else None {
        OwnerAppended(before, node, t, b);
      }
      i := i + 1;
    }
    assert stamped[..i] == stamped;
  }

  method StitchAxFrames(top: seq<Ax>, children: seq<ChildFrame>, topToken: string) returns (merged: seq<Ax>)
    ensures merged == StitchAll(StampedAll(top, topToken), children, 0)
  {
    var byOwner: OwnerTable := map[];
    merged := [];
    merged, byOwner := Take(top, topToken, merged, byOwner);
    assert merged == StampedAll(top, topToken);
    var index := 0;
    ghost var goal := StitchAll(merged, children, 0);
    while index < |children|
      invariant 0 <= index <= |children|
      invariant Indexed(merged, byOwner)
      invariant StitchAll(merged, children[index..], index) == goal
    {
      var child := children[index];
      assert children[index..][0] == child && children[index..][1..] == children[index + 1..];
      merged, byOwner := StitchChild(merged, byOwner, child, index);
      index := index + 1;
    }
  }

  // One turn of the loop: rename, find the owner, link, take.
  method StitchChild(merged: seq<Ax>, byOwner: OwnerTable, child: ChildFrame, index: nat)
    returns (merged': seq<Ax>, byOwner': OwnerTable)
    requires Indexed(merged, byOwner)
    ensures merged' == StitchOne(merged, child, index) && Indexed(merged', byOwner')
  {
    var prefix := Prefix(index);
    var root: Option<Id>;
    var nodes: seq<Ax>;
    nodes, root := Namespace(child.nodes, prefix);
    merged', byOwner' := merged, byOwner;
    var key := (child.ownerToken, child.ownerBackend);
    OwnerIndexIsFirst(merged, child.ownerToken, child.ownerBackend);
    if key in byOwner && root.Some? {
      var at := byOwner[key];
      ghost var owner := merged[at];
      nodes := Reparented(nodes, root.value, merged[at].id);
      merged' := merged[at := WithChild(merged[at], root.value)];
      forall t, b ensures OwnerIndex(merged', t, b) == OwnerIndex(merged, t, b) {
        OwnerUnmoved(merged, at, WithChild(owner, root.value), t, b);
      }
    }
    merged', byOwner' := Take(nodes, child.token, merged', byOwner');
  }

  method Namespace(raw: seq<Ax>, prefix: string) returns (nodes: seq<Ax>, root: Option<Id>)
    ensures nodes == RenamedAll(raw, prefix) && root == RootId(nodes)
  {
    nodes, root := [], None;
    var i := 0;
    while i < |raw|
      invariant 0 <= i <= |raw|
      invariant nodes == RenamedAll(raw, prefix)[..i] && root == RootId(nodes)
    {
      hide Renamed, RenamedAll, RootId;
      var node := Renamed(raw[i], prefix);
      RenamedSnoc(raw, prefix, i);
      RootSnoc(nodes, node);
      if node.parentId.None? {
        root := Some(node.id);
      }
      nodes := nodes + [node];
      i := i + 1;
    }
  }

  lemma RenamedSnoc(raw: seq<Ax>, prefix: string, i: nat)
    requires i < |raw|
    ensures RenamedAll(raw, prefix)[..i + 1] == RenamedAll(raw, prefix)[..i] + [Renamed(raw[i], prefix)]
  {
  }

  lemma RootSnoc(nodes: seq<Ax>, last: Ax)
    ensures RootId(nodes + [last]) == if last.parentId.None? then Some(last.id) else RootId(nodes)
  {
    assert (nodes + [last])[..|nodes|] == nodes;
  }
}

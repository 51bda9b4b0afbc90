// What a snapshot's UIDs mean, with the tree in hand and without it.
module SnapshotLaws {
  import opened Prelude
  import opened Forest
  import opened Walks
  import opened Uids
  import opened Stitching
  import opened StitchLaws
  import opened Snapshots
  import opened SnapshotReaders

  lemma PreDistinctHere(m: AxLinks, root: Id)
    requires IsForest(m) && root in m
    ensures Distinct(PreOrder(m, root))
    ensures forall y :: y in PreOrder(m, root) ==> y in m
  {
    PreDistinct(m, Depths(m), root);
    forall y | y in PreOrder(m, root) ensures y in m {
      PreMembers(m, Depths(m), root, y);
    }
  }

  lemma NamedOnce(visited: seq<Id>, order: seq<string>, x: Id, u: string, i: nat)
    requires Distinct(visited) && Distinct(order) && |visited| == |order| && i < |order|
    requires Named(visited, order, x, u)
    ensures visited[i] == x <==> order[i] == u
  {
  }

  // The UIDs of a snapshot form the very tree the reply held: one node is
  // another's child by UID exactly when it is its child by AX id, and the same
  // for parents.
  lemma UidTreeIsInputTree(byId: map<Id, Ax>, token: string, root: Id, snap: Snapshot, i: nat, j: nat)
    requires IsForest(Cells(byId)) && root in Cells(byId) && Lists(byId, token, root, snap)
    requires i < |snap.nodes| && j < |snap.nodes|
    ensures var m, a, b := Cells(byId), snap.nodes[i], snap.nodes[j];
            && a.axId in m && b.axId in m
            && (a.uid in b.childUids <==> a.axId in m[b.axId].kids)
            && (i > 0 ==> (a.parentUid == Some(b.uid) <==> m[a.axId].parent == Some(b.axId)))
            && (a.uid == b.uid <==> i == j) && (a.axId == b.axId <==> i == j)
  {
    hide Minted, Cells, IsForest, PreOrder, Origins, Pre, DepthMap, Distinct;
    var m := Cells(byId);
    var pre := PreOrder(m, root);
    var uids := Minted(Origins(byId, pre, token));
    assert ListedAt(m, pre, uids, snap, i) && ListedAt(m, pre, uids, snap, j);
    PreDistinctHere(m, root);
    var a, b, kids := snap.nodes[i], snap.nodes[j], m[snap.nodes[j].axId].kids;
    if a.uid in b.childUids {
      var c :| 0 <= c < |b.childUids| && b.childUids[c] == a.uid;
      NamedOnce(pre, uids, kids[c], b.childUids[c], i);
    }
    if a.axId in kids {
      var c :| 0 <= c < |kids| && kids[c] == a.axId;
      NamedOnce(pre, uids, kids[c], b.childUids[c], i);
    }
    if i > 0 {
      NamedOnce(pre, uids, m[a.axId].parent.value, a.parentUid.value, j);
    }
  }

  // The token of the document a node came from: its stamp, or the build's where it
  // has none.
  function DocumentToken(byId: map<Id, Ax>, token: string, x: Id): string
    requires x in byId
  {
    var stamp := byId[x].data.token;
    if stamp.Some? && stamp.value != "" then stamp.value else token
  }

  // Two nodes are one DOM node of one document.
  predicate SameDomNode(byId: map<Id, Ax>, token: string, x: Id, y: Id)
  {
    && x in byId && y in byId
    && DocumentToken(byId, token, x) == DocumentToken(byId, token, y)
    && byId[x].data.backend == byId[y].data.backend
  }

  lemma OriginIsStamp(byId: map<Id, Ax>, token: string, x: Id)
    requires x in byId
    ensures OriginOf(byId, x, token) == Origin(DocumentToken(byId, token, x), byId[x].data.backend)
  {
  }

  // Every UID names the document its node came from, never another: a click goes
  // where the node is. And it names no DOM node but the node's own.
  lemma UidNamesItsDocument(byId: map<Id, Ax>, token: string, root: Id, snap: Snapshot, k: nat)
    requires IsForest(Cells(byId)) && root in Cells(byId) && Lists(byId, token, root, snap)
    requires PlainTokens(byId, token) && k < |snap.nodes|
    ensures var n := snap.nodes[k];
            && n.axId in byId && n.backend == byId[n.axId].data.backend
            && n.role == byId[n.axId].data.role && n.ignored == byId[n.axId].data.ignored
            && ParseUid(n.uid).0 == DocumentToken(byId, token, n.axId)
            && (ParseUid(n.uid).1.Some? ==> n.backend == Some(ParseUid(n.uid).1.value))
  {
    hide Minted, PreOrder, IsForest, ParseUid, OriginOf, Recorded, ParentNamed, Cells, PlainTokens, AllPlain, Distinct;
    var m := Cells(byId);
    var pre := PreOrder(m, root);
    var origins := Origins(byId, pre, token);
    assert ListedAt(m, pre, Minted(origins), snap, k);
    ListedId(m, pre, Minted(origins), snap, k);
    PlainOrigins(byId, pre, token);
    MintNamesItsOrigin(origins, k);
    CellsAreHere(byId);
    CellData(byId, pre[k]);
    OriginIsStamp(byId, token, pre[k]);
  }

  lemma CellsAreHere(byId: map<Id, Ax>)
    ensures Cells(byId).Keys == byId.Keys
  {
  }

  lemma MintNamesItsOrigin(origins: seq<Origin>, k: nat)
    requires AllPlain(origins) && k < |origins|
    ensures var (document, node) := ParseUid(Minted(origins)[k]);
            document == origins[k].token && (node.Some? ==> origins[k].backend == Some(node.value))
  {
    hide Minted, ParseUid, MakeUid, OrdinalUid;
    NamedIffFirst(origins, k);
    ParseOrdinal(origins[k].token, k + 1);
    ParseMade(origins[k].token, origins[k].backend.GetOr(0));
  }

  // Looking a UID up in the tree and resolving it with no tree agree: the second
  // answers with the node's own DOM node, for the node that claimed it, in a
  // document that is live, and refuses otherwise.
  lemma TreeFreeAgrees(byId: map<Id, Ax>, token: string, root: Id, snap: Snapshot, k: nat, live: set<string>)
    requires IsForest(Cells(byId)) && root in Cells(byId) && Lists(byId, token, root, snap)
    requires PlainTokens(byId, token) && k < |snap.nodes|
    ensures var n := snap.nodes[k];
            && snap.Resolve(n.uid) == Some(n)
            && match BackendFor(n.uid, live)
               case Ok(b) => n.backend == Some(b) && ParseUid(n.uid).0 in live
               case Err(StaleDocument) => ParseUid(n.uid).0 !in live
               case Err(NoDomNode) =>
                 n.backend.None? || n.backend.value < 0
                 || exists j :: 0 <= j < k && SameDomNode(byId, token, snap.nodes[j].axId, n.axId)
  {
    var m := Cells(byId);
    var pre := PreOrder(m, root);
    var origins := Origins(byId, pre, token);
    assert ListedAt(m, pre, Minted(origins), snap, k);
    PlainOrigins(byId, pre, token);
    ResolvedWithoutTree(origins, k, live);
    NamedIffFirst(origins, k);
    ParseOrdinal(origins[k].token, k + 1);
    ParseMade(origins[k].token, origins[k].backend.GetOr(0));
    CellData(byId, pre[k]);
    hide Minted, PreOrder, IsForest, Recorded, ParentNamed, BackendFor, ParseUid, MakeUid, OrdinalUid;
    if origins[k].backend.Some? && !FirstOfItsNode(origins, k) {
      var j :| 0 <= j < k && origins[j] == origins[k];
      assert ListedAt(m, pre, Minted(origins), snap, j);
      ListedId(m, pre, Minted(origins), snap, j);
      ListedId(m, pre, Minted(origins), snap, k);
      OriginIsStamp(byId, token, pre[j]);
      OriginIsStamp(byId, token, pre[k]);
    }
  }

  lemma ListedId(m: AxLinks, pre: seq<Id>, uids: seq<string>, snap: Snapshot, k: nat)
    requires k < |pre| == |uids| == |snap.nodes| && ListedAt(m, pre, uids, snap, k)
    ensures snap.nodes[k].axId == pre[k] && snap.nodes[k].uid == uids[k]
    ensures pre[k] in m && snap.nodes[k].backend == m[pre[k]].data.backend
    ensures snap.nodes[k].role == m[pre[k]].data.role && snap.nodes[k].ignored == m[pre[k]].data.ignored
  {
  }

  // Within one document, a DOM node that only one listed node names keeps its UID
  // in every snapshot that lists it, whatever else the trees hold.
  lemma UidIsStable(byId: map<Id, Ax>, token: string, root: Id, snap: Snapshot, k: nat)
    requires IsForest(Cells(byId)) && root in Cells(byId) && Lists(byId, token, root, snap)
    requires PlainTokens(byId, token) && k < |snap.nodes| && snap.nodes[k].backend.Some?
    requires forall j :: 0 <= j < |snap.nodes| && j != k ==>
               !SameDomNode(byId, token, snap.nodes[j].axId, snap.nodes[k].axId)
    ensures snap.nodes[k].axId in byId
    ensures snap.nodes[k].uid
         == MakeUid(DocumentToken(byId, token, snap.nodes[k].axId), snap.nodes[k].backend.value)
  {
    hide Minted, PreOrder, IsForest, MakeUid, OrdinalUid, OriginOf, Recorded, ParentNamed, Cells, PlainTokens, AllPlain,
         Distinct, SameDomNode;
    var m := Cells(byId);
    var pre := PreOrder(m, root);
    var origins := Origins(byId, pre, token);
    CellsAreHere(byId);
    ListedThere(byId, token, root, snap);
    PlainOrigins(byId, pre, token);
    NamedIffFirst(origins, k);
    CellData(byId, pre[k]);
    OriginIsStamp(byId, token, pre[k]);
    forall j | 0 <= j < k ensures origins[j] != origins[k] {
      OriginsDiffer(byId, token, pre[j], pre[k]);
    }
    assert FirstOfItsNode(origins, k);
  }

  // The nodes are listed in document order, each of the reply.
  lemma ListedThere(byId: map<Id, Ax>, token: string, root: Id, snap: Snapshot)
    requires IsForest(Cells(byId)) && root in Cells(byId) && Lists(byId, token, root, snap)
    ensures var pre := PreOrder(Cells(byId), root);
            && |snap.nodes| == |pre|
            && forall j :: 0 <= j < |pre| ==>
                 && pre[j] in byId && snap.nodes[j].axId == pre[j]
                 && snap.nodes[j].uid == Minted(Origins(byId, pre, token))[j]
                 && snap.nodes[j].backend == Cells(byId)[pre[j]].data.backend
  {
    hide Minted, PreOrder, IsForest, Origins, Recorded, ParentNamed, Cells, Distinct;
    CellsAreHere(byId);
    var m := Cells(byId);
    var pre := PreOrder(m, root);
    var uids := Minted(Origins(byId, pre, token));
    forall j | 0 <= j < |pre|
      ensures pre[j] in byId && snap.nodes[j].axId == pre[j] && snap.nodes[j].uid == uids[j]
      ensures snap.nodes[j].backend == m[pre[j]].data.backend
    {
      assert ListedAt(m, pre, uids, snap, j);
      ListedId(m, pre, uids, snap, j);
    }
  }

  lemma OriginsDiffer(byId: map<Id, Ax>, token: string, x: Id, y: Id)
    requires x in byId && y in byId && !SameDomNode(byId, token, x, y)
    ensures OriginOf(byId, x, token) != OriginOf(byId, y, token)
  {
    OriginIsStamp(byId, token, x);
    OriginIsStamp(byId, token, y);
  }

  // ------------------------------------------------------- stitched, then built

  lemma {:induction false} ByIdIs(nodes: seq<Ax>, x: Id)
    requires x in ById(nodes)
    ensures x in LinksOf(nodes) && NodeOf(ById(nodes)[x]) == LinksOf(nodes)[x] && ById(nodes)[x].id == x
    decreases |nodes|
  {
    if x != nodes[|nodes| - 1].id {
      ByIdIs(nodes[..|nodes| - 1], x);
    }
  }

  lemma {:induction false} ParentlessIs(nodes: seq<Ax>, byId: map<Id, Ax>, root: Id, at: nat)
    requires at < |nodes| && nodes[at].id == root
    requires forall i :: 0 <= i < |nodes| ==>
               (nodes[i].parentId.None? || nodes[i].parentId.value !in byId <==> nodes[i].id == root)
    ensures FirstParentless(nodes, byId) == Some(root)
    decreases |nodes|
  {
    if nodes[0].id != root {
      ParentlessIs(nodes[1..], byId, root, at - 1);
    }
  }

  lemma CellIsLink(nodes: seq<Ax>, root: Id, x: Id)
    requires IsAxTree(nodes, root) && x in ById(nodes)
    ensures x in LinksOf(nodes) && Cells(ById(nodes))[x] == LinksOf(nodes)[x]
  {
    var byId, m := ById(nodes), LinksOf(nodes);
    ByIdIs(nodes, x);
    assert Placed(m, Depths(m), x);
    assert forall k :: k in m[x].kids ==> k in byId.Keys;
  }

  // For a reply that is one tree, the walk starts at its root and sees all its links.
  lemma CellsAreLinks(nodes: seq<Ax>, root: Id)
    requires IsAxTree(nodes, root)
    ensures Cells(ById(nodes)) == LinksOf(nodes)
    ensures RootOf(nodes, ById(nodes)) == Some(root)
  {
    CellsSame(nodes, root);
    RootIsParentless(nodes, root);
  }

  lemma CellsSame(nodes: seq<Ax>, root: Id)
    requires IsAxTree(nodes, root)
    ensures Cells(ById(nodes)) == LinksOf(nodes)
  {
    var byId, m := ById(nodes), LinksOf(nodes);
    forall x | x in byId ensures Cells(byId)[x] == m[x] {
      CellIsLink(nodes, root, x);
    }
    SameMap(Cells(byId), m);
  }

  lemma RootIsParentless(nodes: seq<Ax>, root: Id)
    requires IsAxTree(nodes, root)
    ensures RootOf(nodes, ById(nodes)) == Some(root)
  {
    var byId, m := ById(nodes), LinksOf(nodes);
    var at := Find(nodes, root);
    hide LinksOf, ById, Cells;
    forall i | 0 <= i < |nodes|
      ensures nodes[i].parentId.None? || nodes[i].parentId.value !in byId <==> nodes[i].id == root
    {
      LinksAt(nodes, i);
      assert Placed(m, Depths(m), nodes[i].id);
    }
    ParentlessIs(nodes, byId, root, at);
  }

  // A stitched page and its snapshot: the merged reply is one tree, the walk
  // starts at the page's root, and every node of every document is listed once.
  lemma StitchedSnapshot(top: seq<Ax>, root: Id, topToken: string, children: seq<ChildFrame>, roots: seq<Id>,
                         token: string, snap: Snapshot)
    requires IsAxTree(top, root) && SpacedAll(IdsOf(top), children, 0)
    requires TreesAll(children, roots) && OwnersEarlier(StampedAll(top, topToken), children)
    ensures var merged := StitchAll(StampedAll(top, topToken), children, 0);
            && IsAxTree(merged, root) && Cells(ById(merged)) == LinksOf(merged)
            && RootOf(merged, ById(merged)) == Some(root)
            && IdsOf(merged) == IdsOf(top) + ChildIds(children, 0)
            && (Built(merged, token, snap) ==>
                 && |snap.nodes| == |merged|
                 && forall i :: 0 <= i < |merged| ==> ListsNode(snap, merged[i].id))
  {
    StitchIsOneTree(top, root, topToken, children, roots);
    var merged := StitchAll(StampedAll(top, topToken), children, 0);
    hide StitchAll, IsAxTree, OwnersEarlier, ChildIds, ChildOrders, StampedAll;
    CellsAreLinks(merged, root);
    if Built(merged, token, snap) {
      WholeTreeListed(merged, root, token, snap);
    }
  }

  ghost predicate ListsNode(snap: Snapshot, x: Id) {
    exists k :: 0 <= k < |snap.nodes| && snap.nodes[k].axId == x
  }

  // The token of the document that the i-th node of a stitched reply came from.
  function TokenAt(top: seq<Ax>, topToken: string, children: seq<ChildFrame>, i: nat): string
    requires i < |top| + |ChildData(children)|
  {
    if i < |top| then topToken else ChildTokenAt(children, i - |top|)
  }

  function ChildTokenAt(children: seq<ChildFrame>, i: nat): string
    requires i < |ChildData(children)|
  {
    if i < |children[0].nodes| then children[0].token else ChildTokenAt(children[1..], i - |children[0].nodes|)
  }

  lemma {:induction false} ChildStamps(children: seq<ChildFrame>, i: nat)
    requires i < |ChildData(children)|
    ensures ChildData(children)[i].token == Some(ChildTokenAt(children, i))
    decreases |children|
  {
    var first := DataOf(StampedAll(children[0].nodes, children[0].token));
    if i >= |first| {
      ChildStamps(children[1..], i - |first|);
    }
  }

  // Each node of a stitched page is listed under its own document's token, wherever
  // it was hung.
  lemma StitchedUids(top: seq<Ax>, root: Id, topToken: string, children: seq<ChildFrame>, roots: seq<Id>,
                     token: string, snap: Snapshot, i: nat, k: nat)
    requires IsAxTree(top, root) && SpacedAll(IdsOf(top), children, 0)
    requires TreesAll(children, roots) && OwnersEarlier(StampedAll(top, topToken), children)
    requires var merged := StitchAll(StampedAll(top, topToken), children, 0);
             && IsForest(Cells(ById(merged))) && Built(merged, token, snap) && PlainTokens(ById(merged), token)
             && i < |merged| && k < |snap.nodes| && snap.nodes[k].axId == merged[i].id
    ensures |StitchAll(StampedAll(top, topToken), children, 0)| == |top| + |ChildData(children)|
    ensures var own := TokenAt(top, topToken, children, i);
            ParseUid(snap.nodes[k].uid).0 == if own != "" then own else token
  {
    var merged := StitchAll(StampedAll(top, topToken), children, 0);
    hide *;
    StitchIsOneTree(top, root, topToken, children, roots);
    StitchKeepsNodes(StampedAll(top, topToken), children, 0);
    MergedStamp(merged, top, topToken, children, i);
    MergedUid(merged, root, token, snap, i, k, IdsOf(top) + ChildIds(children, 0),
              [PreOrder(LinksOf(top), root)] + ChildOrders(children, roots, 0));
  }

  lemma MergedUid(merged: seq<Ax>, root: Id, token: string, snap: Snapshot, i: nat, k: nat, ids: seq<Id>,
                  docs: seq<seq<Id>>)
    requires Stitched(merged, root, ids, docs) && IsForest(Cells(ById(merged))) && Built(merged, token, snap)
    requires PlainTokens(ById(merged), token) && i < |merged| && k < |snap.nodes| && snap.nodes[k].axId == merged[i].id
    ensures var stamp := merged[i].data.token;
            ParseUid(snap.nodes[k].uid).0 == if stamp.Some? && stamp.value != "" then stamp.value else token
  {
    hide LinksOf, Cells, IsForest, PlainTokens, Lists, ParseUid, ById, IsTree, RootOf;
    CellsAreLinks(merged, root);
    NodeById(merged, i);
    UidNamesItsDocument(ById(merged), token, root, snap, k);
  }

  lemma MergedStamp(merged: seq<Ax>, top: seq<Ax>, topToken: string, children: seq<ChildFrame>, i: nat)
    requires DataOf(merged) == DataOf(StampedAll(top, topToken)) + ChildData(children) && i < |merged|
    ensures |merged| == |top| + |ChildData(children)|
    ensures merged[i].data.token == Some(TokenAt(top, topToken, children, i))
  {
    assert DataOf(merged)[i] == merged[i].data;
    if i >= |top| { ChildStamps(children, i - |top|); }
  }

  lemma {:induction false} NodeById(nodes: seq<Ax>, i: nat)
    requires i < |nodes| && Distinct(IdsOf(nodes))
    ensures nodes[i].id in ById(nodes) && ById(nodes)[nodes[i].id] == nodes[i]
    decreases |nodes|
  {
    var init := nodes[..|nodes| - 1];
    assert IdsOf(nodes)[i] == nodes[i].id;
    if i < |init| {
      assert IdsOf(nodes)[|init|] == nodes[|init|].id;
      forall a, b | 0 <= a < b < |init| ensures IdsOf(init)[a] != IdsOf(init)[b] {
        assert IdsOf(nodes)[a] == IdsOf(init)[a] && IdsOf(nodes)[b] == IdsOf(init)[b];
      }
      NodeById(init, i);
    }
  }

  lemma WholeTreeListed(nodes: seq<Ax>, root: Id, token: string, snap: Snapshot)
    requires IsAxTree(nodes, root) && IsForest(Cells(ById(nodes))) && Built(nodes, token, snap)
    ensures |snap.nodes| == |nodes|
    ensures forall i :: 0 <= i < |nodes| ==> ListsNode(snap, nodes[i].id)
  {
    hide Cells, Minted, Recorded, ParentNamed, Pre, DepthMap, Origins;
    CellsAreLinks(nodes, root);
    var byId, m := ById(nodes), LinksOf(nodes);
    WalkIsComplete(m, root);
    var pre := PreOrder(m, root);
    var uids := Minted(Origins(byId, pre, token));
    assert IsTree(m, Some(root));
    hide LinksOf, ById, Cells, Minted, PreOrder, IsTree, Recorded, ParentNamed;
    forall i | 0 <= i < |nodes| ensures ListsNode(snap, nodes[i].id) {
      LinksAt(nodes, i);
      var k :| 0 <= k < |pre| && pre[k] == nodes[i].id;
      assert ListedAt(m, pre, uids, snap, k);
      ListedId(m, pre, uids, snap, k);
    }
    SameSize(pre, IdsOf(nodes));
  }

  lemma {:induction false} SameSize(a: seq<Id>, b: seq<Id>)
    requires Distinct(a) && Distinct(b) && forall x :: x in a <==> x in b
    ensures |a| == |b|
  {
    CountDistinct(a);
    CountDistinct(b);
    assert Elems(a) == Elems(b);
  }

  lemma {:induction false} CountDistinct(a: seq<Id>)
    requires Distinct(a)
    ensures |Elems(a)| == |a|
    decreases |a|
  {
    if a != [] {
      assert Elems(a) == {a[0]} + Elems(a[1..]);
      CountDistinct(a[1..]);
    }
  }
}

// The reader that owns a page's snapshots, and what a caller holding only a UID
// can rely on.
module SnapshotReaders {
  import opened Prelude
  import opened Forest
  import opened Walks
  import opened Uids
  import opened Stitching
  import opened Snapshots

  // nodes lists the tree below root in document order, each node under the UID
  // minting gives it there, with the UIDs of its parent and its children.
  ghost predicate Lists(byId: map<Id, Ax>, token: string, root: Id, snap: Snapshot)
    requires IsForest(Cells(byId)) && root in Cells(byId)
  {
    var m := Cells(byId);
    var pre := PreOrder(m, root);
    var uids := Minted(Origins(byId, pre, token));
    && snap.rootUid == Some(uids[0])
    && |snap.nodes| == |pre|
    && Distinct(uids)
    && snap.byUid.Keys == Elems(uids)
    && forall k :: 0 <= k < |pre| ==> ListedAt(m, pre, uids, snap, k)
  }

  ghost predicate ListedAt(m: AxLinks, pre: seq<Id>, uids: seq<string>, snap: Snapshot, k: nat)
    requires k < |pre| == |uids| == |snap.nodes|
  {
    var n := snap.nodes[k];
    && pre[k] in m && Recorded(m, pre, uids, k, n)
    && (if k == 0 then n.parentUid == None else ParentNamed(m, pre, uids, pre[k], n))
    && uids[k] in snap.byUid && snap.byUid[uids[k]] == n
  }

  ghost predicate Built(nodes: seq<Ax>, token: string, snap: Snapshot)
    requires IsForest(Cells(ById(nodes)))
  {
    var byId := ById(nodes);
    match RootOf(nodes, byId)
    case None => snap.rootUid == None && snap.nodes == [] && snap.byUid == map[]
    case Some(r) => r in byId && Lists(byId, token, r, snap)
  }

  lemma {:induction false} RootIsThere(nodes: seq<Ax>, byId: map<Id, Ax>)
    requires forall i :: 0 <= i < |nodes| ==> nodes[i].id in byId
    ensures FirstParentless(nodes, byId).Some? ==> FirstParentless(nodes, byId).value in byId
    decreases |nodes|
  {
    if nodes != [] {
      RootIsThere(nodes[1..], byId);
    }
  }

  lemma RootInReply(nodes: seq<Ax>)
    ensures var r := RootOf(nodes, ById(nodes)); r.Some? ==> r.value in ById(nodes)
  {
    var byId := ById(nodes);
    forall i | 0 <= i < |nodes| ensures nodes[i].id in byId {
      assert IdsOf(nodes)[i] in IdsOf(nodes);
    }
    RootIsThere(nodes, byId);
  }

  class NativeSnapshotReader {
    var generation: nat
    var current: Option<Snapshot>

    constructor ()
      ensures generation == 0 && current == None
    {
      generation, current := 0, None;
    }

    // A snapshot of the tree a reply holds; it becomes the current one.
    method Build(nodes: seq<Ax>, token: string) returns (snap: Snapshot)
      requires IsForest(Cells(ById(nodes))) && PlainTokens(ById(nodes), token)
      modifies this
      ensures generation == old(generation) + 1 && current == Some(snap)
      ensures snap.generation == generation && snap.token == token
      ensures Built(nodes, token, snap)
    {
      hide Cells, IsForest, PlainTokens, Minted, Lists, ById;
      generation := generation + 1;
      var byId := ById(nodes);
      var root := RootOf(nodes, byId);
      RootInReply(nodes);
      var builder := new Builder(byId, token);
      var rootUid: Option<string> := None;
      if root.Some? {
        CellKids(byId, root.value);
        rootUid := builder.Walk(root.value, None);
      }
      var list := Collect(builder.order, builder.byUid);
      snap := Snapshot(generation, token, rootUid, list, builder.byUid);
      current := Some(snap);
      if root.Some? {
        OrderDistinct(byId, builder.visited, token);
        Collected(byId, token, root.value, Log(builder.visited, builder.order, builder.byUid), snap);
      }
    }

    method Collect(order: seq<string>, byUid: map<string, UidNode>) returns (list: seq<UidNode>)
      requires forall u :: u in order ==> u in byUid
      ensures |list| == |order| && forall k :: 0 <= k < |order| ==> list[k] == byUid[order[k]]
    {
      list := seq(|order|, k requires 0 <= k < |order| => byUid[order[k]]);
    }

    // Dropping the tree of a document that is gone; outstanding UIDs are refused
    // on their own evidence.
    method NoteNavigation()
      modifies this
      ensures current == None && generation == old(generation) + 1
    {
      current := None;
      generation := generation + 1;
    }

    method BackendNodeForUid(uid: string) returns (r: Option<int>)
      ensures r == match current
                   case None => None
                   case Some(s) => if uid in s.byUid then s.byUid[uid].backend else None
    {
      if current.None? {
        return None;
      }
      var n := current.value.Resolve(uid);
      return if n.Some? then n.value.backend else None;
    }
  }

  // A finished walk from nothing is a snapshot's list.
  lemma Collected(byId: map<Id, Ax>, token: string, root: Id, end: Log, snap: Snapshot)
    requires IsForest(Cells(byId)) && root in Cells(byId) && snap.rootUid.Some?
    requires Walked(Cells(byId), root, Log([], [], map[]), end, None, snap.rootUid.value)
    requires end.order == Minted(Origins(byId, end.visited, token)) && Distinct(end.order)
    requires end.byUid.Keys == Elems(end.order) && snap.byUid == end.byUid
    requires |snap.nodes| == |end.order|
    requires forall k :: 0 <= k < |end.order| ==> end.order[k] in end.byUid && snap.nodes[k] == end.byUid[end.order[k]]
    ensures Lists(byId, token, root, snap)
  {
    hide Minted, Cells, IsForest, PreOrder, Recorded, ParentNamed, Distinct, Elems, Pre, Origins, DepthMap;
    var m, pre := Cells(byId), PreOrder(Cells(byId), root);
    assert end.visited == [] + pre == pre;
    forall k | 0 <= k < |pre| ensures ListedAt(m, pre, end.order, snap, k) {
      if k > 0 {
        assert RowAt(m, end, k);
      }
    }
  }
}

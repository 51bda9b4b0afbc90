// Building a snapshot: one walk of the accessibility tree that gives every node
// a UID and records the tree again in terms of UIDs.
module Snapshots {
  import opened Prelude
  import opened Forest
  import opened Walks
  import opened Uids
  import opened Stitching

  datatype UidNode = UidNode(uid: string, axId: Id, backend: Option<int>, parentUid: Option<string>,
                             childUids: seq<string>, ignored: bool, role: string)

  const PLACEHOLDER := UidNode("", "", None, None, [], true, "")

  datatype Snapshot = Snapshot(generation: nat, token: string, rootUid: Option<string>, nodes: seq<UidNode>,
                               byUid: map<string, UidNode>)
  {
    function Resolve(uid: string): Option<UidNode> {
      if uid in byUid then Some(byUid[uid]) else None
    }
  }

  // The raw nodes by id; a later node with the same id wins.
  function ById(nodes: seq<Ax>): (m: map<Id, Ax>)
    ensures m.Keys == Elems(IdsOf(nodes))
    decreases |nodes|
  {
    if nodes == [] then map[]
    else
      LastId(nodes);
      ById(nodes[..|nodes| - 1])[nodes[|nodes| - 1].id := nodes[|nodes| - 1]]
  }

  // The links between the nodes that are there; a parent or a child the reply
  // does not hold counts for nothing.
  function Cells(byId: map<Id, Ax>): AxLinks {
    map x | x in byId ::
      Node(if byId[x].parentId.GetOr("") in byId then byId[x].parentId else None,
           Keep(byId[x].childIds, byId.Keys), byId[x].data)
  }

  // The document of a node is its stamp, or the build's when it has none.
  function OriginOf(byId: map<Id, Ax>, x: Id, token: string): Origin {
    if x in byId then
      var stamp := byId[x].data.token.GetOr("");
      Origin(if stamp == "" then token else stamp, byId[x].data.backend)
    else Origin(token, None)
  }

  function Origins(byId: map<Id, Ax>, ids: seq<Id>, token: string): (r: seq<Origin>)
    ensures |r| == |ids| && forall i :: 0 <= i < |ids| ==> r[i] == OriginOf(byId, ids[i], token)
  {
    if ids == [] then [] else [OriginOf(byId, ids[0], token)] + Origins(byId, ids[1..], token)
  }

  // The first node whose parent the reply does not hold; failing that, the first.
  function RootOf(nodes: seq<Ax>, byId: map<Id, Ax>): Option<Id> {
    var r := FirstParentless(nodes, byId);
    if r.Some? then r else if nodes == [] then None else Some(nodes[0].id)
  }

  function FirstParentless(nodes: seq<Ax>, byId: map<Id, Ax>): Option<Id> {
    if nodes == [] then None
    else if nodes[0].parentId.None? || nodes[0].parentId.value !in byId then Some(nodes[0].id)
    else FirstParentless(nodes[1..], byId)
  }

  // x was visited, and u is the UID it was given.
  ghost predicate Named(visited: seq<Id>, order: seq<string>, x: Id, u: string) {
    exists j :: 0 <= j < |visited| && j < |order| && visited[j] == x && order[j] == u
  }

  lemma NamedStays(visited: seq<Id>, order: seq<string>, moreIds: seq<Id>, moreUids: seq<string>, x: Id, u: string)
    requires Named(visited, order, x, u)
    ensures Named(visited + moreIds, order + moreUids, x, u)
  {
    var j :| 0 <= j < |visited| && j < |order| && visited[j] == x && order[j] == u;
    assert (visited + moreIds)[j] == x && (order + moreUids)[j] == u;
  }

  ghost predicate KidsNamed(visited: seq<Id>, order: seq<string>, kids: seq<Id>, uids: seq<string>) {
    |uids| == |kids| && forall c :: 0 <= c < |kids| ==> Named(visited, order, kids[c], uids[c])
  }

  // n is the finished record of x: its own data, its children's UIDs in order,
  // and, unless x is where the walk began, its parent's.
  ghost predicate Recorded(m: AxLinks, visited: seq<Id>, order: seq<string>, k: nat, n: UidNode)
    requires k < |visited| && k < |order| && visited[k] in m
  {
    var x := visited[k];
    && n.uid == order[k] && n.axId == x
    && n.backend == m[x].data.backend && n.ignored == m[x].data.ignored && n.role == m[x].data.role
    && KidsNamed(visited, order, m[x].kids, n.childUids)
  }

  ghost predicate ParentNamed(m: AxLinks, visited: seq<Id>, order: seq<string>, x: Id, n: UidNode) {
    x in m && m[x].parent.Some? && n.parentUid.Some? && Named(visited, order, m[x].parent.value, n.parentUid.value)
  }

  lemma KidsStay(visited: seq<Id>, order: seq<string>, moreIds: seq<Id>, moreUids: seq<string>,
                 kids: seq<Id>, uids: seq<string>)
    requires KidsNamed(visited, order, kids, uids)
    ensures KidsNamed(visited + moreIds, order + moreUids, kids, uids)
  {
    forall c | 0 <= c < |kids| ensures Named(visited + moreIds, order + moreUids, kids[c], uids[c]) {
      NamedStays(visited, order, moreIds, moreUids, kids[c], uids[c]);
    }
  }

  lemma KeepSnoc(s: seq<Id>, i: nat, keep: set<Id>)
    requires i < |s|
    ensures Keep(s[..i + 1], keep) == Keep(s[..i], keep) + if s[i] in keep then [s[i]] else []
  {
    assert s[..i + 1] == s[..i] + [s[i]];
    KeepConcat(s[..i], [s[i]], keep);
  }

  class Builder {
    const byId: map<Id, Ax>
    const token: string
    var ordinal: nat
    var byUid: map<string, UidNode>
    var order: seq<string>
    ghost var visited: seq<Id>  // the nodes the walk has claimed, in order

    constructor (byId: map<Id, Ax>, token: string)
      ensures this.byId == byId && this.token == token && Valid() && visited == []
    {
      this.byId, this.token := byId, token;
      ordinal, byUid, order, visited := 0, map[], [], [];
    }

    // Every claimed node has the UID minting gives it at its place in the walk.
    ghost predicate Valid()
      reads this
    {
      && Elems(visited) <= byId.Keys
      && order == Minted(Origins(byId, visited, token))
      && ordinal == |order|
      && byUid.Keys == Elems(order)
    }

    // The node's UID: its DOM node, or an ordinal when it has none or another
    // node of the walk has claimed it.
    method MintUid(backend: Option<int>, nodeToken: string) returns (uid: string)
      requires ordinal == |order| && byUid.Keys == Elems(order)
      modifies this`ordinal
      ensures ordinal == old(ordinal) + 1 && uid == Mint(order, Origin(nodeToken, backend))
    {
      ordinal := ordinal + 1;
      if backend.Some? {
        var candidate := MakeUid(nodeToken, backend.value);
        if candidate !in byUid {
          return candidate;
        }
      }
      return OrdinalUid(nodeToken, ordinal);
    }

    // Claim a UID for x before its subtree is walked.
    method Claim(x: Id) returns (uid: string)
      requires Valid() && x in byId && AllPlain(Origins(byId, visited + [x], token))
      modifies this
      ensures Valid() && visited == old(visited) + [x] && order == old(order) + [uid]
      ensures uid !in old(byUid) && byUid == old(byUid)[uid := PLACEHOLDER]
    {
      hide Minted, Mint, AllPlain, Origins;
      var stamp := byId[x].data.token.GetOr("");
      uid := MintUid(byId[x].data.backend, if stamp == "" then token else stamp);
      ClaimIsMint(byId, visited, x, token);
      byUid := byUid[uid := PLACEHOLDER];
      order := order + [uid];
      visited := visited + [x];
    }

    // The walk of one subtree. It visits exactly the nodes of the subtree, in
    // document order, and leaves each one's finished record under its UID.
    method Walk(x: Id, parentUid: Option<string>) returns (uid: Option<string>)
      requires Valid() && IsForest(Cells(byId)) && PlainTokens(byId, token)
      modifies this
      ensures Valid()
      ensures x !in byId ==> uid == None && visited == old(visited) && order == old(order) && byUid == old(byUid)
      ensures x in byId ==> uid.Some?
      ensures x in byId ==> Walked(Cells(byId), x, Log(old(visited), old(order), old(byUid)),
                                   Log(visited, order, byUid), parentUid, uid.value)
      decreases if x in byId then From(Depths(Cells(byId)), Depths(Cells(byId))[x]) else {}, 2
    {
      if x !in byId {
        return None;
      }
      hide *;
      var u := WalkNode(x, parentUid);
      uid := Some(u);
    }

    method WalkNode(x: Id, parentUid: Option<string>) returns (u: string)
      requires Valid() && IsForest(Cells(byId)) && PlainTokens(byId, token) && x in byId
      modifies this
      ensures Valid()
      ensures Walked(Cells(byId), x, Log(old(visited), old(order), old(byUid)), Log(visited, order, byUid), parentUid, u)
      decreases From(Depths(Cells(byId)), Depths(Cells(byId))[x]), 1
    {
      assert x in Cells(byId);
      hide Minted, Origins, Walked, KidsWalked, Cells, IsForest, PlainTokens, Recorded, Row, AllPlain, DepthMap, Pre,
           ParentNamed, Named, Elems, Distinct, KidsNamed, Grew;
      PlainOrigins(byId, visited + [x], token);
      ghost var m, start := Cells(byId), Log(visited, order, byUid);
      u := Claim(x);
      LastNamed(visited, order, x, u);
      ghost var claimed := Log(visited, order, byUid);
      var childUids := WalkKids(x, u);
      Close(x, u, parentUid, childUids, start, claimed);
    }

    // Once the children are walked, the node's own record.
    method Close(x: Id, uid: string, parentUid: Option<string>, childUids: seq<string>, ghost start: Log,
                 ghost claimed: Log)
      requires Valid() && IsForest(Cells(byId)) && PlainTokens(byId, token) && x in byId && x in Cells(byId)
      requires |start.visited| == |start.order| && start.byUid.Keys == Elems(start.order)
      requires claimed.visited == start.visited + [x] && claimed.order == start.order + [uid]
      requires uid !in start.byUid && claimed.byUid == start.byUid[uid := PLACEHOLDER]
      requires KidsWalked(Cells(byId), x, claimed, Log(visited, order, byUid), Cells(byId)[x].kids, childUids)
      modifies this`byUid
      ensures Valid()
      ensures Walked(Cells(byId), x, start, Log(visited, order, byUid), parentUid, uid)
    {
      hide Minted, Origins, Walked, KidsWalked, Cells, IsForest, PlainTokens, Elems;
      FinishNode(byId, token, x, start, claimed, Log(visited, order, byUid), uid, parentUid, childUids);
      Record(x, uid, parentUid, childUids);
    }

    // The node's finished record, in the place of the placeholder.
    method Record(x: Id, uid: string, parentUid: Option<string>, childUids: seq<string>)
      requires Valid() && x in byId && uid in order
      modifies this`byUid
      ensures Valid()
      ensures uid in byUid && byUid == old(byUid)[uid := byUid[uid]]
      ensures var (n, data) := (byUid[uid], Cells(byId)[x].data);
              n == UidNode(uid, x, data.backend, parentUid, childUids, data.ignored, data.role)
    {
      hide Minted, Origins;
      var a := byId[x];
      byUid := byUid[uid := UidNode(uid, x, a.data.backend, parentUid, childUids, a.data.ignored, a.data.role)];
    }

    method WalkKids(x: Id, uid: string) returns (childUids: seq<string>)
      requires Valid() && IsForest(Cells(byId)) && PlainTokens(byId, token) && x in byId
      requires Named(visited, order, x, uid)
      modifies this
      ensures Valid()
      ensures KidsWalked(Cells(byId), x, Log(old(visited), old(order), old(byUid)), Log(visited, order, byUid),
                         Cells(byId)[x].kids, childUids)
      decreases From(Depths(Cells(byId)), Depths(Cells(byId))[x]), 0
    {
      hide Minted, Origins, Walked, IsForest, PlainTokens, AllPlain, Named, Cells;
      ghost var m, start := Cells(byId), Log(visited, order, byUid);
      var raw := byId[x].childIds;
      CellKids(byId, x);
      KidLevels(m, Depths(m), x);
      childUids := [];
      KidsNone(m, x, start);
      var i := 0;
      ghost var kept: seq<Id> := [];
      hide KidsWalked;
      while i < |raw|
        invariant 0 <= i <= |raw| && Valid()
        invariant kept == Keep(raw[..i], byId.Keys)
        invariant KidsWalked(m, x, start, Log(visited, order, byUid), kept, childUids)
      {
        ghost var before := Log(visited, order, byUid);
        var childUid := Walk(raw[i], Some(uid));
        KeepSnoc(raw, i, byId.Keys);
        if childUid.Some? {
          KidStep(m, x, uid, start, before, Log(visited, order, byUid), kept, childUids, raw[i], childUid.value);
          childUids := childUids + [childUid.value];
          kept := kept + [raw[i]];
        }
        i := i + 1;
      }
      assert raw[..i] == raw;
    }
  }

  // The walk's books at one moment.
  datatype Log = Log(visited: seq<Id>, order: seq<string>, byUid: map<string, UidNode>)

  ghost predicate PlainTokens(byId: map<Id, Ax>, token: string) {
    Plain(token) && forall x :: x in byId && byId[x].data.token.Some? ==> Plain(byId[x].data.token.value)
  }

  // From lo on, every claimed node has its finished record, its parent named.
  ghost predicate Row(m: AxLinks, log: Log, lo: nat) {
    && |log.visited| == |log.order|
    && forall k :: lo <= k < |log.order| ==> RowAt(m, log, k)
  }

  ghost predicate RowAt(m: AxLinks, log: Log, k: nat)
    requires k < |log.order| == |log.visited|
  {
    && log.visited[k] in m && log.order[k] in log.byUid
    && Recorded(m, log.visited, log.order, k, log.byUid[log.order[k]])
    && ParentNamed(m, log.visited, log.order, log.visited[k], log.byUid[log.order[k]])
  }

  // after is before with more nodes claimed; nothing recorded before has changed.
  ghost predicate Grew(before: Log, after: Log, ids: seq<Id>) {
    && |before.visited| == |before.order|
    && after.visited == before.visited + ids
    && |after.order| == |after.visited| && before.order <= after.order
    && forall u :: u in before.order ==>
         u in before.byUid && u in after.byUid && after.byUid[u] == before.byUid[u]
  }

  ghost predicate Walked(m: AxLinks, x: Id, before: Log, after: Log, parentUid: Option<string>, uid: string)
    requires IsForest(m) && x in m
  {
    var at := |before.order|;
    && Grew(before, after, PreOrder(m, x))
    && at < |after.order| && after.order[at] == uid && after.visited[at] == x && uid in after.byUid
    && Recorded(m, after.visited, after.order, at, after.byUid[uid])
    && after.byUid[uid].parentUid == parentUid
    && Row(m, after, at + 1)
  }

  ghost predicate KidsWalked(m: AxLinks, x: Id, before: Log, after: Log, kids: seq<Id>, childUids: seq<string>)
    requires IsForest(m) && x in m
  {
    && (forall k :: k in kids ==> k in m && Depths(m)[k] == Depths(m)[x] + 1)
    && Grew(before, after, PreRow(m, Depths(m), kids, Depths(m)[x] + 1))
    && KidsNamed(after.visited, after.order, kids, childUids)
    && Row(m, after, |before.order|)
  }

  lemma ClaimIsMint(byId: map<Id, Ax>, visited: seq<Id>, x: Id, token: string)
    requires AllPlain(Origins(byId, visited + [x], token))
    ensures Minted(Origins(byId, visited + [x], token)) ==
            Minted(Origins(byId, visited, token))
            + [Mint(Minted(Origins(byId, visited, token)), OriginOf(byId, x, token))]
    ensures Mint(Minted(Origins(byId, visited, token)), OriginOf(byId, x, token))
            !in Minted(Origins(byId, visited, token))
  {
    var before, after := Origins(byId, visited, token), Origins(byId, visited + [x], token);
    OriginsSnoc(byId, visited, x, token);
    MintedDistinct(after);
    MintedSnoc(before, OriginOf(byId, x, token));
    hide Minted, Mint, Origins;
    LastIsNew(Minted(before), Mint(Minted(before), OriginOf(byId, x, token)));
  }

  lemma OriginsSnoc(byId: map<Id, Ax>, visited: seq<Id>, x: Id, token: string)
    ensures Origins(byId, visited + [x], token) == Origins(byId, visited, token) + [OriginOf(byId, x, token)]
  {
    hide OriginOf;
  }

  lemma MintedSnoc(before: seq<Origin>, o: Origin)
    ensures Minted(before + [o]) == Minted(before) + [Mint(Minted(before), o)]
  {
    var after := before + [o];
    assert after[..|after| - 1] == before;
  }

  lemma LastIsNew(uids: seq<string>, u: string)
    requires Distinct(uids + [u])
    ensures u !in uids
  {
    forall i | 0 <= i < |uids| ensures uids[i] != u {
      assert (uids + [u])[i] == uids[i] && (uids + [u])[|uids|] == u;
    }
  }

  lemma PlainOrigins(byId: map<Id, Ax>, ids: seq<Id>, token: string)
    requires PlainTokens(byId, token)
    ensures AllPlain(Origins(byId, ids, token))
  {
  }

  lemma OrderDistinct(byId: map<Id, Ax>, visited: seq<Id>, token: string)
    requires PlainTokens(byId, token)
    ensures Distinct(Minted(Origins(byId, visited, token)))
  {
    PlainOrigins(byId, visited, token);
    MintedDistinct(Origins(byId, visited, token));
  }

  lemma CellData(byId: map<Id, Ax>, x: Id)
    requires x in byId
    ensures x in Cells(byId) && Cells(byId)[x].data == byId[x].data
  {
  }

  lemma CellKids(byId: map<Id, Ax>, x: Id)
    requires x in byId
    ensures Cells(byId).Keys == byId.Keys && Cells(byId)[x].kids == Keep(byId[x].childIds, byId.Keys)
  {
  }

  lemma KidsNone(m: AxLinks, x: Id, log: Log)
    requires IsForest(m) && x in m && |log.visited| == |log.order| && log.byUid.Keys == Elems(log.order)
    ensures KidsWalked(m, x, log, log, [], [])
  {
    assert log.visited + [] == log.visited;
  }

  lemma GrewTwice(a: Log, b: Log, c: Log, xs: seq<Id>, ys: seq<Id>)
    requires Grew(a, b, xs) && Grew(b, c, ys)
    ensures Grew(a, c, xs + ys)
  {
    assert a.visited + (xs + ys) == a.visited + xs + ys;
    assert forall u :: u in a.order ==> u in b.order;
  }

  // A record stays finished while the walk goes on.
  lemma RowStays(m: AxLinks, b: Log, c: Log, ids: seq<Id>, k: nat)
    requires Grew(b, c, ids) && k < |b.order| && RowAt(m, b, k)
    ensures RowAt(m, c, k)
  {
    var more := c.order[|b.order|..];
    assert c.order == b.order + more;
    assert c.order[k] == b.order[k] && c.visited[k] == b.visited[k] && b.order[k] in b.order;
    var x, n := b.visited[k], b.byUid[b.order[k]];
    KidsStay(b.visited, b.order, ids, more, m[x].kids, n.childUids);
    NamedStays(b.visited, b.order, ids, more, m[x].parent.value, n.parentUid.value);
  }

  lemma NamedGrew(b: Log, c: Log, ids: seq<Id>, x: Id, u: string)
    requires Grew(b, c, ids) && Named(b.visited, b.order, x, u)
    ensures Named(c.visited, c.order, x, u)
  {
    NamedStays(b.visited, b.order, ids, c.order[|b.order|..], x, u);
  }

  // The row so far, and one more child's subtree.
  lemma RowGrows(m: AxLinks, start: Log, before: Log, after: Log, x: Id, uid: string, kid: Id, childUid: string)
    requires IsForest(m) && x in m && kid in m && m[kid].parent == Some(x)
    requires Row(m, before, |start.order|) && |start.order| <= |before.order|
    requires Walked(m, kid, before, after, Some(uid), childUid)
    requires Named(after.visited, after.order, x, uid)
    ensures Row(m, after, |start.order|)
  {
    hide PreOrder, KidsNamed;
    forall k | |start.order| <= k < |after.order| ensures RowAt(m, after, k) {
      if k < |before.order| {
        RowStays(m, before, after, PreOrder(m, kid), k);
      }
    }
  }

  lemma KidStep(m: AxLinks, x: Id, uid: string, start: Log, before: Log, after: Log, kids: seq<Id>,
                childUids: seq<string>, kid: Id, childUid: string)
    requires IsForest(m) && x in m && kid in m && kid in m[x].kids
    requires Named(start.visited, start.order, x, uid)
    requires KidsWalked(m, x, start, before, kids, childUids)
    requires Walked(m, kid, before, after, Some(uid), childUid)
    ensures KidsWalked(m, x, start, after, kids + [kid], childUids + [childUid])
  {
    var d := Depths(m);
    KidLevels(m, d, x);
    RowAppend(m, d, kids, kid, d[x] + 1);
    var row := PreRow(m, d, kids, d[x] + 1);
    GrewTwice(start, before, after, row, PreOrder(m, kid));
    NamedGrew(start, after, row + PreOrder(m, kid), x, uid);
    RowGrows(m, start, before, after, x, uid, kid, childUid);
    KidNamed(before, after, PreOrder(m, kid), kids, childUids, kid, childUid);
    hide PreRow, PreOrder, Row, KidsNamed;
  }

  lemma KidNamed(before: Log, after: Log, ids: seq<Id>, kids: seq<Id>, childUids: seq<string>, kid: Id, childUid: string)
    requires Grew(before, after, ids) && KidsNamed(before.visited, before.order, kids, childUids)
    requires |before.order| < |after.order|
    requires after.order[|before.order|] == childUid && after.visited[|before.order|] == kid
    ensures KidsNamed(after.visited, after.order, kids + [kid], childUids + [childUid])
  {
    KidsStay(before.visited, before.order, ids, after.order[|before.order|..], kids, childUids);
    assert Named(after.visited, after.order, kid, childUid);
  }

  lemma LastNamed(visited: seq<Id>, order: seq<string>, x: Id, u: string)
    requires |visited| == |order| && visited != [] && visited[|visited| - 1] == x && order[|order| - 1] == u
    ensures Named(visited, order, x, u)
  {
  }

  // What the walk of a node comes to once its record is written.
  lemma FinishNode(byId: map<Id, Ax>, token: string, x: Id, start: Log, claimed: Log, walked: Log, uid: string,
                   parentUid: Option<string>, childUids: seq<string>)
    requires IsForest(Cells(byId)) && PlainTokens(byId, token) && x in byId
    requires |start.visited| == |start.order| && start.byUid.Keys == Elems(start.order)
    requires claimed.visited == start.visited + [x] && claimed.order == start.order + [uid]
    requires uid !in start.byUid && claimed.byUid == start.byUid[uid := PLACEHOLDER]
    requires KidsWalked(Cells(byId), x, claimed, walked, Cells(byId)[x].kids, childUids)
    requires walked.order == Minted(Origins(byId, walked.visited, token))
    ensures uid in walked.order
    ensures var (m, data) := (Cells(byId), Cells(byId)[x].data);
            var n := UidNode(uid, x, data.backend, parentUid, childUids, data.ignored, data.role);
            Walked(m, x, start, walked.(byUid := walked.byUid[uid := n]), parentUid, uid)
  {
    hide Walked, KidsWalked, Cells, IsForest, PlainTokens;
    CellData(byId, x);
    var (m, data) := (Cells(byId), Cells(byId)[x].data);
    var n := UidNode(uid, x, data.backend, parentUid, childUids, data.ignored, data.role);
    OrderDistinct(byId, walked.visited, token);
    ClaimedStays(m, x, claimed, walked, uid);
    Finish(m, x, start, claimed, walked, uid, parentUid, n);
  }

  lemma ClaimedStays(m: AxLinks, x: Id, claimed: Log, walked: Log, uid: string)
    requires IsForest(m) && x in m && claimed.order != [] && claimed.order[|claimed.order| - 1] == uid
    requires exists kids, uids :: KidsWalked(m, x, claimed, walked, kids, uids)
    ensures uid in walked.order
  {
    assert walked.order[|claimed.order| - 1] == uid;
  }

  lemma Finish(m: AxLinks, x: Id, start: Log, claimed: Log, walked: Log, uid: string, parentUid: Option<string>,
               n: UidNode)
    requires IsForest(m) && x in m && |start.visited| == |start.order| && start.byUid.Keys == Elems(start.order)
    requires claimed.visited == start.visited + [x] && claimed.order == start.order + [uid]
    requires uid !in start.byUid && claimed.byUid == start.byUid[uid := PLACEHOLDER]
    requires KidsWalked(m, x, claimed, walked, m[x].kids, n.childUids) && Distinct(walked.order)
    requires n.uid == uid && n.axId == x && n.parentUid == parentUid
    requires n.backend == m[x].data.backend && n.ignored == m[x].data.ignored && n.role == m[x].data.role
    ensures Walked(m, x, start, walked.(byUid := walked.byUid[uid := n]), parentUid, uid)
  {
    var d, at := Depths(m), |start.order|;
    var end := walked.(byUid := walked.byUid[uid := n]);
    KidLevels(m, d, x);
    var row := PreRow(m, d, m[x].kids, d[x] + 1);
    assert start.visited + ([x] + row) == start.visited + [x] + row;
    assert walked.order[at] == claimed.order[at] && walked.visited[at] == x;
    forall k | at + 1 <= k < |end.order| ensures RowAt(m, end, k) {
      assert RowAt(m, walked, k) && walked.order[k] != walked.order[at];
    }
    forall u | u in start.order ensures u in end.byUid && end.byUid[u] == start.byUid[u] {
      assert u in claimed.order && u != uid;
    }
  }
}

// A stitched tree is one tree that holds every input tree whole and in order.
module StitchLaws {
  import opened Prelude
  import opened Forest
  import opened Surgery
  import opened Walks
  import opened Uids
  import opened Stitching

  // ----------------------------------------------------------- lists and their maps

  lemma Find(nodes: seq<Ax>, x: Id) returns (i: nat)
    requires x in LinksOf(nodes)
    ensures i < |nodes| && nodes[i].id == x && IdsOf(nodes)[i] == x
  {
    assert x in IdsOf(nodes);
    i :| i < |nodes| && IdsOf(nodes)[i] == x;
  }

  lemma LinksAre(nodes: seq<Ax>, m: AxLinks)
    requires Distinct(IdsOf(nodes)) && m.Keys == Elems(IdsOf(nodes))
    requires forall i :: 0 <= i < |nodes| ==> m[IdsOf(nodes)[i]] == NodeOf(nodes[i])
    ensures LinksOf(nodes) == m
  {
    hide LinksOf, IdsOf, Elems, Distinct, NodeOf;
    assert LinksOf(nodes).Keys == m.Keys;
    forall x | x in m ensures LinksOf(nodes)[x] == m[x] {
      var i := Find(nodes, x);
      LinksAt(nodes, i);
    }
    SameMap(LinksOf(nodes), m);
  }

  lemma SameMap(a: AxLinks, b: AxLinks)
    requires a.Keys == b.Keys && forall x :: x in a ==> a[x] == b[x]
    ensures a == b
  {
  }

  lemma IdsConcat(a: seq<Ax>, b: seq<Ax>)
    ensures IdsOf(a + b) == IdsOf(a) + IdsOf(b)
  {
  }

  // ---------------------------------------------------------------- renaming a tree

  // b is m under longer names.
  ghost predicate Mirrors(m: AxLinks, b: AxLinks, prefix: string) {
    && (forall y {:trigger Unprefixed(m.Keys, prefix, y)} :: y in b ==> Unprefixed(m.Keys, prefix, y))
    && forall x {:trigger Prefixed(m, b, prefix, x)} :: x in m ==> Prefixed(m, b, prefix, x)
  }

  predicate Unprefixed(ids: set<Id>, prefix: string, y: Id) {
    prefix <= y && y[|prefix|..] in ids
  }

  ghost predicate Prefixed(m: AxLinks, b: AxLinks, prefix: string, x: Id)
    requires x in m
  {
    prefix + x in b && Mirrored(m[x], b[prefix + x], prefix)
  }

  ghost predicate Mirrored(n: Node<AxData>, n': Node<AxData>, prefix: string) {
    && n'.parent == (if n.parent.Some? then Some(prefix + n.parent.value) else None)
    && n'.kids == AllPrefixed(n.kids, prefix)
  }

  function Renaming(nodes: seq<Ax>, prefix: string, token: string): seq<Ax> {
    StampedAll(RenamedAll(nodes, prefix), token)
  }

  lemma PrefixCancels(prefix: string, x: Id, y: Id)
    ensures prefix + x == prefix + y ==> x == y
    ensures prefix <= prefix + x && (prefix + x)[|prefix|..] == x
  {
    assert (prefix + x)[|prefix|..] == x && (prefix + y)[|prefix|..] == y;
  }

  lemma RenamedIds(nodes: seq<Ax>, prefix: string, token: string)
    ensures IdsOf(Renaming(nodes, prefix, token)) == AllPrefixed(IdsOf(nodes), prefix)
    ensures Distinct(IdsOf(nodes)) ==> Distinct(IdsOf(Renaming(nodes, prefix, token)))
  {
    var ids, ids' := IdsOf(nodes), IdsOf(Renaming(nodes, prefix, token));
    if Distinct(ids) {
      forall i, j | 0 <= i < j < |ids'| ensures ids'[i] != ids'[j] {
        PrefixCancels(prefix, ids[i], ids[j]);
      }
    }
  }

  lemma RenamedBack(nodes: seq<Ax>, prefix: string, token: string, y: Id)
    requires Distinct(IdsOf(nodes)) && y in LinksOf(Renaming(nodes, prefix, token))
    ensures Unprefixed(LinksOf(nodes).Keys, prefix, y)
  {
    hide LinksOf, IdsOf, Elems, Distinct, NodeOf, Stamped, Renamed;
    var all := Renaming(nodes, prefix, token);
    RenamedIds(nodes, prefix, token);
    var i := Find(all, y);
    RenamedNode(nodes[i], prefix, token);
    PrefixCancels(prefix, nodes[i].id, nodes[i].id);
    LinksAt(nodes, i);
  }

  lemma RenamedMirrors(nodes: seq<Ax>, prefix: string, token: string)
    requires Distinct(IdsOf(nodes))
    ensures Mirrors(LinksOf(nodes), LinksOf(Renaming(nodes, prefix, token)), prefix)
  {
    hide LinksOf, Prefixed, Unprefixed, IdsOf, Elems, Distinct, Renaming;
    var all := Renaming(nodes, prefix, token);
    var m, b := LinksOf(nodes), LinksOf(all);
    forall y | y in b ensures Unprefixed(m.Keys, prefix, y) {
      RenamedBack(nodes, prefix, token, y);
    }
    forall x | x in m ensures Prefixed(m, b, prefix, x) {
      var i := Find(nodes, x);
      RenamedAt(nodes, prefix, token, i);
    }
  }

  lemma RenamedAt(nodes: seq<Ax>, prefix: string, token: string, i: nat)
    requires Distinct(IdsOf(nodes)) && i < |nodes|
    ensures var x, m, b := nodes[i].id, LinksOf(nodes), LinksOf(Renaming(nodes, prefix, token));
            x in m && Prefixed(m, b, prefix, x)
  {
    hide LinksOf, Mirrored, IdsOf, Elems, Distinct, NodeOf, Stamped, Renamed;
    var all := Renaming(nodes, prefix, token);
    assert all[i] == Stamped(Renamed(nodes[i], prefix), token);
    hide Renaming;
    RenamedIds(nodes, prefix, token);
    LinksAt(nodes, i);
    LinksAt(all, i);
    RenamedNode(nodes[i], prefix, token);
  }

  lemma RenamedNode(a: Ax, prefix: string, token: string)
    ensures Mirrored(NodeOf(a), NodeOf(Stamped(Renamed(a, prefix), token)), prefix)
    ensures Stamped(Renamed(a, prefix), token).id == prefix + a.id
  {
  }

  ghost function Lengthened(d: map<Id, nat>, b: AxLinks, prefix: string): (r: map<Id, nat>)
    requires forall y {:trigger Unprefixed(d.Keys, prefix, y)} :: y in b ==> Unprefixed(d.Keys, prefix, y)
    ensures r.Keys == b.Keys
  {
    map y | y in b :: assert Unprefixed(d.Keys, prefix, y); d[y[|prefix|..]]
  }

  lemma PrefixedDistinct(ids: seq<Id>, prefix: string)
    requires Distinct(ids)
    ensures Distinct(AllPrefixed(ids, prefix))
  {
    var r := AllPrefixed(ids, prefix);
    forall i, j | 0 <= i < j < |r| ensures r[i] != r[j] {
      PrefixCancels(prefix, ids[i], ids[j]);
    }
  }

  lemma MirrorPlaced(m: AxLinks, d: map<Id, nat>, b: AxLinks, prefix: string, x: Id)
    requires DepthMap(m, d) && Mirrors(m, b, prefix) && x in m
    ensures prefix + x in b && Placed(b, Lengthened(d, b, prefix), prefix + x)
    ensures b[prefix + x].parent.None? <==> m[x].parent.None?
  {
    assert Placed(m, d, x) && Prefixed(m, b, prefix, x);
    PrefixCancels(prefix, x, x);
    PrefixedDistinct(m[x].kids, prefix);
    var y, e := prefix + x, Lengthened(d, b, prefix);
    if m[x].parent.Some? {
      var p := m[x].parent.value;
      assert Prefixed(m, b, prefix, p);
      PrefixCancels(prefix, p, p);
      var i :| 0 <= i < |m[p].kids| && m[p].kids[i] == x;
      assert AllPrefixed(m[p].kids, prefix)[i] == y;
    }
    forall k | k in b[y].kids ensures k in b && b[k].parent == Some(y) {
      var i :| 0 <= i < |b[y].kids| && b[y].kids[i] == k;
      assert m[x].kids[i] in m[x].kids;
      assert Prefixed(m, b, prefix, m[x].kids[i]);
    }
  }

  lemma MirrorIsTree(m: AxLinks, b: AxLinks, prefix: string, root: Id)
    requires IsTree(m, Some(root)) && Mirrors(m, b, prefix)
    ensures IsTree(b, Some(prefix + root))
    ensures DepthMap(b, Lengthened(Depths(m), b, prefix))
  {
    hide Placed, Mirrored;
    var d := Depths(m);
    var e := Lengthened(d, b, prefix);
    forall y | y in b ensures Placed(b, e, y) && (b[y].parent.None? <==> Some(prefix + root) == Some(y)) {
      assert Unprefixed(m.Keys, prefix, y);
      var x := y[|prefix|..];
      assert y == prefix + x;
      MirrorPlaced(m, d, b, prefix, x);
      PrefixCancels(prefix, x, root);
    }
    assert DepthMap(b, e);
  }

  lemma {:induction false} MirrorWalk(m: AxLinks, d: map<Id, nat>, b: AxLinks, e: map<Id, nat>, prefix: string, x: Id)
    requires DepthMap(m, d) && DepthMap(b, e) && Mirrors(m, b, prefix) && x in m
    ensures prefix + x in b && Pre(b, e, prefix + x) == AllPrefixed(Pre(m, d, x), prefix)
    decreases From(d, d[x]), 0
  {
    assert Prefixed(m, b, prefix, x);
    KidLevels(m, d, x);
    KidLevels(b, e, prefix + x);
    MirrorRow(m, d, b, e, prefix, m[x].kids, d[x] + 1, e[prefix + x] + 1);
  }

  lemma {:induction false} MirrorRow(m: AxLinks, d: map<Id, nat>, b: AxLinks, e: map<Id, nat>, prefix: string,
                                     ks: seq<Id>, lvl: nat, up: nat)
    requires DepthMap(m, d) && DepthMap(b, e) && Mirrors(m, b, prefix)
    requires forall k :: k in ks ==> k in m && d[k] == lvl
    requires forall k :: k in AllPrefixed(ks, prefix) ==> k in b && e[k] == up
    ensures PreRow(b, e, AllPrefixed(ks, prefix), up) == AllPrefixed(PreRow(m, d, ks, lvl), prefix)
    decreases From(d, lvl), |ks|
  {
    hide Placed, Mirrored, Pre;
    if ks != [] {
      var all := AllPrefixed(ks, prefix);
      assert all[1..] == AllPrefixed(ks[1..], prefix);
      assert forall k :: k in all[1..] ==> k in all;
      MirrorWalk(m, d, b, e, prefix, ks[0]);
      MirrorRow(m, d, b, e, prefix, ks[1..], lvl, up);
      PrefixedConcat(Pre(m, d, ks[0]), PreRow(m, d, ks[1..], lvl), prefix);
    }
  }

  lemma PrefixedConcat(a: seq<Id>, b: seq<Id>, prefix: string)
    ensures AllPrefixed(a + b, prefix) == AllPrefixed(a, prefix) + AllPrefixed(b, prefix)
  {
  }

  // A child frame's tree under its prefix: still one tree, walked in the same order.
  lemma RenamedTree(nodes: seq<Ax>, root: Id, prefix: string, token: string)
    requires IsAxTree(nodes, root)
    ensures IsAxTree(Renaming(nodes, prefix, token), prefix + root)
    ensures PreOrder(LinksOf(Renaming(nodes, prefix, token)), prefix + root)
         == AllPrefixed(PreOrder(LinksOf(nodes), root), prefix)
  {
    var m, b := LinksOf(nodes), LinksOf(Renaming(nodes, prefix, token));
    RenamedIds(nodes, prefix, token);
    RenamedMirrors(nodes, prefix, token);
    MirrorIsTree(m, b, prefix, root);
    DepthUnique(b, Lengthened(Depths(m), b, prefix), Depths(b));
    MirrorWalk(m, Depths(m), b, Depths(b), prefix, root);
  }

  // ------------------------------------------------------------ names kept apart

  predicate NoColon(s: string) {
    ':' !in s
  }

  function ColonAt(s: string): nat {
    if s == "" || s[0] == ':' then 0 else 1 + ColonAt(s[1..])
  }

  lemma {:induction false} ColonAfter(a: string, x: string)
    requires NoColon(a)
    ensures ColonAt(a + ":" + x) == |a|
    decreases |a|
  {
    if a != "" {
      assert a[0] in a && a == [a[0]] + a[1..];
      assert (a + ":" + x)[1..] == a[1..] + ":" + x;
      ColonAfter(a[1..], x);
    }
  }

  lemma BeforeColon(a: string, x: string, b: string, y: string)
    requires NoColon(a) && NoColon(b)
    ensures a + ":" + x == b + ":" + y ==> a == b
  {
    ColonAfter(a, x);
    ColonAfter(b, y);
    assert (a + ":" + x)[..|a|] == a && (b + ":" + y)[..|b|] == b;
  }

  lemma PrefixShape(i: nat)
    ensures NoColon("f" + Dec(i + 1))
  {
    DecReads(i + 1);
    var s := "f" + Dec(i + 1);
    forall k | 0 <= k < |s| ensures s[k] != ':' {
      if k > 0 { assert s[k] == Dec(i + 1)[k - 1] && IsDigit(Dec(i + 1)[k - 1]); }
    }
  }

  lemma PrefixesApart(i: nat, x: Id, j: nat, y: Id)
    ensures Prefix(i) + x == Prefix(j) + y ==> i == j
    ensures NoColon(x) ==> x != Prefix(j) + y
  {
    PrefixShape(i);
    PrefixShape(j);
    var a, b := "f" + Dec(i + 1), "f" + Dec(j + 1);
    assert Prefix(i) + x == a + ":" + x && Prefix(j) + y == b + ":" + y;
    BeforeColon(a, x, b, y);
    if a == b {
      assert a[1..] == Dec(i + 1) && b[1..] == Dec(j + 1);
      DecInjective(i + 1, j + 1);
    }
    assert (b + ":" + y)[|b|] == ':';
  }

  // No id is one that the child frame is about to bring.
  ghost predicate Spaced(ids: seq<Id>, child: ChildFrame, index: nat) {
    forall x :: x in AllPrefixed(IdsOf(child.nodes), Prefix(index)) ==> x !in ids
  }

  // -------------------------------------------------------------- one frame spliced

  lemma {:induction false} RootIdIs(nodes: seq<Ax>, x: Id, at: nat)
    requires at < |nodes| && nodes[at].id == x
    requires forall i :: 0 <= i < |nodes| ==> (nodes[i].parentId.None? <==> nodes[i].id == x)
    ensures RootId(nodes) == Some(x)
    decreases |nodes|
  {
    if nodes[|nodes| - 1].parentId.Some? {
      RootIdIs(nodes[..|nodes| - 1], x, at);
    }
  }

  lemma TreeRoot(nodes: seq<Ax>, root: Id)
    requires IsAxTree(nodes, root)
    ensures RootId(nodes) == Some(root)
  {
    hide LinksOf, Elems;
    var at := Find(nodes, root);
    forall i | 0 <= i < |nodes| ensures nodes[i].parentId.None? <==> nodes[i].id == root {
      LinksAt(nodes, i);
    }
    RootIdIs(nodes, root, at);
  }

  lemma {:induction false} RootIdStamped(nodes: seq<Ax>, token: string)
    ensures RootId(StampedAll(nodes, token)) == RootId(nodes)
    decreases |nodes|
  {
    if nodes != [] {
      var init := nodes[..|nodes| - 1];
      assert StampedAll(nodes, token)[..|nodes| - 1] == StampedAll(init, token);
      RootIdStamped(init, token);
    }
  }

  // The nodes one splice adds: the renamed, stamped tree, its root below p.
  function Added(child: ChildFrame, index: nat, root: Id, p: Id): seq<Ax> {
    StampedAll(Reparented(RenamedAll(child.nodes, Prefix(index)), root, p), child.token)
  }

  ghost function GraftedAt(merged: seq<Ax>, child: ChildFrame, index: nat, r: Id, at: nat): AxLinks
    requires at < |merged| && IsAxTree(child.nodes, r) && merged[at].id in LinksOf(merged)
  {
    var b := Renaming(child.nodes, Prefix(index), child.token);
    RenamedTree(child.nodes, r, Prefix(index), child.token);
    Graft(LinksOf(merged), merged[at].id, Rehung(LinksOf(b), Prefix(index) + r, merged[at].id), [Prefix(index) + r])
  }

  // Everything a splice is about, gathered: the tree so far, the frame's tree,
  // and the owner found.
  ghost predicate Splicing(merged: seq<Ax>, root: Id, child: ChildFrame, r: Id, index: nat, at: nat) {
    && IsAxTree(merged, root) && Spaced(IdsOf(merged), child, index)
    && IsAxTree(child.nodes, r)
    && at < |merged| && OwnerIndex(merged, child.ownerToken, child.ownerBackend) == Some(at)
  }

  lemma StitchOneIs(merged: seq<Ax>, root: Id, child: ChildFrame, r: Id, index: nat, at: nat)
    requires Splicing(merged, root, child, r, index, at)
    ensures var top := Prefix(index) + r;
            StitchOne(merged, child, index) ==
            merged[at := WithChild(merged[at], top)] + Added(child, index, top, merged[at].id)
  {
    RenamedTree(child.nodes, r, Prefix(index), child.token);
    TreeRoot(Renaming(child.nodes, Prefix(index), child.token), Prefix(index) + r);
    RootIdStamped(RenamedAll(child.nodes, Prefix(index)), child.token);
  }

  lemma AddedAt(child: ChildFrame, index: nat, top: Id, p: Id, i: nat)
    requires i < |child.nodes|
    ensures var b := Renaming(child.nodes, Prefix(index), child.token)[i];
            && |Added(child, index, top, p)| == |child.nodes|
            && Added(child, index, top, p)[i] == if b.id == top then b.(parentId := Some(p)) else b
  {
  }

  lemma HostIds(merged: seq<Ax>, at: nat, top: Id)
    requires at < |merged|
    ensures IdsOf(merged[at := WithChild(merged[at], top)]) == IdsOf(merged)
  {
  }

  lemma AddedIds(child: ChildFrame, index: nat, top: Id, p: Id)
    ensures IdsOf(Added(child, index, top, p)) == AllPrefixed(IdsOf(child.nodes), Prefix(index))
  {
    hide Prefix;
  }

  lemma StitchedIds(merged: seq<Ax>, root: Id, child: ChildFrame, r: Id, index: nat, at: nat)
    requires Splicing(merged, root, child, r, index, at)
    ensures IdsOf(StitchOne(merged, child, index)) == IdsOf(merged) + AllPrefixed(IdsOf(child.nodes), Prefix(index))
    ensures Distinct(IdsOf(StitchOne(merged, child, index)))
  {
    hide StitchOne, Distinct, LinksOf, IsTree, Added, Prefix, WithChild, IdsOf, OwnerIndex;
    var top, p := Prefix(index) + r, merged[at].id;
    StitchOneIs(merged, root, child, r, index, at);
    PrefixedDistinct(IdsOf(child.nodes), Prefix(index));
    DistinctConcat(IdsOf(merged), AllPrefixed(IdsOf(child.nodes), Prefix(index)));
    HostIds(merged, at, top);
    AddedIds(child, index, top, p);
    IdsConcat(merged[at := WithChild(merged[at], top)], Added(child, index, top, p));
  }

  lemma HostNode(merged: seq<Ax>, root: Id, child: ChildFrame, r: Id, index: nat, at: nat, i: nat)
    requires Splicing(merged, root, child, r, index, at) && i < |merged|
    requires merged[at].id in LinksOf(merged)
    ensures i < |StitchOne(merged, child, index)|
    ensures var all, g := StitchOne(merged, child, index), GraftedAt(merged, child, index, r, at);
            merged[i].id in g && g[merged[i].id] == NodeOf(all[i])
  {
    hide LinksOf, StitchOne, Distinct, Elems, Added, Prefix, IsTree, OwnerIndex, IdsOf;
    var top, p := Prefix(index) + r, merged[at].id;
    StitchOneIs(merged, root, child, r, index, at);
    RenamedTree(child.nodes, r, Prefix(index), child.token);
    RenamedIds(child.nodes, Prefix(index), child.token);
    LinksAt(merged, i);
    assert IdsOf(merged)[i] in IdsOf(merged);
    NotIn(Renaming(child.nodes, Prefix(index), child.token), merged[i].id);
    SamePlace(merged, i, at);
  }

  lemma NotIn(nodes: seq<Ax>, x: Id)
    ensures x !in IdsOf(nodes) <==> x !in LinksOf(nodes)
  {
  }

  lemma GuestNode(merged: seq<Ax>, root: Id, child: ChildFrame, r: Id, index: nat, at: nat, i: nat)
    requires Splicing(merged, root, child, r, index, at) && i < |child.nodes|
    requires merged[at].id in LinksOf(merged)
    ensures |StitchOne(merged, child, index)| == |merged| + |child.nodes|
    ensures var all, g := StitchOne(merged, child, index), GraftedAt(merged, child, index, r, at);
            all[|merged| + i].id in g && g[all[|merged| + i].id] == NodeOf(all[|merged| + i])
  {
    hide LinksOf, Spaced, StitchOne, Distinct, Elems, Added, Prefix, IsTree, OwnerIndex, IdsOf;
    var top, p := Prefix(index) + r, merged[at].id;
    StitchOneIs(merged, root, child, r, index, at);
    RenamedTree(child.nodes, r, Prefix(index), child.token);
    var b := Renaming(child.nodes, Prefix(index), child.token);
    LinksAt(b, i);
    AddedAt(child, index, top, p, i);
  }

  lemma SamePlace(nodes: seq<Ax>, i: nat, j: nat)
    requires Distinct(IdsOf(nodes)) && i < |nodes| && j < |nodes|
    ensures nodes[i].id == nodes[j].id <==> i == j
  {
    assert IdsOf(nodes)[i] == nodes[i].id && IdsOf(nodes)[j] == nodes[j].id;
  }

  lemma GraftedKeys(merged: seq<Ax>, root: Id, child: ChildFrame, r: Id, index: nat, at: nat)
    requires Splicing(merged, root, child, r, index, at) && merged[at].id in LinksOf(merged)
    ensures GraftedAt(merged, child, index, r, at).Keys
         == Elems(IdsOf(merged) + AllPrefixed(IdsOf(child.nodes), Prefix(index)))
  {
    hide Distinct, IsTree, OwnerIndex, Spaced, Prefix;
    RenamedTree(child.nodes, r, Prefix(index), child.token);
    RenamedIds(child.nodes, Prefix(index), child.token);
    hide LinksOf;
  }

  lemma StitchedNode(merged: seq<Ax>, root: Id, child: ChildFrame, r: Id, index: nat, at: nat, i: nat)
    requires Splicing(merged, root, child, r, index, at) && merged[at].id in LinksOf(merged)
    requires i < |StitchOne(merged, child, index)|
    ensures var all, g := StitchOne(merged, child, index), GraftedAt(merged, child, index, r, at);
            all[i].id in g && g[all[i].id] == NodeOf(all[i]) && IdsOf(all)[i] == all[i].id
  {
    hide StitchOne, GraftedAt, Distinct, LinksOf, IsTree, Spaced, Prefix, OwnerIndex, IsAxTree;
    if i < |merged| {
      HostNode(merged, root, child, r, index, at, i);
      StitchOneData(merged, child, index);
    } else {
      StitchOneData(merged, child, index);
      GuestNode(merged, root, child, r, index, at, i - |merged|);
    }
  }

  // One splice is one graft: the frame's tree, renamed and stamped, below the
  // first node taken from the owner document with the owner's DOM node.
  lemma StitchStepIsGraft(merged: seq<Ax>, root: Id, child: ChildFrame, r: Id, index: nat, at: nat)
    requires Splicing(merged, root, child, r, index, at)
    ensures merged[at].id in LinksOf(merged)
    ensures LinksOf(StitchOne(merged, child, index)) == GraftedAt(merged, child, index, r, at)
  {
    hide StitchOne, GraftedAt, Distinct, LinksOf, IsTree, Spaced, Prefix, OwnerIndex, IdsOf, NodeOf;
    LinksAt(merged, at);
    var all, g := StitchOne(merged, child, index), GraftedAt(merged, child, index, r, at);
    StitchedIds(merged, root, child, r, index, at);
    GraftedKeys(merged, root, child, r, index, at);
    hide Splicing;
    forall i | 0 <= i < |all| ensures IdsOf(all)[i] in g && g[IdsOf(all)[i]] == NodeOf(all[i]) {
      StitchedNode(merged, root, child, r, index, at, i);
    }
    LinksAre(all, g);
  }

  // ------------------------------------------------------------- the whole stitch

  lemma {:induction false} KeepKeep(s: seq<Id>, a: set<Id>, b: set<Id>)
    requires b <= a
    ensures Keep(Keep(s, a), b) == Keep(s, b)
    decreases |s|
  {
    if s != [] {
      KeepKeep(s[1..], a, b);
    }
  }

  // order, the walk of one document, is what is left of the whole walk when all
  // other documents are struck out.
  ghost predicate Preserves(m: AxLinks, root: Id, order: seq<Id>)
    requires IsForest(m) && root in m
  {
    Elems(order) <= m.Keys && Keep(PreOrder(m, root), Elems(order)) == order
  }

  lemma WholePreserved(m: AxLinks, root: Id)
    requires IsTree(m, Some(root)) && root in m
    ensures Elems(PreOrder(m, root)) == m.Keys && Preserves(m, root, PreOrder(m, root))
  {
    WalkIsComplete(m, root);
    var o := PreOrder(m, root);
    assert forall y :: y in o ==> y in Elems(o);
  }

  lemma GraftPreserves(m: AxLinks, root: Id, b: AxLinks, r: Id, p: Id, g: AxLinks, order: seq<Id>)
    requires IsTree(m, Some(root)) && root in m && IsTree(b, Some(r)) && r in b
    requires m.Keys !! b.Keys && p in m && g == Graft(m, p, Rehung(b, r, p), [r])
    ensures IsTree(g, Some(root)) && root in g
    ensures Preserves(m, root, order) ==> Preserves(g, root, order)
    ensures Preserves(g, root, PreOrder(b, r))
  {
    hide Pre, Placed, Rehung, Hangs, Grafted;
    var d, e := Depths(m), Depths(b);
    var f := d + Deepened(e, d[p] + 1);
    GraftIsGrafted(m, d, b, e, p, r);
    RehungHangs(b, e, r, p, d[p] + 1);
    GraftKeepsTree(m, Some(root), p, Rehung(b, r, p), Deepened(e, d[p] + 1), [r]);
    DepthUnique(g, f, Depths(g));
    GraftOutside(m, d, b, e, p, r, g, f, root);
    KeepsOrder(m, root, g, order);
    WholePreserved(b, r);
    WalkIsComplete(m, root);
    PreMembers(m, d, root, p);
    GraftBlock(m, d, b, e, p, r, g, f, root);
  }

  lemma KeepsOrder(m: AxLinks, root: Id, g: AxLinks, order: seq<Id>)
    requires IsForest(m) && root in m && IsForest(g) && root in g && m.Keys <= g.Keys
    requires Keep(PreOrder(g, root), m.Keys) == PreOrder(m, root)
    ensures Preserves(m, root, order) ==> Preserves(g, root, order)
  {
    if Preserves(m, root, order) {
      KeepKeep(PreOrder(g, root), m.Keys, Elems(order));
    }
  }

  ghost predicate TreesAll(children: seq<ChildFrame>, roots: seq<Id>) {
    |roots| == |children| && forall i :: 0 <= i < |children| ==> IsAxTree(children[i].nodes, roots[i])
  }

  // The walk of every child frame on its own, under its prefix.
  ghost function ChildOrders(children: seq<ChildFrame>, roots: seq<Id>, index: nat): seq<seq<Id>>
    requires TreesAll(children, roots)
    decreases |children|
  {
    if children == [] then []
    else [AllPrefixed(PreOrder(LinksOf(children[0].nodes), roots[0]), Prefix(index))]
         + ChildOrders(children[1..], roots[1..], index + 1)
  }

  function ChildIds(children: seq<ChildFrame>, index: nat): seq<Id>
    decreases |children|
  {
    if children == [] then []
    else AllPrefixed(IdsOf(children[0].nodes), Prefix(index)) + ChildIds(children[1..], index + 1)
  }

  ghost predicate Holds(merged: seq<Ax>, token: string, backend: int) {
    exists k :: 0 <= k < |merged| && Owns(merged[k], token, backend)
  }

  ghost predicate HasNode(nodes: seq<Ax>, backend: int) {
    exists k :: 0 <= k < |nodes| && nodes[k].data.backend == Some(backend)
  }

  // Every frame's owner is in what is merged already or in a frame listed before it.
  ghost predicate OwnersEarlier(merged: seq<Ax>, children: seq<ChildFrame>) {
    forall i :: 0 <= i < |children| ==> OwnerEarlier(merged, children, i)
  }

  ghost predicate OwnerEarlier(merged: seq<Ax>, children: seq<ChildFrame>, i: nat)
    requires i < |children|
  {
    var c := children[i];
    || Holds(merged, c.ownerToken, c.ownerBackend)
    || exists j :: 0 <= j < i && children[j].token == c.ownerToken && HasNode(children[j].nodes, c.ownerBackend)
  }

  lemma StitchOneHolds(merged: seq<Ax>, child: ChildFrame, index: nat, token: string, backend: int)
    ensures Holds(merged, token, backend) ==> Holds(StitchOne(merged, child, index), token, backend)
    ensures token == child.token && HasNode(child.nodes, backend) ==>
              Holds(StitchOne(merged, child, index), token, backend)
  {
    var all := StitchOne(merged, child, index);
    StitchOneData(merged, child, index);
    hide StitchOne;
    if token == child.token && HasNode(child.nodes, backend) {
      var k :| 0 <= k < |child.nodes| && child.nodes[k].data.backend == Some(backend);
      assert Owns(all[|merged| + k], token, backend);
    }
    if Holds(merged, token, backend) {
      var k :| 0 <= k < |merged| && Owns(merged[k], token, backend);
      assert Owns(all[k], token, backend);
    }
  }

  // A splice touches nothing but links; it stamps what it adds.
  lemma StitchOneData(merged: seq<Ax>, child: ChildFrame, index: nat)
    ensures var all := StitchOne(merged, child, index);
            && |all| == |merged| + |child.nodes|
            && (forall k :: 0 <= k < |merged| ==> all[k].data == merged[k].data && all[k].id == merged[k].id)
            && forall k :: 0 <= k < |child.nodes| ==>
                 all[|merged| + k].data == child.nodes[k].data.(token := Some(child.token))
                 && all[|merged| + k].id == Prefix(index) + child.nodes[k].id
  {
    hide Prefix, OwnerIndex, RootId;
  }

  lemma OwnersStep(merged: seq<Ax>, children: seq<ChildFrame>, index: nat)
    requires children != [] && OwnersEarlier(merged, children)
    ensures OwnersEarlier(StitchOne(merged, children[0], index), children[1..])
  {
    var rest := children[1..];
    forall i | 0 <= i < |rest| ensures OwnerEarlier(StitchOne(merged, children[0], index), rest, i) {
      var c := rest[i];
      assert OwnerEarlier(merged, children, i + 1) && children[i + 1] == c;
      StitchOneHolds(merged, children[0], index, c.ownerToken, c.ownerBackend);
      if !Holds(StitchOne(merged, children[0], index), c.ownerToken, c.ownerBackend) {
        var j :| 0 <= j < i + 1 && children[j].token == c.ownerToken && HasNode(children[j].nodes, c.ownerBackend);
        assert rest[j - 1] == children[j];
      }
    }
  }

  // What one splice does to the whole: one tree still, every earlier document in
  // its order, and the new one in its own.
  lemma StitchStep(merged: seq<Ax>, root: Id, child: ChildFrame, r: Id, index: nat, docs: seq<seq<Id>>)
    requires IsAxTree(merged, root) && Spaced(IdsOf(merged), child, index) && IsAxTree(child.nodes, r)
    requires Holds(merged, child.ownerToken, child.ownerBackend)
    requires forall o :: o in docs ==> Preserves(LinksOf(merged), root, o)
    ensures var all := StitchOne(merged, child, index);
            && IsAxTree(all, root)
            && IdsOf(all) == IdsOf(merged) + AllPrefixed(IdsOf(child.nodes), Prefix(index))
            && (forall o :: o in docs ==> Preserves(LinksOf(all), root, o))
            && Preserves(LinksOf(all), root, AllPrefixed(PreOrder(LinksOf(child.nodes), r), Prefix(index)))
  {
    OwnerIndexIsFirst(merged, child.ownerToken, child.ownerBackend);
    var at := OwnerIndex(merged, child.ownerToken, child.ownerBackend).value;
    hide StitchOne, LinksOf, IsTree, Spaced, Prefix, OwnerIndex, Distinct, Holds, Preserves;
    StitchStepIsGraft(merged, root, child, r, index, at);
    StitchedIds(merged, root, child, r, index, at);
    RenamedTree(child.nodes, r, Prefix(index), child.token);
    SplicedApart(merged, child, index);
    var b := LinksOf(Renaming(child.nodes, Prefix(index), child.token));
    var m, g, p := LinksOf(merged), LinksOf(StitchOne(merged, child, index)), merged[at].id;
    GraftPreserves(m, root, b, Prefix(index) + r, p, g, []);
    forall o | o in docs ensures Preserves(g, root, o) {
      GraftPreserves(m, root, b, Prefix(index) + r, p, g, o);
    }
  }

  lemma SplicedApart(merged: seq<Ax>, child: ChildFrame, index: nat)
    requires Spaced(IdsOf(merged), child, index)
    ensures LinksOf(merged).Keys !! LinksOf(Renaming(child.nodes, Prefix(index), child.token)).Keys
  {
    hide Prefix;
    RenamedIds(child.nodes, Prefix(index), child.token);
  }

  ghost predicate Stitched(all: seq<Ax>, root: Id, ids: seq<Id>, docs: seq<seq<Id>>) {
    && IsAxTree(all, root)
    && IdsOf(all) == ids
    && forall o :: o in docs ==> Preserves(LinksOf(all), root, o)
  }

  lemma OrdersStep(children: seq<ChildFrame>, roots: seq<Id>, index: nat, ids: seq<Id>, docs: seq<seq<Id>>)
    requires TreesAll(children, roots) && children != []
    ensures TreesAll(children[1..], roots[1..])
    ensures var order := AllPrefixed(PreOrder(LinksOf(children[0].nodes), roots[0]), Prefix(index));
            docs + ChildOrders(children, roots, index)
            == docs + [order] + ChildOrders(children[1..], roots[1..], index + 1)
    ensures ids + ChildIds(children, index)
            == ids + AllPrefixed(IdsOf(children[0].nodes), Prefix(index)) + ChildIds(children[1..], index + 1)
  {
    hide IsAxTree, Prefix, LinksOf, PreOrder;
  }

  // The ids the child frames bring carry the prefixes from the n-th on.
  lemma {:induction false} ChildIdsCarry(children: seq<ChildFrame>, index: nat, x: Id) returns (j: nat, y: Id)
    requires x in ChildIds(children, index)
    ensures j >= index && x == Prefix(j) + y
    decreases |children|
  {
    hide Prefix;
    var first := AllPrefixed(IdsOf(children[0].nodes), Prefix(index));
    if x in first {
      var i :| 0 <= i < |first| && first[i] == x;
      j, y := index, IdsOf(children[0].nodes)[i];
    } else {
      j, y := ChildIdsCarry(children[1..], index + 1, x);
    }
  }

  // No id is one that any of the child frames is about to bring.
  ghost predicate SpacedAll(ids: seq<Id>, children: seq<ChildFrame>, index: nat) {
    forall x :: x in ids ==> x !in ChildIds(children, index)
  }

  lemma SpacedStep(ids: seq<Id>, children: seq<ChildFrame>, index: nat)
    requires children != [] && SpacedAll(ids, children, index)
    ensures Spaced(ids, children[0], index)
    ensures SpacedAll(ids + AllPrefixed(IdsOf(children[0].nodes), Prefix(index)), children[1..], index + 1)
  {
    hide Prefix;
    var first := AllPrefixed(IdsOf(children[0].nodes), Prefix(index));
    assert ChildIds(children, index) == first + ChildIds(children[1..], index + 1);
    forall x | x in ids + first ensures x !in ChildIds(children[1..], index + 1) {
      if x in first && x in ChildIds(children[1..], index + 1) {
        var i :| 0 <= i < |first| && first[i] == x;
        var j, y := ChildIdsCarry(children[1..], index + 1, x);
        PrefixesApart(index, IdsOf(children[0].nodes)[i], j, y);
      }
    }
  }

  lemma StitchNext(merged: seq<Ax>, root: Id, children: seq<ChildFrame>, roots: seq<Id>, index: nat,
                   docs: seq<seq<Id>>)
    requires Stitched(merged, root, IdsOf(merged), docs) && SpacedAll(IdsOf(merged), children, index)
    requires TreesAll(children, roots) && OwnersEarlier(merged, children) && children != []
    ensures var next := StitchOne(merged, children[0], index);
            var order := AllPrefixed(PreOrder(LinksOf(children[0].nodes), roots[0]), Prefix(index));
            && Stitched(next, root, IdsOf(next), docs + [order]) && SpacedAll(IdsOf(next), children[1..], index + 1)
            && OwnersEarlier(next, children[1..])
            && IdsOf(next) == IdsOf(merged) + AllPrefixed(IdsOf(children[0].nodes), Prefix(index))
  {
    hide StitchOne, Prefix, Preserves, Spaced, SpacedAll, Pre, DepthMap, AllPrefixed, Placed;
    assert OwnerEarlier(merged, children, 0);
    SpacedStep(IdsOf(merged), children, index);
    StitchStep(merged, root, children[0], roots[0], index, docs);
    OwnersStep(merged, children, index);
    hide StitchOne, LinksOf, IsAxTree, Spaced, SpacedAll, Prefix, OwnersEarlier, OwnerEarlier, Preserves, PreOrder,
         IdsOf;
    var order := AllPrefixed(PreOrder(LinksOf(children[0].nodes), roots[0]), Prefix(index));
    assert forall o :: o in docs + [order] ==> o in docs || o == order;
  }

  lemma {:induction false} StitchFrom(merged: seq<Ax>, root: Id, children: seq<ChildFrame>, roots: seq<Id>,
                                      index: nat, docs: seq<seq<Id>>)
    requires Stitched(merged, root, IdsOf(merged), docs) && SpacedAll(IdsOf(merged), children, index)
    requires TreesAll(children, roots) && OwnersEarlier(merged, children)
    ensures Stitched(StitchAll(merged, children, index), root, IdsOf(merged) + ChildIds(children, index),
                     docs + ChildOrders(children, roots, index))
    decreases |children|
  {
    hide StitchOne, Stitched, LinksOf, SpacedAll, Prefix, OwnersEarlier, PreOrder, IdsOf;
    if children == [] {
      assert IdsOf(merged) + [] == IdsOf(merged) && docs + [] == docs;
    } else {
      OrdersStep(children, roots, index, IdsOf(merged), docs);
      StitchNext(merged, root, children, roots, index, docs);
      hide ChildOrders, ChildIds, TreesAll;
      var order := AllPrefixed(PreOrder(LinksOf(children[0].nodes), roots[0]), Prefix(index));
      StitchFrom(StitchOne(merged, children[0], index), root, children[1..], roots[1..], index + 1, docs + [order]);
    }
  }

  lemma EmptyPrefix(ids: seq<Id>)
    ensures AllPrefixed(ids, "") == ids
  {
    forall i | 0 <= i < |ids| ensures "" + ids[i] == ids[i] {
    }
  }

  lemma StampedIsRenamed(nodes: seq<Ax>, token: string)
    ensures StampedAll(nodes, token) == Renaming(nodes, "", token)
  {
    forall i | 0 <= i < |nodes| ensures Renamed(nodes[i], "") == nodes[i] {
      EmptyPrefix(nodes[i].childIds);
      EmptyPrefix([nodes[i].id, nodes[i].parentId.GetOr("")]);
      assert "" + nodes[i].id == nodes[i].id && "" + nodes[i].parentId.GetOr("") == nodes[i].parentId.GetOr("");
    }
  }

  // The page's tree and any number of child frames, each one tree, the owner of
  // each in the page or in a frame listed earlier, and no page id one that a frame
  // brings under its prefix: the result is one tree rooted at the page's root, its
  // ids all different, every input node in it exactly once, and the document order
  // of every input kept.
  lemma StitchIsOneTree(top: seq<Ax>, root: Id, topToken: string, children: seq<ChildFrame>, roots: seq<Id>)
    requires IsAxTree(top, root) && SpacedAll(IdsOf(top), children, 0)
    requires TreesAll(children, roots) && OwnersEarlier(StampedAll(top, topToken), children)
    ensures Stitched(StitchAll(StampedAll(top, topToken), children, 0), root, IdsOf(top) + ChildIds(children, 0),
                     [PreOrder(LinksOf(top), root)] + ChildOrders(children, roots, 0))
  {
    StampedTree(top, root, topToken);
    hide LinksOf, IsAxTree, StampedAll, PreOrder, Preserves, IdsOf, OwnersEarlier, SpacedAll, TreesAll, ChildIds,
         ChildOrders, StitchAll;
    StitchFrom(StampedAll(top, topToken), root, children, roots, 0, [PreOrder(LinksOf(top), root)]);
  }

  lemma StampedTree(top: seq<Ax>, root: Id, token: string)
    requires IsAxTree(top, root)
    ensures IsAxTree(StampedAll(top, token), root)
    ensures IdsOf(StampedAll(top, token)) == IdsOf(top)
    ensures Preserves(LinksOf(StampedAll(top, token)), root, PreOrder(LinksOf(top), root))
  {
    StampedIsRenamed(top, token);
    RenamedTree(top, root, "", token);
    RenamedIds(top, "", token);
    assert "" + root == root;
    EmptyPrefix(PreOrder(LinksOf(top), root));
    EmptyPrefix(IdsOf(top));
    hide LinksOf;
    WholePreserved(LinksOf(StampedAll(top, token)), root);
  }

  // ---------------------------------------------------- nothing lost, nothing altered

  function DataOf(nodes: seq<Ax>): (r: seq<AxData>)
    ensures |r| == |nodes| && forall i :: 0 <= i < |nodes| ==> r[i] == nodes[i].data
  {
    if nodes == [] then [] else [nodes[0].data] + DataOf(nodes[1..])
  }

  function ChildData(children: seq<ChildFrame>): seq<AxData> {
    if children == [] then []
    else DataOf(StampedAll(children[0].nodes, children[0].token)) + ChildData(children[1..])
  }

  lemma StitchOneLists(merged: seq<Ax>, child: ChildFrame, index: nat)
    ensures IdsOf(StitchOne(merged, child, index)) == IdsOf(merged) + AllPrefixed(IdsOf(child.nodes), Prefix(index))
    ensures DataOf(StitchOne(merged, child, index)) == DataOf(merged) + DataOf(StampedAll(child.nodes, child.token))
  {
    hide StitchOne, Prefix, Renamed, IdsOf, DataOf, AllPrefixed, StampedAll;
    StitchOneData(merged, child, index);
    var all := StitchOne(merged, child, index);
    forall k | 0 <= k < |all|
      ensures IdsOf(all)[k] == (IdsOf(merged) + AllPrefixed(IdsOf(child.nodes), Prefix(index)))[k]
      ensures DataOf(all)[k] == (DataOf(merged) + DataOf(StampedAll(child.nodes, child.token)))[k]
    {
      if k >= |merged| {
        assert all[k] == all[|merged| + (k - |merged|)];
      }
    }
  }

  // Whatever owners are found: the result lists every input node once, in the
  // order of the inputs, each with its own data and the stamp of its document. A
  // frame without an owner still contributes its nodes.
  lemma {:induction false} StitchKeepsNodes(merged: seq<Ax>, children: seq<ChildFrame>, index: nat)
    ensures IdsOf(StitchAll(merged, children, index)) == IdsOf(merged) + ChildIds(children, index)
    ensures DataOf(StitchAll(merged, children, index)) == DataOf(merged) + ChildData(children)
    decreases |children|
  {
    hide StitchOne, Prefix, IdsOf, DataOf, StampedAll;
    if children != [] {
      StitchOneLists(merged, children[0], index);
      StitchKeepsNodes(StitchOne(merged, children[0], index), children[1..], index + 1);
    }
  }

  // And of such input it is one tree in no other case.
  lemma StitchIsTreeIff(top: seq<Ax>, root: Id, topToken: string, children: seq<ChildFrame>, roots: seq<Id>)
    requires IsAxTree(top, root)
    requires TreesAll(children, roots) && OwnersEarlier(StampedAll(top, topToken), children)
    ensures IsAxTree(StitchAll(StampedAll(top, topToken), children, 0), root) <==> SpacedAll(IdsOf(top), children, 0)
  {
    var all := StitchAll(StampedAll(top, topToken), children, 0);
    hide StitchAll, LinksOf, OwnersEarlier, TreesAll, ChildIds, IdsOf, StampedAll, IsTree;
    if SpacedAll(IdsOf(top), children, 0) {
      StitchIsOneTree(top, root, topToken, children, roots);
    } else {
      StampedTree(top, root, topToken);
      StitchKeepsNodes(StampedAll(top, topToken), children, 0);
      if Distinct(IdsOf(all)) {
        DistinctApart(IdsOf(top), ChildIds(children, 0));
      }
    }
  }

  lemma DistinctApart<T(!new)>(a: seq<T>, b: seq<T>)
    requires Distinct(a + b)
    ensures forall x :: x in a ==> x !in b
  {
    forall i, j | 0 <= i < |a| && 0 <= j < |b| ensures a[i] != b[j] {
      assert (a + b)[i] == a[i] && (a + b)[|a| + j] == b[j];
    }
  }
}

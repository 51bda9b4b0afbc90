// The document order of a forest: a node, then the subtrees of its children in
// their order.
module Walks {
  import opened Prelude
  import opened Forest
  import opened Surgery

  // The nodes at level lvl or deeper. It shrinks on the way down, which is what
  // bounds the recursion below.
  ghost function From(d: map<Id, nat>, lvl: nat): set<Id> {
    set x | x in d && d[x] >= lvl
  }

  ghost function Pre<A>(m: Links<A>, d: map<Id, nat>, x: Id): seq<Id>
    requires DepthMap(m, d) && x in m
    decreases From(d, d[x]), 0
  {
    assert Placed(m, d, x);
    assert forall k :: k in m[x].kids ==> Placed(m, d, k);
    assert x in From(d, d[x]) && x !in From(d, d[x] + 1);
    [x] + PreRow(m, d, m[x].kids, d[x] + 1)
  }

  ghost function PreRow<A>(m: Links<A>, d: map<Id, nat>, ks: seq<Id>, lvl: nat): seq<Id>
    requires DepthMap(m, d)
    requires forall k :: k in ks ==> k in m && d[k] == lvl
    decreases From(d, lvl), |ks|
  {
    if ks == [] then [] else Pre(m, d, ks[0]) + PreRow(m, d, ks[1..], lvl)
  }

  // The whole tree in document order.
  ghost function PreOrder<A>(m: Links<A>, x: Id): seq<Id>
    requires IsForest(m) && x in m
  {
    Pre(m, Depths(m), x)
  }

  // The ancestor of x on level lvl.
  ghost function AncestorAt<A>(m: Links<A>, d: map<Id, nat>, x: Id, lvl: nat): (a: Id)
    requires DepthMap(m, d) && x in m && lvl <= d[x]
    ensures a in m && d[a] == lvl
    decreases d[x]
  {
    assert Placed(m, d, x);
    if d[x] == lvl then x else AncestorAt(m, d, m[x].parent.value, lvl)
  }

  ghost predicate Under<A>(m: Links<A>, d: map<Id, nat>, y: Id, x: Id)
    requires DepthMap(m, d) && x in m
  {
    y in m && d[x] <= d[y] && AncestorAt(m, d, y, d[x]) == x
  }

  lemma {:induction false} AncestorTwice<A>(m: Links<A>, d: map<Id, nat>, y: Id, hi: nat, lo: nat)
    requires DepthMap(m, d) && y in m && lo <= hi <= d[y]
    ensures AncestorAt(m, d, AncestorAt(m, d, y, hi), lo) == AncestorAt(m, d, y, lo)
    decreases d[y]
  {
    assert Placed(m, d, y);
    if d[y] > hi {
      AncestorTwice(m, d, m[y].parent.value, hi, lo);
    }
  }

  // The ids Pre lists are exactly x and everything under it.
  lemma {:induction false} PreMembers<A>(m: Links<A>, d: map<Id, nat>, x: Id, y: Id)
    requires DepthMap(m, d) && x in m
    ensures y in Pre(m, d, x) <==> Under(m, d, y, x)
    decreases From(d, d[x]), 0
  {
    assert Placed(m, d, x);
    var ks := m[x].kids;
    assert forall k :: k in ks ==> Placed(m, d, k);
    assert x in From(d, d[x]) && x !in From(d, d[x] + 1);
    RowMembers(m, d, ks, d[x] + 1, y);
    if exists k :: k in ks && Under(m, d, y, k) {
      var k :| k in ks && Under(m, d, y, k);
      AncestorTwice(m, d, y, d[x] + 1, d[x]);
      assert AncestorAt(m, d, k, d[x]) == x;
    }
    if Under(m, d, y, x) && y != x {
      assert d[y] > d[x];
      var k := AncestorAt(m, d, y, d[x] + 1);
      AncestorTwice(m, d, y, d[x] + 1, d[x]);
      assert Placed(m, d, k);
      assert m[k].parent == Some(x);
    }
  }

  lemma {:induction false} RowMembers<A>(m: Links<A>, d: map<Id, nat>, ks: seq<Id>, lvl: nat, y: Id)
    requires DepthMap(m, d)
    requires forall k :: k in ks ==> k in m && d[k] == lvl
    ensures y in PreRow(m, d, ks, lvl) <==> exists k :: k in ks && Under(m, d, y, k)
    decreases From(d, lvl), |ks|
  {
    if ks != [] {
      PreMembers(m, d, ks[0], y);
      RowMembers(m, d, ks[1..], lvl, y);
    }
  }

  lemma {:induction false} PreDistinct<A>(m: Links<A>, d: map<Id, nat>, x: Id)
    requires DepthMap(m, d) && x in m
    ensures Distinct(Pre(m, d, x))
    decreases From(d, d[x]), 0
  {
    assert Placed(m, d, x);
    var ks := m[x].kids;
    assert forall k :: k in ks ==> Placed(m, d, k);
    assert x in From(d, d[x]) && x !in From(d, d[x] + 1);
    RowDistinct(m, d, ks, d[x] + 1);
    RowMembers(m, d, ks, d[x] + 1, x);
    DistinctConcat([x], PreRow(m, d, ks, d[x] + 1));
  }

  lemma {:induction false} RowDistinct<A>(m: Links<A>, d: map<Id, nat>, ks: seq<Id>, lvl: nat)
    requires DepthMap(m, d) && Distinct(ks)
    requires forall k :: k in ks ==> k in m && d[k] == lvl
    ensures Distinct(PreRow(m, d, ks, lvl))
    decreases From(d, lvl), |ks|
  {
    if ks != [] {
      PreDistinct(m, d, ks[0]);
      RowDistinct(m, d, ks[1..], lvl);
      forall y | y in Pre(m, d, ks[0]) ensures y !in PreRow(m, d, ks[1..], lvl) {
        PreMembers(m, d, ks[0], y);
        RowMembers(m, d, ks[1..], lvl, y);
      }
      DistinctConcat(Pre(m, d, ks[0]), PreRow(m, d, ks[1..], lvl));
    }
  }

  // A walk of a tree from its root lists every node of the map exactly once.
  lemma WalkIsComplete<A>(m: Links<A>, root: Id)
    requires IsTree(m, Some(root)) && root in m
    ensures Distinct(PreOrder(m, root))
    ensures forall y :: y in PreOrder(m, root) <==> y in m
  {
    var d := Depths(m);
    PreDistinct(m, d, root);
    assert Placed(m, d, root);
    forall y ensures y in PreOrder(m, root) <==> y in m {
      PreMembers(m, d, root, y);
      if y in m {
        var top := AncestorAt(m, d, y, 0);
        assert Placed(m, d, top);
      }
    }
  }

  // A node comes after the node that holds it.
  lemma {:induction false} ParentFirst<A>(m: Links<A>, d: map<Id, nat>, x: Id, i: nat) returns (j: nat)
    requires DepthMap(m, d) && x in m
    requires 0 < i < |Pre(m, d, x)|
    ensures Pre(m, d, x)[i] in m
    ensures j < i && m[Pre(m, d, x)[i]].parent == Some(Pre(m, d, x)[j])
    decreases From(d, d[x]), 0
  {
    assert Placed(m, d, x);
    var ks := m[x].kids;
    assert forall k :: k in ks ==> Placed(m, d, k);
    assert x in From(d, d[x]) && x !in From(d, d[x] + 1);
    var row := PreRow(m, d, ks, d[x] + 1);
    assert Pre(m, d, x) == [x] + row;
    var h := RowParentFirst(m, d, ks, d[x] + 1, x, i - 1);
    j := h + 1;
    assert Pre(m, d, x)[j] == if h < 0 then x else row[h];
  }

  // h is the place in the row of the holder of its i-th node, -1 standing for
  // the node above the row.
  lemma {:induction false} RowParentFirst<A>(m: Links<A>, d: map<Id, nat>, ks: seq<Id>, lvl: nat, x: Id, i: nat)
    returns (h: int)
    requires DepthMap(m, d)
    requires forall k :: k in ks ==> k in m && d[k] == lvl && m[k].parent == Some(x)
    requires i < |PreRow(m, d, ks, lvl)|
    ensures -1 <= h < i
    ensures PreRow(m, d, ks, lvl)[i] in m
    ensures m[PreRow(m, d, ks, lvl)[i]].parent == Some(if h < 0 then x else PreRow(m, d, ks, lvl)[h])
    decreases From(d, lvl), |ks|
  {
    var first := Pre(m, d, ks[0]);
    assert PreRow(m, d, ks, lvl) == first + PreRow(m, d, ks[1..], lvl);
    if i == 0 {
      h := -1;
    } else if i < |first| {
      h := ParentFirst(m, d, ks[0], i);
    } else {
      h := RowParentFirst(m, d, ks[1..], lvl, x, i - |first|);
      h := if h < 0 then h else h + |first|;
    }
  }

  // ------------------------------------------------ walking with a stack

  // What is still to be listed when stack holds the pending nodes, the next one
  // last.
  ghost function Pending<A>(m: Links<A>, d: map<Id, nat>, stack: seq<Id>): seq<Id>
    requires DepthMap(m, d)
    requires forall x :: x in stack ==> x in m
  {
    if stack == [] then []
    else Pre(m, d, stack[|stack| - 1]) + Pending(m, d, stack[..|stack| - 1])
  }

  // Pushing a row of siblings in reverse leaves the row to be listed first.
  lemma {:induction false} PendingPush<A>(m: Links<A>, d: map<Id, nat>, stack: seq<Id>, ks: seq<Id>, lvl: nat)
    requires DepthMap(m, d)
    requires forall x :: x in stack ==> x in m
    requires forall k :: k in ks ==> k in m && d[k] == lvl
    ensures forall x :: x in stack + Reverse(ks) ==> x in m
    ensures Pending(m, d, stack + Reverse(ks)) == PreRow(m, d, ks, lvl) + Pending(m, d, stack)
    decreases |ks|
  {
    if ks == [] {
      assert stack + Reverse(ks) == stack;
    } else {
      hide DepthMap, Pre, Pending, Reverse;
      var s := stack + Reverse(ks[1..]);
      PendingPush(m, d, stack, ks[1..], lvl);
      ReverseCons(stack, ks);
      PendingTop(m, d, s, ks[0]);
      PreRowCons(m, d, ks, lvl);
      hide PreRow;
      SeqAssociates(Pre(m, d, ks[0]), PreRow(m, d, ks[1..], lvl), Pending(m, d, stack));
    }
  }

  lemma ReverseCons<T>(s: seq<T>, ks: seq<T>)
    requires ks != []
    ensures s + Reverse(ks) == (s + Reverse(ks[1..])) + [ks[0]]
  {
  }

  lemma PreRowCons<A>(m: Links<A>, d: map<Id, nat>, ks: seq<Id>, lvl: nat)
    requires DepthMap(m, d) && ks != [] && forall k :: k in ks ==> k in m && d[k] == lvl
    ensures PreRow(m, d, ks, lvl) == Pre(m, d, ks[0]) + PreRow(m, d, ks[1..], lvl)
  {
    hide DepthMap, Pre;
  }

  lemma SeqAssociates<T>(a: seq<T>, b: seq<T>, c: seq<T>)
    ensures a + (b + c) == a + b + c
  {
  }

  lemma PendingTop<A>(m: Links<A>, d: map<Id, nat>, stack: seq<Id>, x: Id)
    requires DepthMap(m, d) && x in m
    requires forall y :: y in stack ==> y in m
    ensures forall y :: y in stack + [x] ==> y in m
    ensures Pending(m, d, stack + [x]) == Pre(m, d, x) + Pending(m, d, stack)
  {
    hide DepthMap, Pre;
    var s := stack + [x];
    assert s[|s| - 1] == x && s[..|s| - 1] == stack;
  }

  // ------------------------------------------------ what a graft does to a walk

  function Rehung<A>(b: Links<A>, r: Id, p: Id): Links<A>
    requires r in b
  {
    b[r := b[r].(parent := Some(p))]
  }

  ghost function Deepened(e: map<Id, nat>, k: nat): map<Id, nat> {
    map x | x in e :: e[x] + k
  }

  lemma RehungHangs<A>(b: Links<A>, e: map<Id, nat>, r: Id, p: Id, k: nat)
    requires DepthMap(b, e) && IsTree(b, Some(r)) && r in b && p !in b
    ensures Hangs(Rehung(b, r, p), Deepened(e, k), p, [r], k)
  {
    var h, f := Rehung(b, r, p), Deepened(e, k);
    assert Placed(b, e, r);
    forall x | x in h ensures Hung(h, f, p, [r], x) {
      assert Placed(b, e, x);
    }
  }

  lemma {:induction false} RowAppend<A>(m: Links<A>, d: map<Id, nat>, ks: seq<Id>, r: Id, lvl: nat)
    requires DepthMap(m, d)
    requires forall k :: k in ks + [r] ==> k in m && d[k] == lvl
    ensures forall k :: k in ks ==> k in m && d[k] == lvl
    ensures r in m
    ensures PreRow(m, d, ks + [r], lvl) == PreRow(m, d, ks, lvl) + Pre(m, d, r)
    decreases |ks|
  {
    assert forall k :: k in ks ==> k in ks + [r];
    assert r in ks + [r];
    if ks == [] {
      assert ks + [r] == [r];
      assert [r][1..] == [];
    } else {
      assert (ks + [r])[1..] == ks[1..] + [r];
      RowAppend(m, d, ks[1..], r, lvl);
    }
  }


  // g is the tree b, rooted at r, hung below p in m.
  ghost predicate Grafted<A>(m: Links<A>, d: map<Id, nat>, b: Links<A>, e: map<Id, nat>,
                             p: Id, r: Id, g: Links<A>, f: map<Id, nat>) {
    && DepthMap(m, d) && DepthMap(b, e) && DepthMap(g, f)
    && m.Keys !! b.Keys && p in m && r in b && b[r].parent.None?
    && g == Graft(m, p, Rehung(b, r, p), [r])
    && f == d + Deepened(e, d[p] + 1)
  }

  lemma GraftIsGrafted<A>(m: Links<A>, d: map<Id, nat>, b: Links<A>, e: map<Id, nat>, p: Id, r: Id)
    requires DepthMap(m, d) && DepthMap(b, e) && IsTree(b, Some(r)) && r in b
    requires m.Keys !! b.Keys && p in m
    ensures Grafted(m, d, b, e, p, r, Graft(m, p, Rehung(b, r, p), [r]), d + Deepened(e, d[p] + 1))
  {
    RehungHangs(b, e, r, p, d[p] + 1);
    GraftDepths(m, d, p, Rehung(b, r, p), Deepened(e, d[p] + 1), [r]);
  }

  // A grafted subtree is walked as it was on its own ...
  lemma {:induction false} GraftInside<A>(m: Links<A>, d: map<Id, nat>, b: Links<A>, e: map<Id, nat>, p: Id, r: Id,
                                          g: Links<A>, f: map<Id, nat>, x: Id)
    requires Grafted(m, d, b, e, p, r, g, f) && x in b
    ensures Pre(g, f, x) == Pre(b, e, x)
    decreases From(e, e[x]), 0
  {
    hide Pre, PreRow, Placed, Graft, Rehung, Deepened;
    GraftGuest(m, d, b, e, p, r, g, f, x);
    KidLevels(b, e, x);
    KidLevels(g, f, x);
    GraftInsideRow(m, d, b, e, p, r, g, f, b[x].kids, e[x] + 1, f[x] + 1);
  }

  lemma GraftGuest<A>(m: Links<A>, d: map<Id, nat>, b: Links<A>, e: map<Id, nat>, p: Id, r: Id,
                      g: Links<A>, f: map<Id, nat>, x: Id)
    requires Grafted(m, d, b, e, p, r, g, f) && x in b
    ensures x in g && g[x].kids == b[x].kids
  {
  }

  lemma {:induction false} GraftInsideRow<A>(m: Links<A>, d: map<Id, nat>, b: Links<A>, e: map<Id, nat>, p: Id, r: Id,
                                             g: Links<A>, f: map<Id, nat>, ks: seq<Id>, lvl: nat, up: nat)
    requires Grafted(m, d, b, e, p, r, g, f)
    requires forall k :: k in ks ==> k in b && e[k] == lvl && f[k] == up
    ensures PreRow(g, f, ks, up) == PreRow(b, e, ks, lvl)
    decreases From(e, lvl), |ks|
  {
    if ks != [] {
      GraftInside(m, d, b, e, p, r, g, f, ks[0]);
      GraftInsideRow(m, d, b, e, p, r, g, f, ks[1..], lvl, up);
    }
  }

  lemma KidLevels<A>(m: Links<A>, d: map<Id, nat>, x: Id)
    requires DepthMap(m, d) && x in m
    ensures Distinct(m[x].kids)
    ensures forall k :: k in m[x].kids ==> k in m && d[k] == d[x] + 1 && m[k].parent == Some(x)
    ensures x in From(d, d[x]) && x !in From(d, d[x] + 1)
    ensures Pre(m, d, x) == [x] + PreRow(m, d, m[x].kids, d[x] + 1)
  {
    assert Placed(m, d, x);
    assert forall k :: k in m[x].kids ==> Placed(m, d, k);
  }

  lemma GraftNode<A>(m: Links<A>, d: map<Id, nat>, b: Links<A>, e: map<Id, nat>, p: Id, r: Id,
                     g: Links<A>, f: map<Id, nat>, x: Id)
    requires Grafted(m, d, b, e, p, r, g, f) && x in m
    ensures x in g && f[x] == d[x]
    ensures g[x].kids == m[x].kids + if x == p then [r] else []
    ensures forall k :: k in m[x].kids ==> k in m && d[k] == d[x] + 1 && k in g && f[k] == d[x] + 1
  {
    KidLevels(m, d, x);
  }

  lemma PreAppend<A>(g: Links<A>, f: map<Id, nat>, x: Id, ks: seq<Id>, r: Id)
    requires DepthMap(g, f) && x in g && g[x].kids == ks + [r]
    requires forall k :: k in ks ==> k in g && f[k] == f[x] + 1
    ensures r in g
    ensures Pre(g, f, x) == [x] + (PreRow(g, f, ks, f[x] + 1) + Pre(g, f, r))
  {
    KidLevels(g, f, x);
    RowAppend(g, f, ks, r, f[x] + 1);
  }

  // What a walk of the grafted tree lists at a node of the old one.
  lemma GraftUnfold<A>(m: Links<A>, d: map<Id, nat>, b: Links<A>, e: map<Id, nat>, p: Id, r: Id,
                       g: Links<A>, f: map<Id, nat>, x: Id, ks: seq<Id>)
    requires Grafted(m, d, b, e, p, r, g, f) && x in m && ks == m[x].kids
    requires f[x] == d[x]
    requires forall k :: k in ks ==> k in g && f[k] == d[x] + 1
    ensures Pre(g, f, x) == [x] + (PreRow(g, f, ks, d[x] + 1) + if x == p then Pre(b, e, r) else [])
  {
    hide Pre, PreRow, Placed, Graft, Rehung, Deepened;
    GraftNode(m, d, b, e, p, r, g, f, x);
    if x == p {
      PreAppend(g, f, x, ks, r);
      GraftInside(m, d, b, e, p, r, g, f, r);
    } else {
      KidLevels(g, f, x);
      assert g[x].kids == ks;
      assert PreRow(g, f, ks, d[x] + 1) + [] == PreRow(g, f, ks, d[x] + 1);
    }
  }

  lemma KeepHere<A>(m: Links<A>, b: Links<A>, e: map<Id, nat>, r: Id)
    requires DepthMap(b, e) && r in b
    ensures Keep(Pre(b, e, r), b.Keys) == Pre(b, e, r)
    ensures m.Keys !! b.Keys ==> Keep(Pre(b, e, r), m.Keys) == []
  {
    forall y | y in Pre(b, e, r) ensures y in b.Keys {
      PreMembers(b, e, r, y);
    }
  }

  // ... the tree it was hung in keeps its own order ...
  lemma {:induction false} GraftOutside<A>(m: Links<A>, d: map<Id, nat>, b: Links<A>, e: map<Id, nat>, p: Id, r: Id,
                                           g: Links<A>, f: map<Id, nat>, x: Id)
    requires Grafted(m, d, b, e, p, r, g, f) && x in m
    ensures Keep(Pre(g, f, x), m.Keys) == Pre(m, d, x)
    decreases From(d, d[x]), 0
  {
    hide Keep, Pre, PreRow, Graft, Rehung, Deepened, Placed;
    KidLevels(m, d, x);
    GraftNode(m, d, b, e, p, r, g, f, x);
    GraftUnfold(m, d, b, e, p, r, g, f, x, m[x].kids);
    GraftOutsideRow(m, d, b, e, p, r, g, f, m[x].kids, d[x] + 1);
    var row := PreRow(g, f, m[x].kids, d[x] + 1);
    var tail := if x == p then Pre(b, e, r) else [];
    KeepHere(m, b, e, r);
    KeepParts(x, row, tail, m.Keys);
  }

  lemma KeepParts(x: Id, row: seq<Id>, tail: seq<Id>, keep: set<Id>)
    ensures Keep([x] + (row + tail), keep) == (if x in keep then [x] else []) + (Keep(row, keep) + Keep(tail, keep))
    ensures Keep<Id>([], keep) == []
  {
    KeepConcat(row, tail, keep);
    KeepConcat([x], row + tail, keep);
  }

  lemma {:induction false} GraftOutsideRow<A>(m: Links<A>, d: map<Id, nat>, b: Links<A>, e: map<Id, nat>, p: Id, r: Id,
                                              g: Links<A>, f: map<Id, nat>, ks: seq<Id>, lvl: nat)
    requires Grafted(m, d, b, e, p, r, g, f)
    requires forall k :: k in ks ==> k in m && d[k] == lvl
    ensures forall k :: k in ks ==> k in g && f[k] == lvl
    ensures Keep(PreRow(g, f, ks, lvl), m.Keys) == PreRow(m, d, ks, lvl)
    decreases From(d, lvl), |ks|
  {
    if ks != [] {
      GraftOutside(m, d, b, e, p, r, g, f, ks[0]);
      GraftOutsideRow(m, d, b, e, p, r, g, f, ks[1..], lvl);
      KeepConcat(Pre(g, f, ks[0]), PreRow(g, f, ks[1..], lvl), m.Keys);
    }
  }

  // ... and the grafted subtree appears in it once, whole and in order, exactly
  // where its new parent does.
  lemma {:induction false} GraftBlock<A>(m: Links<A>, d: map<Id, nat>, b: Links<A>, e: map<Id, nat>, p: Id, r: Id,
                                         g: Links<A>, f: map<Id, nat>, x: Id)
    requires Grafted(m, d, b, e, p, r, g, f) && x in m
    ensures Keep(Pre(g, f, x), b.Keys) == if Under(m, d, p, x) then Pre(b, e, r) else []
    decreases From(d, d[x]), 0
  {
    hide Keep, Pre, PreRow, Graft, Rehung, Deepened, Placed;
    KidLevels(m, d, x);
    GraftNode(m, d, b, e, p, r, g, f, x);
    GraftUnfold(m, d, b, e, p, r, g, f, x, m[x].kids);
    var ks := m[x].kids;
    UnderKids(m, d, p, x);
    GraftBlockRow(m, d, b, e, p, r, g, f, ks, d[x] + 1);
    var row := PreRow(g, f, ks, d[x] + 1);
    var tail := if x == p then Pre(b, e, r) else [];
    KeepHere(m, b, e, r);
    KeepParts(x, row, tail, b.Keys);
    assert x !in b.Keys;
  }

  lemma UnderKids<A>(m: Links<A>, d: map<Id, nat>, y: Id, x: Id)
    requires DepthMap(m, d) && x in m && y in m
    ensures forall k :: k in m[x].kids ==> k in m && d[k] == d[x] + 1
    ensures Under(m, d, y, x) <==> y == x || exists k :: k in m[x].kids && Under(m, d, y, k)
    ensures y == x ==> !exists k :: k in m[x].kids && Under(m, d, y, k)
    ensures Distinct(m[x].kids)
  {
    assert Placed(m, d, x);
    var ks := m[x].kids;
    assert forall k :: k in ks ==> Placed(m, d, k);
    PreMembers(m, d, x, y);
    RowMembers(m, d, ks, d[x] + 1, y);
  }

  lemma {:induction false} GraftBlockRow<A>(m: Links<A>, d: map<Id, nat>, b: Links<A>, e: map<Id, nat>, p: Id, r: Id,
                                            g: Links<A>, f: map<Id, nat>, ks: seq<Id>, lvl: nat)
    requires Grafted(m, d, b, e, p, r, g, f) && Distinct(ks)
    requires forall k :: k in ks ==> k in m && d[k] == lvl
    ensures forall k :: k in ks ==> k in g && f[k] == lvl
    ensures Keep(PreRow(g, f, ks, lvl), b.Keys) ==
            if exists k :: k in ks && Under(m, d, p, k) then Pre(b, e, r) else []
    decreases From(d, lvl), |ks|
  {
    hide Keep, Pre, Graft, Rehung, Deepened, Placed;
    GraftLevels(m, d, b, e, p, r, g, f, ks, lvl);
    if ks == [] {
      KeepNone(b.Keys);
    } else {
      GraftBlock(m, d, b, e, p, r, g, f, ks[0]);
      DistinctTail(ks);
      GraftBlockRow(m, d, b, e, p, r, g, f, ks[1..], lvl);
      PreRowCons(g, f, ks, lvl);
      KeepConcat(Pre(g, f, ks[0]), PreRow(g, f, ks[1..], lvl), b.Keys);
      OneUnder(m, d, p, ks, lvl);
    }
  }

  lemma KeepNone(keep: set<Id>)
    ensures Keep([], keep) == []
  {
  }

  lemma DistinctTail(ks: seq<Id>)
    requires Distinct(ks) && ks != []
    ensures Distinct(ks[1..]) && forall k :: k in ks[1..] ==> k in ks && k != ks[0]
  {
  }

  lemma GraftLevels<A>(m: Links<A>, d: map<Id, nat>, b: Links<A>, e: map<Id, nat>, p: Id, r: Id,
                       g: Links<A>, f: map<Id, nat>, ks: seq<Id>, lvl: nat)
    requires Grafted(m, d, b, e, p, r, g, f) && forall k :: k in ks ==> k in m && d[k] == lvl
    ensures forall k :: k in ks ==> k in g && f[k] == lvl
  {
    hide Graft, Rehung, Deepened, Placed;
    forall k | k in ks ensures k in g && f[k] == lvl {
      GraftNode(m, d, b, e, p, r, g, f, k);
    }
  }

  // Of a row on one level at most one node is above y.
  lemma OneUnder<A>(m: Links<A>, d: map<Id, nat>, y: Id, ks: seq<Id>, lvl: nat)
    requires DepthMap(m, d) && ks != [] && forall k :: k in ks ==> k in m && d[k] == lvl
    requires forall k :: k in ks[1..] ==> k in ks && k != ks[0]
    ensures (exists k :: k in ks && Under(m, d, y, k)) <==>
              Under(m, d, y, ks[0]) || exists k :: k in ks[1..] && Under(m, d, y, k)
    ensures Under(m, d, y, ks[0]) ==> !exists k :: k in ks[1..] && Under(m, d, y, k)
  {
    hide AncestorAt, DepthMap;
    if exists k :: k in ks && Under(m, d, y, k) {
      var k :| k in ks && Under(m, d, y, k);
      assert k == ks[0] || k in ks[1..];
    }
  }
}

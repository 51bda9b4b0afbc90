// Cutting a subtree out of a forest and hanging another one in it.
module Surgery {
  import opened Prelude
  import opened Forest

  // ------------------------------------------------------------------ pruning

  function Unlinked<A>(m: Links<A>, a: Id): Links<A> {
    map x | x in m :: m[x].(kids := Without(m[x].kids, a))
  }

  ghost function Forgotten<A>(m: Links<A>, a: Id): Links<A> {
    m - Descendants(m, a)
  }

  // a, everything below it, and the entry for a in any list of children: gone.
  ghost function Drop<A>(m: Links<A>, a: Id): (r: Links<A>) {
    map x | x in m && x != a && !Below(m, x, a) :: m[x].(kids := Without(m[x].kids, a))
  }

  lemma DropDepths<A>(m: Links<A>, d: map<Id, nat>, a: Id)
    requires DepthMap(m, d)
    ensures DepthMap(Drop(m, a), map x | x in Drop(m, a) :: d[x])
  {
    var r := Drop(m, a);
    var e := map x | x in r :: d[x];
    forall x | x in r ensures Placed(r, e, x) {
      assert Placed(m, d, x);
      WithoutDistinct(m[x].kids, a);
      if m[x].parent.Some? {
        AtOrBelowStep(m, m[x].parent.value, a);
      }
      forall k | k in r[x].kids ensures k in r && r[k].parent == Some(x) {
        AtOrBelowStep(m, x, a);
      }
    }
  }

  lemma DropKeepsTree<A>(m: Links<A>, root: Option<Id>, a: Id)
    requires IsTree(m, root)
    ensures IsTree(Drop(m, a), root)
  {
    DropDepths(m, Depths(m), a);
  }

  // Dropping what a frame holds and then the frame itself, in the code's three
  // separate steps, is one Drop.
  lemma DropInSteps<A>(m: Links<A>, a: Id)
    ensures Unlinked(Forgotten(m, a), a) - {a} == Drop(m, a)
  {
  }

  // Dropping a set of nodes at once; what is dropped is independent of any
  // order in which its members might be taken.
  ghost predicate BelowAny<A>(m: Links<A>, x: Id, s: set<Id>) {
    exists a :: a in s && Below(m, x, a)
  }

  ghost function DropAll<A>(m: Links<A>, s: set<Id>): (r: Links<A>) {
    map x | x in m && x !in s && !BelowAny(m, x, s) ::
      m[x].(kids := WithoutAll(m[x].kids, s))
  }

  lemma DropAllNone<A>(m: Links<A>)
    ensures DropAll(m, {}) == m
  {
    forall x | x in m ensures WithoutAll(m[x].kids, {}) == m[x].kids {
    }
  }

  // Climbing in what is left after dropping s leads where it led before, until
  // it reaches a dropped node.
  lemma {:induction false} ClimbAfterDrop<A>(m: Links<A>, s: set<Id>, x: Id, n: nat)
    requires x in DropAll(m, s)
    ensures Climb(DropAll(m, s), x, n) == Climb(m, x, n)
    decreases n
  {
    if n > 0 && m[x].parent.Some? {
      var p := m[x].parent.value;
      if p in m {
        assert p !in s by {
          if p in s { AtOrBelowStep(m, p, p); assert Below(m, x, p); }
        }
        assert !BelowAny(m, p, s) by {
          if BelowAny(m, p, s) {
            var a :| a in s && Below(m, p, a);
            AtOrBelowStep(m, p, a);
            assert Below(m, x, a);
          }
        }
        ClimbAfterDrop(m, s, p, n - 1);
      }
    }
  }

  lemma BelowAfterDrop<A>(m: Links<A>, s: set<Id>, x: Id, a: Id)
    requires x in DropAll(m, s)
    ensures Below(DropAll(m, s), x, a) <==> Below(m, x, a)
  {
    var r := DropAll(m, s);
    if m[x].parent.Some? {
      var p := m[x].parent.value;
      forall n: nat ensures Climb(r, p, n) == Climb(m, p, n) {
        ClimbAfterDrop(m, s, x, n + 1);
        assert Climb(r, x, n + 1) == Climb(r, p, n);
        assert Climb(m, x, n + 1) == Climb(m, p, n);
      }
      if AtOrBelow(r, p, a) {
        var n: nat :| Climb(r, p, n) == Some(a);
        assert Climb(m, p, n) == Some(a);
      }
      if AtOrBelow(m, p, a) {
        var n: nat :| Climb(m, p, n) == Some(a);
        assert Climb(r, p, n) == Some(a);
      }
    }
  }

  // One more drop after a set has been dropped: the set grows by one. So the
  // result of dropping several nodes one after another has no order.
  lemma DropAllStep<A>(m: Links<A>, s: set<Id>, a: Id)
    ensures Drop(DropAll(m, s), a) == DropAll(m, s + {a})
  {
    var r := DropAll(m, s);
    var both := DropAll(m, s + {a});
    hide Below, WithoutAll, Without;
    forall x | x in m ensures x in Drop(r, a) <==> x in both {
      if x in r {
        BelowAfterDrop(m, s, x, a);
      }
      if BelowAny(m, x, s) {
        var b :| b in s && Below(m, x, b);
        assert b in s + {a};
      }
      if Below(m, x, a) {
        assert a in s + {a};
      }
    }
    forall x | x in both ensures Drop(r, a)[x] == both[x] {
      WithoutAllStep(m[x].kids, s, a);
    }
  }

  lemma {:induction false} DropAllKeepsTree<A>(m: Links<A>, root: Option<Id>, s: set<Id>)
    requires IsTree(m, root)
    ensures IsTree(DropAll(m, s), root)
    decreases |s|
  {
    if s == {} {
      DropAllNone(m);
    } else {
      var a :| a in s;
      var rest := s - {a};
      assert rest + {a} == s;
      DropAllKeepsTree(m, root, rest);
      DropAllStep(m, rest, a);
      DropKeepsTree(DropAll(m, rest), root, a);
    }
  }

  // ----------------------------------------------------------------- grafting

  // b is a row of subtrees with roots rs, hanging from a node p outside b at
  // level k.
  ghost predicate Hangs<A>(b: Links<A>, e: map<Id, nat>, p: Id, rs: seq<Id>, k: nat) {
    && e.Keys == b.Keys
    && p !in b
    && Distinct(rs)
    && (forall r :: r in rs ==> r in b && b[r].parent == Some(p) && e[r] == k)
    && forall x {:trigger Hung(b, e, p, rs, x)} :: x in b ==> Hung(b, e, p, rs, x)
  }

  ghost predicate Hung<A>(b: Links<A>, e: map<Id, nat>, p: Id, rs: seq<Id>, x: Id)
    requires x in b && e.Keys == b.Keys
  {
    && b[x].parent.Some?
    && (var q := b[x].parent.value;
        if q == p then x in rs
        else q in b && x in b[q].kids && e[x] == e[q] + 1)
    && Distinct(b[x].kids)
    && forall c :: c in b[x].kids ==> c in b && b[c].parent == Some(x)
  }

  lemma HangsUnion<A>(b1: Links<A>, e1: map<Id, nat>, rs1: seq<Id>,
                      b2: Links<A>, e2: map<Id, nat>, rs2: seq<Id>, p: Id, k: nat)
    requires Hangs(b1, e1, p, rs1, k) && Hangs(b2, e2, p, rs2, k)
    requires b1.Keys !! b2.Keys
    ensures Hangs(b1 + b2, e1 + e2, p, rs1 + rs2, k)
  {
    hide Hung, Distinct;
    DistinctConcat(rs1, rs2);
    HungUnion(b1, e1, rs1, b2, e2, rs2, p);
  }

  lemma HungUnion<A>(b1: Links<A>, e1: map<Id, nat>, rs1: seq<Id>,
                     b2: Links<A>, e2: map<Id, nat>, rs2: seq<Id>, p: Id)
    requires e1.Keys == b1.Keys && e2.Keys == b2.Keys && b1.Keys !! b2.Keys
    requires forall x {:trigger Hung(b1, e1, p, rs1, x)} :: x in b1 ==> Hung(b1, e1, p, rs1, x)
    requires forall x {:trigger Hung(b2, e2, p, rs2, x)} :: x in b2 ==> Hung(b2, e2, p, rs2, x)
    ensures var b, e, rs := b1 + b2, e1 + e2, rs1 + rs2;
            forall x {:trigger Hung(b, e, p, rs, x)} :: x in b ==> Hung(b, e, p, rs, x)
  {
    hide Hung;
    var b, e, rs := b1 + b2, e1 + e2, rs1 + rs2;
    forall x | x in b ensures Hung(b, e, p, rs, x) {
      if x in b2 {
        HungMore(b2, e2, rs2, b, e, rs, p, x);
      } else {
        HungMore(b1, e1, rs1, b, e, rs, p, x);
      }
    }
  }

  // A node of some of the rows is hung as well among more of them.
  lemma HungMore<A>(b: Links<A>, e: map<Id, nat>, rs: seq<Id>, b': Links<A>, e': map<Id, nat>, rs': seq<Id>,
                    p: Id, x: Id)
    requires e.Keys == b.Keys && e'.Keys == b'.Keys && x in b && Hung(b, e, p, rs, x)
    requires b.Keys <= b'.Keys && forall y :: y in b ==> b'[y] == b[y] && e'[y] == e[y]
    requires forall r :: r in rs ==> r in rs'
    ensures Hung(b', e', p, rs', x)
  {
  }

  lemma HangsUnder<A>(b: Links<A>, e: map<Id, nat>, p: Id, x: Id, ks: seq<Id>, k: nat, data: A)
    requires Hangs(b, e, x, ks, k + 1)
    requires p !in b && p != x
    ensures Hangs(map[x := Node(Some(p), ks, data)] + b, map[x := k] + e, p, [x], k)
  {
    var b', e' := map[x := Node(Some(p), ks, data)] + b, map[x := k] + e;
    forall y | y in b' ensures Hung(b', e', p, [x], y) {
      if y != x {
        assert Hung(b, e, x, ks, y);
      }
    }
  }

  lemma HangsTop<A>(b: Links<A>, e: map<Id, nat>, x: Id, ks: seq<Id>, data: A)
    requires Hangs(b, e, x, ks, 1)
    ensures IsTree(map[x := Node(None, ks, data)] + b, Some(x))
  {
    var m, d := map[x := Node(None, ks, data)] + b, map[x := 0] + e;
    forall y | y in m ensures Placed(m, d, y) {
      if y != x {
        assert Hung(b, e, x, ks, y);
      }
    }
    assert DepthMap(m, d);
    forall y | y in m ensures m[y].parent.None? <==> Some(x) == Some(y) {
      if y != x {
        assert Hung(b, e, x, ks, y);
      }
    }
  }

  function Graft<A>(m: Links<A>, p: Id, b: Links<A>, rs: seq<Id>): Links<A>
    requires p in m
  {
    m[p := m[p].(kids := m[p].kids + rs)] + b
  }

  lemma GraftDepths<A>(m: Links<A>, d: map<Id, nat>, p: Id, b: Links<A>, e: map<Id, nat>, rs: seq<Id>)
    requires DepthMap(m, d) && p in m && m.Keys !! b.Keys
    requires Hangs(b, e, p, rs, d[p] + 1)
    ensures DepthMap(Graft(m, p, b, rs), d + e)
  {
    var g, f := Graft(m, p, b, rs), d + e;
    forall x | x in g ensures Placed(g, f, x) {
      if x in b {
        assert Hung(b, e, p, rs, x);
      } else {
        assert Placed(m, d, x);
        if x == p {
          DistinctConcat(m[p].kids, rs);
        }
      }
    }
  }

  lemma GraftKeepsTree<A>(m: Links<A>, root: Option<Id>, p: Id, b: Links<A>, e: map<Id, nat>, rs: seq<Id>)
    requires IsTree(m, root) && p in m && m.Keys !! b.Keys
    requires Hangs(b, e, p, rs, Depths(m)[p] + 1)
    ensures IsTree(Graft(m, p, b, rs), root)
  {
    ReachableFromRoot(m, root, p);
    GraftDepths(m, Depths(m), p, b, e, rs);
    forall x | x in b ensures b[x].parent.Some? {
      assert Hung(b, e, p, rs, x);
    }
  }
}

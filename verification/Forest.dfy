// One tree kept in two forms: a flat map in which every node names its parent,
// and the ordered list of children every node holds. The frame tree and the
// accessibility tree are both kept this way; what is proved here about pruning,
// grafting and walking such a map is used for both.
module Forest {
  import opened Prelude

  type Id = string

  datatype Node<+A> = Node(parent: Option<Id>, kids: seq<Id>, data: A)

  type Links<+A> = map<Id, Node<A>>

  // ------------------------------------------------------------ the invariant

  // x is held by exactly its one parent, one level below it, and holds only
  // nodes that name it as their parent.
  ghost predicate Placed<A>(m: Links<A>, d: map<Id, nat>, x: Id)
    requires x in m && d.Keys == m.Keys
  {
    && match m[x].parent {
         case None => d[x] == 0
         case Some(p) => p in m && x in m[p].kids && d[x] == d[p] + 1
       }
    && Distinct(m[x].kids)
    && forall k :: k in m[x].kids ==> k in m && m[k].parent == Some(x)
  }

  ghost predicate DepthMap<A>(m: Links<A>, d: map<Id, nat>) {
    && d.Keys == m.Keys
    && forall x {:trigger Placed(m, d, x)} :: x in m ==> Placed(m, d, x)
  }

  // Both forms agree and no node is its own ancestor.
  ghost predicate IsForest<A>(m: Links<A>) {
    exists d :: DepthMap(m, d)
  }

  // A forest whose only parentless node, if it has one at all, is root.
  ghost predicate IsTree<A>(m: Links<A>, root: Option<Id>) {
    && IsForest(m)
    && forall x :: x in m ==> (m[x].parent.None? <==> root == Some(x))
  }

  lemma {:induction false} DepthAt<A>(m: Links<A>, d: map<Id, nat>, e: map<Id, nat>, x: Id)
    requires DepthMap(m, d) && DepthMap(m, e) && x in m
    ensures d[x] == e[x]
    decreases d[x]
  {
    assert Placed(m, d, x) && Placed(m, e, x);
    if m[x].parent.Some? {
      DepthAt(m, d, e, m[x].parent.value);
    }
  }

  lemma DepthUnique<A>(m: Links<A>, d: map<Id, nat>, e: map<Id, nat>)
    requires DepthMap(m, d) && DepthMap(m, e)
    ensures d == e
  {
    forall x | x in m ensures d[x] == e[x] {
      DepthAt(m, d, e, x);
    }
  }

  ghost function Depths<A>(m: Links<A>): (d: map<Id, nat>)
    requires IsForest(m)
    ensures DepthMap(m, d)
  {
    var d :| DepthMap(m, d); d
  }

  // ------------------------------------------------------- climbing by parent

  // Where n steps towards the root lead from x. The last step may name a node
  // the map does not hold; no step leaves such a node.
  ghost function Climb<A>(m: Links<A>, x: Id, n: nat): Option<Id>
    decreases n
  {
    if n == 0 then Some(x)
    else if x in m && m[x].parent.Some? then Climb(m, m[x].parent.value, n - 1)
    else None
  }

  ghost predicate AtOrBelow<A>(m: Links<A>, x: Id, a: Id) {
    exists n: nat :: Climb(m, x, n) == Some(a)
  }

  // x is a proper descendant of a, by parent links alone.
  ghost predicate Below<A>(m: Links<A>, x: Id, a: Id) {
    x in m && m[x].parent.Some? && AtOrBelow(m, m[x].parent.value, a)
  }

  ghost function Descendants<A>(m: Links<A>, a: Id): set<Id> {
    set x | x in m && Below(m, x, a)
  }

  lemma AtOrBelowStep<A>(m: Links<A>, x: Id, a: Id)
    ensures AtOrBelow(m, x, a) <==> x == a || Below(m, x, a)
  {
    if x == a {
      assert Climb(m, x, 0) == Some(a);
    }
    if AtOrBelow(m, x, a) && x != a {
      var n: nat :| Climb(m, x, n) == Some(a);
      assert Climb(m, m[x].parent.value, n - 1) == Some(a);
    }
    if Below(m, x, a) {
      var n: nat :| Climb(m, m[x].parent.value, n) == Some(a);
      assert Climb(m, x, n + 1) == Some(a);
    }
  }

  lemma {:induction false} ClimbAdd<A>(m: Links<A>, x: Id, n: nat, y: Id, k: nat)
    requires Climb(m, x, n) == Some(y)
    ensures Climb(m, x, n + k) == Climb(m, y, k)
    decreases n
  {
    if n > 0 {
      ClimbAdd(m, m[x].parent.value, n - 1, y, k);
    }
  }

  lemma AtOrBelowTrans<A>(m: Links<A>, x: Id, y: Id, a: Id)
    requires AtOrBelow(m, x, y) && AtOrBelow(m, y, a)
    ensures AtOrBelow(m, x, a)
  {
    var n: nat :| Climb(m, x, n) == Some(y);
    var k: nat :| Climb(m, y, k) == Some(a);
    ClimbAdd(m, x, n, y, k);
  }

  // A set that contains the parent of each of its members contains every
  // ancestor of its members.
  lemma {:induction false} ClimbWithin<A>(m: Links<A>, s: set<Id>, x: Id, n: nat)
    requires x in s
    requires forall y :: y in s && y in m && m[y].parent.Some? ==> m[y].parent.value in s
    ensures Climb(m, x, n).Some? ==> Climb(m, x, n).value in s
    decreases n
  {
    if n > 0 && x in m && m[x].parent.Some? {
      ClimbWithin(m, s, m[x].parent.value, n - 1);
    }
  }

  // A set that contains the children-by-parent-link of each of its members,
  // and of a, contains everything below a.
  lemma {:induction false} BelowWithin<A>(m: Links<A>, s: set<Id>, a: Id, x: Id, n: nat)
    requires forall y | y in m && m[y].parent.Some? ::
               m[y].parent.value == a || m[y].parent.value in s ==> y in s
    requires x in m && n > 0 && Climb(m, x, n) == Some(a)
    ensures x in s
    decreases n
  {
    var p := m[x].parent.value;
    if n > 1 {
      BelowWithin(m, s, a, p, n - 1);
    }
  }

  lemma {:induction false} ClimbDepth<A>(m: Links<A>, d: map<Id, nat>, x: Id, n: nat)
    requires DepthMap(m, d) && x in m
    ensures match Climb(m, x, n)
            case None => n > d[x]
            case Some(a) => a in m && d[x] == d[a] + n
    decreases n
  {
    assert Placed(m, d, x);
    if n > 0 && m[x].parent.Some? {
      ClimbDepth(m, d, m[x].parent.value, n - 1);
    }
  }

  // In a forest a descendant is deeper than its ancestor, so nothing is below
  // itself.
  lemma BelowDeeper<A>(m: Links<A>, d: map<Id, nat>, x: Id, a: Id)
    requires DepthMap(m, d) && Below(m, x, a)
    ensures a in m && d[x] > d[a]
  {
    AtOrBelowStep(m, x, a);
    assert Placed(m, d, x);
    var n: nat :| Climb(m, m[x].parent.value, n) == Some(a);
    ClimbDepth(m, d, m[x].parent.value, n);
  }

  lemma {:induction false} ReachesTop<A>(m: Links<A>, d: map<Id, nat>, x: Id) returns (top: Id)
    requires DepthMap(m, d) && x in m
    ensures top in m && m[top].parent.None? && AtOrBelow(m, x, top)
    decreases d[x]
  {
    assert Placed(m, d, x);
    if m[x].parent.None? {
      top := x;
    } else {
      top := ReachesTop(m, d, m[x].parent.value);
    }
    AtOrBelowStep(m, x, top);
  }

  // Every node of a tree is reachable from the root.
  lemma ReachableFromRoot<A>(m: Links<A>, root: Option<Id>, x: Id)
    requires IsTree(m, root) && x in m
    ensures root.Some? && root.value in m && AtOrBelow(m, x, root.value)
  {
    var top := ReachesTop(m, Depths(m), x);
  }
}

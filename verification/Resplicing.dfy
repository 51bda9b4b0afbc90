// Held trees, tried again until none of them can be placed: where it ends, and
// why the order of the sessions does not matter.
module Resplicing {
  import opened Prelude
  import opened Forest
  import opened Surgery
  import opened Frames
  import opened FrameLaws
  import opened Desks
  import opened SessionLaws

  // ------------------------------------------------------------ the fixpoint

  // No held tree left over has its parent in the map.
  ghost predicate Exhausted(s: Desk) {
    forall k :: k in s.sessions && s.sessions[k].held.Some? ==> !CanSplice(s.tree.frames, s.sessions[k].held.value)
  }

  lemma {:induction false} IdlePass(s: Desk, todo: seq<Sid>, matches: Matcher)
    requires Pass(s, todo, matches) == s
    ensures forall k :: k in todo && k in s.sessions && s.sessions[k].held.Some? ==>
              !CanSplice(s.tree.frames, s.sessions[k].held.value)
    decreases |todo|
  {
    if todo != [] {
      hide Apply, CanSplice;
      IdlePass(s, todo[1..], matches);
    }
  }

  lemma {:induction false} PassKeepsOrder(s: Desk, todo: seq<Sid>, matches: Matcher)
    ensures Pass(s, todo, matches).order == s.order
    decreases |todo|
  {
    if todo != [] {
      PassKeepsOrder(Tried(s, todo[0], matches), todo[1..], matches);
    }
  }

  // The passes end, and end with nothing held that could still be placed.
  lemma {:induction false} ResplicedIsExhausted(s: Desk, matches: Matcher)
    requires Elems(s.order) == s.sessions.Keys
    ensures Exhausted(Respliced(s, matches))
    decreases Holding(s)
  {
    hide CanSplice, Pass;
    var r := Pass(s, s.order, matches);
    PassKeepsOrder(s, s.order, matches);
    if r == s {
      IdlePass(s, s.order, matches);
    } else {
      ResplicedIsExhausted(r, matches);
    }
  }

  // ------------------------------------------------------- held trees, placed

  function HeldTree(s: Desk, k: Sid): FrameTree
    requires k in Holding(s)
  {
    s.sessions[k].held.value
  }

  // The frames a held tree brings.
  ghost function Block(s: Desk, k: Sid): FrameMap
    requires k in Holding(s)
  {
    Parse(map[], HeldTree(s, k), HeldTree(s, k).parentId, Some(k))
  }

  // The root a held tree brings, and the frame it hangs under.
  function Root(s: Desk, k: Sid): Id
    requires k in Holding(s)
  {
    HeldTree(s, k).Name()
  }

  function Under(s: Desk, k: Sid): Id
    requires k in Holding(s)
  {
    HeldTree(s, k).parentId.GetOr("")
  }

  // What is owed of the trees held at one moment: ids all different within a tree
  // and between two trees, and each tree by itself a sane splice: an id the map
  // holds already, its own placeholder above all, is at or below that placeholder,
  // and the tree does not hang below itself.
  ghost predicate Separate(s: Desk) {
    && (forall k :: k in Holding(s) ==> Distinct(Ids(HeldTree(s, k))))
    && (forall k :: k in Holding(s) ==> BringsFreshIds(s.tree.frames, HeldTree(s, k)))
    && (forall k :: k in Holding(s) && Under(s, k) in s.tree.frames ==> !Covers(s, k, Under(s, k)))
    && (forall j, k, x :: j in Holding(s) && k in Holding(s) && x in Ids(HeldTree(s, j)) && x in Ids(HeldTree(s, k)) ==>
          j == k)
  }

  // x is in the part of the map that the tree of k replaces.
  ghost predicate Covers(s: Desk, k: Sid, x: Id)
    requires k in Holding(s)
  {
    AtOrBelow(s.tree.frames, x, Root(s, k))
  }

  // No held tree hangs under a frame that another one replaces. A reply without a
  // root is never spliced and is left out.
  ghost predicate Apart(s: Desk) {
    forall j, k :: j in Holding(s) && k in Holding(s) && j != k && IsHung(s, k) ==> !Covers(s, j, Under(s, k))
  }

  // The frame that the tree of k hangs under is in the map.
  ghost predicate IsHung(s: Desk, k: Sid)
    requires k in Holding(s)
  {
    Root(s, k) != "" && Under(s, k) in s.tree.frames
  }

  ghost predicate Brought(s: Desk, placed: set<Sid>, x: Id)
    requires placed <= Holding(s)
  {
    exists k :: k in placed && x in Ids(HeldTree(s, k))
  }

  ghost predicate Survives(s: Desk, placed: set<Sid>, x: Id)
    requires placed <= Holding(s)
  {
    x in s.tree.frames && forall k :: k in placed ==> !Covers(s, k, x)
  }

  ghost predicate Came(s: Desk, placed: set<Sid>, x: Id)
    requires placed <= Holding(s)
  {
    Survives(s, placed, x) || Brought(s, placed, x)
  }

  ghost predicate SameSpot(a: Node<Frame>, b: Node<Frame>) {
    a.parent == b.parent && a.data == b.data
  }

  // s' is s with the trees of the sessions in placed spliced in, up to the order
  // of children.
  ghost predicate Built(s: Desk, s': Desk, placed: set<Sid>) {
    && placed <= Holding(s)
    && Holding(s') == Holding(s) - placed
    && s'.sessions == Emptied(s.sessions, placed)
    && s'.order == s.order
    && Framed(s, s'.tree.frames, placed)
  }

  ghost predicate Framed(s: Desk, m: FrameMap, placed: set<Sid>)
    requires placed <= Holding(s)
  {
    && (forall x :: x in m <==> Came(s, placed, x))
    && (forall x :: Survives(s, placed, x) ==> SameSpot(m[x], s.tree.frames[x]))
    && (forall k, x :: k in placed && x in Ids(HeldTree(s, k)) ==> FromBlock(s, m, k, x))
  }

  ghost predicate FromBlock(s: Desk, m: FrameMap, k: Sid, x: Id)
    requires k in Holding(s)
  {
    x in m && x in Block(s, k) && SameSpot(m[x], Block(s, k)[x])
  }

  function Emptied(sessions: map<Sid, Session>, placed: set<Sid>): map<Sid, Session> {
    map k | k in sessions :: if k in placed then sessions[k].(held := None) else sessions[k]
  }

  // The tree of k can be placed, now or after the trees in placed.
  ghost predicate Supplied(s: Desk, placed: set<Sid>, k: Sid)
    requires placed <= Holding(s) && k in Holding(s)
  {
    && Root(s, k) != "" && Under(s, k) != ""
    && (Under(s, k) in s.tree.frames || Brought(s, placed, Under(s, k)))
  }

  // placed holds every tree whose parent is mapped, or comes with a placed tree.
  ghost predicate Closed(s: Desk, placed: set<Sid>)
    requires placed <= Holding(s)
  {
    forall k :: k in Holding(s) && Supplied(s, placed, k) ==> k in placed
  }

  lemma BuiltNothing(s: Desk)
    ensures Built(s, s, {})
  {
    assert Emptied(s.sessions, {}) == s.sessions;
  }

  // ------------------------------------------------- the map with trees placed

  lemma SurvivorParent(s: Desk, placed: set<Sid>, y: Id)
    requires placed <= Holding(s) && IsForest(s.tree.frames) && Survives(s, placed, y)
    ensures s.tree.frames[y].parent.Some? ==> Survives(s, placed, s.tree.frames[y].parent.value)
  {
    if s.tree.frames[y].parent.Some? {
      MappedParent(s.tree.frames, y);
      forall k | k in placed ensures !Covers(s, k, s.tree.frames[y].parent.value) {
        AtOrBelowStep(s.tree.frames, y, Root(s, k));
      }
    }
  }

  // Above a frame that survives everything is as it was.
  lemma {:induction false} SurvivorClimbs(s: Desk, m: FrameMap, placed: set<Sid>, y: Id, n: nat)
    requires placed <= Holding(s) && Framed(s, m, placed) && IsForest(s.tree.frames) && Survives(s, placed, y)
    ensures Climb(m, y, n) == Climb(s.tree.frames, y, n)
    decreases n
  {
    hide Framed, IsForest, Covers;
    InFrame(s, m, placed, y);
    KeptSpot(s, m, placed, y);
    SurvivorParent(s, placed, y);
    if n > 0 && s.tree.frames[y].parent.Some? {
      SurvivorClimbs(s, m, placed, s.tree.frames[y].parent.value, n - 1);
    }
  }

  lemma SurvivorBelow(s: Desk, m: FrameMap, placed: set<Sid>, y: Id, a: Id)
    requires placed <= Holding(s) && Framed(s, m, placed) && IsForest(s.tree.frames) && Survives(s, placed, y)
    ensures AtOrBelow(m, y, a) <==> AtOrBelow(s.tree.frames, y, a)
  {
    hide Framed, Survives;
    forall n: nat ensures Climb(m, y, n) == Climb(s.tree.frames, y, n) {
      SurvivorClimbs(s, m, placed, y, n);
    }
    if AtOrBelow(m, y, a) {
      var n: nat :| Climb(m, y, n) == Some(a);
      assert Climb(s.tree.frames, y, n) == Some(a);
    }
    if AtOrBelow(s.tree.frames, y, a) {
      var n: nat :| Climb(s.tree.frames, y, n) == Some(a);
      assert Climb(m, y, n) == Some(a);
    }
  }

  lemma BlockParent(s: Desk, k: Sid, y: Id)
    requires k in Holding(s) && y in Block(s, k) && Block(s, k)[y].parent.Some?
    ensures Block(s, k)[y].parent.value in Ids(HeldTree(s, k)) || Block(s, k)[y].parent.value == Under(s, k)
  {
    BlockParents(HeldTree(s, k), HeldTree(s, k).parentId, Some(k), y);
  }

  // The frame above a brought one was brought too, or is what a placed tree hangs
  // under.
  lemma BroughtParent(s: Desk, m: FrameMap, placed: set<Sid>, y: Id) returns (j: Sid)
    requires placed <= Holding(s) && Framed(s, m, placed) && Brought(s, placed, y)
    requires y in m && m[y].parent.Some?
    ensures j in placed && Root(s, j) != ""
    ensures Brought(s, placed, m[y].parent.value) || m[y].parent.value == Under(s, j)
  {
    j :| j in placed && y in Ids(HeldTree(s, j));
    assert Root(s, j) != "";
    hide Ids, Parse, Block;
    assert FromBlock(s, m, j, y);
    BlockParent(s, j, y);
  }

  // A climb out of the frames that were brought leaves them at the frame some
  // placed tree hangs under.
  lemma {:induction false} BroughtClimbs(s: Desk, m: FrameMap, placed: set<Sid>, y: Id, n: nat, a: Id) returns (j: Sid)
    requires placed <= Holding(s) && Framed(s, m, placed) && IsForest(s.tree.frames) && IsForest(m)
    requires Brought(s, placed, y) && !Brought(s, placed, a) && Climb(m, y, n) == Some(a)
    ensures j in placed && IsHung(s, j) && AtOrBelow(s.tree.frames, Under(s, j), a)
    decreases n
  {
    hide Framed, Brought, HeldTree, Covers;
    assert n > 0;
    j := BroughtParent(s, m, placed, y);
    var q := m[y].parent.value;
    MappedParent(m, y);
    if Brought(s, placed, q) {
      j := BroughtClimbs(s, m, placed, q, n - 1, a);
    } else {
      InFrame(s, m, placed, q);
      assert AtOrBelow(m, q, a);
      SurvivorBelow(s, m, placed, q, a);
    }
  }

  lemma MappedParent(m: FrameMap, y: Id)
    requires IsForest(m) && y in m && m[y].parent.Some?
    ensures m[y].parent.value in m
  {
    assert Placed(m, Depths(m), y);
  }

  // The tree of k is hung clear of every tree placed so far.
  ghost predicate Fits(s: Desk, placed: set<Sid>, k: Sid)
    requires placed <= Holding(s)
  {
    k in Holding(s) && forall j :: j in placed && IsHung(s, j) ==> !Covers(s, k, Under(s, j))
  }

  // What the tree of k would replace now is what it would have replaced before.
  lemma Replaced(s: Desk, m: FrameMap, placed: set<Sid>, k: Sid, y: Id)
    requires Separate(s) && placed <= Holding(s) && Framed(s, m, placed)
    requires IsForest(s.tree.frames) && IsForest(m) && k !in placed && Fits(s, placed, k) && Root(s, k) != ""
    requires y in m
    ensures AtOrBelow(m, y, Root(s, k)) <==> Survives(s, placed, y) && Covers(s, k, y)
  {
    hide Framed, Separate;
    var x := Root(s, k);
    NotBrought(s, placed, k, x);
    if Survives(s, placed, y) {
      SurvivorBelow(s, m, placed, y, x);
    } else if AtOrBelow(m, y, x) {
      assert Brought(s, placed, y) by { assert Came(s, placed, y) by { InFrame(s, m, placed, y); } }
      var n: nat :| Climb(m, y, n) == Some(x);
      var j := BroughtClimbs(s, m, placed, y, n, x);
      assert false;
    }
  }

  lemma InFrame(s: Desk, m: FrameMap, placed: set<Sid>, y: Id)
    requires placed <= Holding(s) && Framed(s, m, placed)
    ensures y in m <==> Came(s, placed, y)
  {
  }

  // No other tree brings an id of the tree of k.
  lemma NotBrought(s: Desk, placed: set<Sid>, k: Sid, y: Id)
    requires Separate(s) && placed <= Holding(s) && k in Holding(s) && k !in placed
    requires y in Ids(HeldTree(s, k)) || (y == Root(s, k) && y != "")
    ensures !Brought(s, placed, y) && y in Ids(HeldTree(s, k))
  {
    assert y in Ids(HeldTree(s, k));
    hide Ids;
  }

  // The splice of a tree still held is a sane one.
  lemma SpliceFits(s: Desk, m: FrameMap, placed: set<Sid>, k: Sid)
    requires Separate(s) && placed <= Holding(s) && Framed(s, m, placed)
    requires IsForest(s.tree.frames) && IsForest(m) && k !in placed && Fits(s, placed, k)
    requires CanSplice(m, HeldTree(s, k))
    ensures Distinct(Ids(HeldTree(s, k))) && BringsFreshIds(m, HeldTree(s, k))
    ensures !AtOrBelow(m, Under(s, k), Root(s, k))
  {
    hide Framed;
    var t := HeldTree(s, k);
    forall y | y in Ids(t) && y in m ensures AtOrBelow(m, y, t.Name()) {
      NotBrought(s, placed, k, y);
      InFrame(s, m, placed, y);
      Replaced(s, m, placed, k, y);
    }
    Replaced(s, m, placed, k, Under(s, k));
  }

  lemma PlaceOne(s: Desk, s': Desk, placed: set<Sid>, k: Sid, matches: Matcher)
    requires Separate(s) && Consistent(s.tree) && Built(s, s', placed) && Consistent(s'.tree)
    requires k in Holding(s') && Fits(s, placed, k) && CanSplice(s'.tree.frames, HeldTree(s', k))
    ensures Built(s, Tried(s', k, matches), placed + {k})
    ensures Sane(s'.tree, Spliced(HeldTree(s', k), k))
    ensures Consistent(Tried(s', k, matches).tree)
  {
    hide Separate, Framed, Fits;
    var t := HeldTree(s', k);
    assert t == HeldTree(s, k);
    SpliceFits(s, s'.tree.frames, placed, k);
    assert Sane(s'.tree, Spliced(t, k));
    FrameLaws.StepKeepsTree(s'.tree, Spliced(t, k), matches);
    PlacedView(s, s', placed, k, matches);
  }

  lemma PlacedView(s: Desk, s': Desk, placed: set<Sid>, k: Sid, matches: Matcher)
    requires Separate(s) && Consistent(s.tree) && Built(s, s', placed) && Consistent(s'.tree)
    requires k in Holding(s') && k in Holding(s) && CanSplice(s'.tree.frames, HeldTree(s', k))
    requires HeldTree(s', k) == HeldTree(s, k) && Fits(s, placed, k)
    requires BringsFreshIds(s'.tree.frames, HeldTree(s, k))
    requires !AtOrBelow(s'.tree.frames, Under(s, k), Root(s, k))
    ensures Built(s, Tried(s', k, matches), placed + {k})
  {
    hide Ids, Splice, Parse, Separate, Apply, Framed, Fits, BringsFreshIds;
    var r := Tried(s', k, matches);
    SplicedFrames(s'.tree, HeldTree(s, k), k, matches);
    assert r.sessions == Emptied(s.sessions, placed + {k});
    FramedMore(s, s'.tree.frames, placed, k);
  }

  lemma SplicedFrames(s: State, t: FrameTree, k: Sid, matches: Matcher)
    requires CanSplice(s.frames, t)
    ensures Apply(s, Spliced(t, k), matches).frames == Splice(s.frames, t, k)
  {
  }

  // The map one splice later: what the tree replaces is gone, its frames are new,
  // and the rest has kept its place.
  lemma SpliceView(m: FrameMap, d: map<Id, nat>, t: FrameTree, k: Sid)
    requires DepthMap(m, d) && CanSplice(m, t)
    requires BringsFreshIds(m, t) && !AtOrBelow(m, t.parentId.value, t.Name())
    ensures var r, b := Splice(m, t, k), Parse(map[], t, t.parentId, Some(k));
            && b.Keys == Elems(Ids(t))
            && (forall y :: y in r <==> y in b || (y in m && !AtOrBelow(m, y, t.Name())))
            && (forall y :: y in b ==> r[y] == b[y])
            && (forall y :: y in m && !AtOrBelow(m, y, t.Name()) ==> y !in b && SameSpot(r[y], m[y]))
  {
    hide Splice, Parse, Ids, BringsFreshIds, Drop, Graft, AtOrBelow, DepthMap;
    SpliceIsGraft(m, d, t, k);
    ParseAdds(map[], t, t.parentId, Some(k));
    DropView(m, d, t.Name());
    GraftView(Drop(m, t.Name()), t.parentId.value, Parse(map[], t, t.parentId, Some(k)), t.Name());
  }

  lemma DropView(m: FrameMap, d: map<Id, nat>, x: Id)
    requires DepthMap(m, d)
    ensures forall y :: y in Drop(m, x) <==> y in m && !AtOrBelow(m, y, x)
    ensures forall y :: y in Drop(m, x) ==> SameSpot(Drop(m, x)[y], m[y])
  {
    hide DepthMap;
    forall y | y in m ensures y in Drop(m, x) <==> !AtOrBelow(m, y, x) {
      SubtreeGone(m, d, x, y);
    }
  }

  lemma GraftView(m: FrameMap, p: Id, b: FrameMap, x: Id)
    requires p in m && m.Keys !! b.Keys
    ensures var r := Graft(m, p, b, [x]);
            && r.Keys == m.Keys + b.Keys
            && (forall y :: y in b ==> r[y] == b[y])
            && forall y :: y in m ==> SameSpot(r[y], m[y])
  {
  }

  lemma FramedMore(s: Desk, m: FrameMap, placed: set<Sid>, k: Sid)
    requires Separate(s) && placed <= Holding(s) && Framed(s, m, placed)
    requires IsForest(s.tree.frames) && IsForest(m) && k in Holding(s) && k !in placed && Fits(s, placed, k)
    requires CanSplice(m, HeldTree(s, k)) && BringsFreshIds(m, HeldTree(s, k))
    requires !AtOrBelow(m, Under(s, k), Root(s, k))
    ensures Framed(s, Splice(m, HeldTree(s, k), k), placed + {k})
  {
    hide Ids, Parse, Splice, Separate, Framed, Fits, BringsFreshIds, AtOrBelow, Covers, Brought;
    var t, r := HeldTree(s, k), Splice(m, HeldTree(s, k), k);
    SpliceView(m, Depths(m), t, k);
    forall y ensures y in r <==> Came(s, placed + {k}, y) {
      CameMore(s, placed, k, y);
      InFrame(s, m, placed, y);
      if y in m { Replaced(s, m, placed, k, y); }
      if Brought(s, placed, y) { NeitherSurvives(s, placed, y); }
    }
    forall y | Survives(s, placed + {k}, y) ensures y in r && SameSpot(r[y], s.tree.frames[y]) {
      CameMore(s, placed, k, y);
      InFrame(s, m, placed, y);
      Replaced(s, m, placed, k, y);
      KeptSpot(s, m, placed, y);
    }
    forall j, y | j in placed + {k} && y in Ids(HeldTree(s, j)) ensures FromBlock(s, r, j, y) {
      if j != k {
        BlockSpot(s, m, placed, j, y);
        Replaced(s, m, placed, k, y);
        NeitherSurvives(s, placed, y);
      }
    }
    Reframed(s, r, placed + {k});
  }

  lemma Reframed(s: Desk, r: FrameMap, placed: set<Sid>)
    requires placed <= Holding(s)
    requires forall y :: y in r <==> Came(s, placed, y)
    requires forall y :: Survives(s, placed, y) ==> y in r && SameSpot(r[y], s.tree.frames[y])
    requires forall j, y :: j in placed && y in Ids(HeldTree(s, j)) ==> FromBlock(s, r, j, y)
    ensures Framed(s, r, placed)
  {
  }

  lemma KeptSpot(s: Desk, m: FrameMap, placed: set<Sid>, y: Id)
    requires placed <= Holding(s) && Framed(s, m, placed) && Survives(s, placed, y)
    ensures SameSpot(m[y], s.tree.frames[y])
  {
  }

  lemma BlockSpot(s: Desk, m: FrameMap, placed: set<Sid>, j: Sid, y: Id)
    requires placed <= Holding(s) && Framed(s, m, placed) && j in placed && y in Ids(HeldTree(s, j))
    ensures Brought(s, placed, y) && FromBlock(s, m, j, y)
  {
  }

  // What a placed tree brought has replaced what the map held under its id.
  lemma NeitherSurvives(s: Desk, placed: set<Sid>, y: Id)
    requires Separate(s) && placed <= Holding(s) && Brought(s, placed, y)
    ensures !Survives(s, placed, y)
  {
    hide Ids;
  }

  lemma CameMore(s: Desk, placed: set<Sid>, k: Sid, y: Id)
    requires placed <= Holding(s) && k in Holding(s)
    ensures Survives(s, placed + {k}, y) <==> Survives(s, placed, y) && !Covers(s, k, y)
    ensures Brought(s, placed + {k}, y) <==> Brought(s, placed, y) || y in Ids(HeldTree(s, k))
  {
    hide Ids, Covers;
    if Brought(s, placed, y) {
      var j :| j in placed && y in Ids(HeldTree(s, j));
      assert j in placed + {k};
    }
    if y in Ids(HeldTree(s, k)) {
      assert k in placed + {k};
    }
    if Survives(s, placed + {k}, y) {
      assert k in placed + {k};
    }
  }

  // ------------------------------------------------------------- over passes

  // Where the trees are apart, each of them fits whenever it is placed.
  lemma ApartFits(s: Desk, placed: set<Sid>, k: Sid)
    requires Apart(s) && placed <= Holding(s) && k in Holding(s) && k !in placed
    ensures Fits(s, placed, k)
  {
  }

  // Where they are apart, the parent of a held tree stays when other trees are
  // placed, so a tree that is supplied can be spliced.
  lemma SuppliedIff(s: Desk, s': Desk, placed: set<Sid>, k: Sid)
    requires Separate(s) && Apart(s) && Built(s, s', placed) && k in Holding(s')
    ensures k in Holding(s) && k !in placed && HeldTree(s', k) == HeldTree(s, k)
    ensures CanSplice(s'.tree.frames, HeldTree(s', k)) <==> Supplied(s, placed, k)
  {
    hide Ids;
    var p := Under(s, k);
    assert p in s'.tree.frames <==> Came(s, placed, p);
  }

  lemma {:induction false} PassBuilds(s: Desk, s': Desk, placed: set<Sid>, todo: seq<Sid>, bound: set<Sid>,
                                      matches: Matcher)
    returns (more: set<Sid>)
    requires Separate(s) && Apart(s) && Consistent(s.tree) && Built(s, s', placed) && Consistent(s'.tree)
    requires placed <= bound <= Holding(s) && Closed(s, bound)
    ensures Built(s, Pass(s', todo, matches), more) && Consistent(Pass(s', todo, matches).tree)
    ensures SanePass(s', todo, matches)
    ensures more <= bound
    decreases |todo|
  {
    more := placed;
    if todo != [] {
      hide Separate, Apart, Built, Closed, Consistent, Sane, Tried, Exhausted;
      var next := placed;
      if todo[0] in Holding(s') && CanSplice(s'.tree.frames, HeldTree(s', todo[0])) {
        SuppliedIff(s, s', placed, todo[0]);
        ApartFits(s, placed, todo[0]);
        PlaceOne(s, s', placed, todo[0], matches);
        InBound(s, placed, todo[0], bound);
        next := placed + {todo[0]};
      } else {
        TriedNothing(s', todo[0], matches);
      }
      more := PassBuilds(s, Tried(s', todo[0], matches), next, todo[1..], bound, matches);
    }
  }

  lemma TriedNothing(s: Desk, k: Sid, matches: Matcher)
    requires !(k in Holding(s) && CanSplice(s.tree.frames, HeldTree(s, k)))
    ensures Tried(s, k, matches) == s && SaneHeld(s, k)
  {
  }

  // Whatever can be placed now belongs to every closed set that covers what was
  // placed before.
  lemma InBound(s: Desk, placed: set<Sid>, k: Sid, bound: set<Sid>)
    requires placed <= bound <= Holding(s) && Closed(s, bound) && k in Holding(s) && Supplied(s, placed, k)
    ensures k in bound
  {
    hide Ids;
    var p := Under(s, k);
    if Brought(s, placed, p) {
      var j :| j in placed && p in Ids(HeldTree(s, j));
      assert j in bound;
    }
    assert Supplied(s, bound, k);
  }

  lemma {:induction false} ResplicedBuilds(s: Desk, s': Desk, placed: set<Sid>, bound: set<Sid>, matches: Matcher)
    returns (more: set<Sid>)
    requires Separate(s) && Apart(s) && Consistent(s.tree) && Built(s, s', placed) && Consistent(s'.tree)
    requires placed <= bound <= Holding(s) && Closed(s, bound)
    ensures Built(s, Respliced(s', matches), more) && Consistent(Respliced(s', matches).tree)
    ensures SanePasses(s', matches)
    ensures more <= bound
    decreases Holding(s')
  {
    hide Separate, Apart, Built, Closed, Consistent, Pass, SanePass;
    more := PassBuilds(s, s', placed, s'.order, bound, matches);
    if Pass(s', s'.order, matches) != s' {
      more := ResplicedBuilds(s, Pass(s', s'.order, matches), more, bound, matches);
    }
  }

  lemma AllIsClosed(s: Desk)
    ensures Closed(s, Holding(s))
  {
  }

  // Where the passes end, what was placed is closed.
  lemma ExhaustedIsClosed(s: Desk, r: Desk, placed: set<Sid>)
    requires Separate(s) && Apart(s) && Built(s, r, placed) && Exhausted(r)
    ensures Closed(s, placed)
  {
    hide Ids, Separate, Apart, Framed, Supplied;
    forall k | k in Holding(s) && k !in placed ensures !Supplied(s, placed, k) {
      assert k in Holding(r);
      SuppliedIff(s, r, placed, k);
      assert !CanSplice(r.tree.frames, HeldTree(r, k));
    }
  }

  // The trees placed are the least closed set: each tree whose parent is mapped,
  // or comes with a tree placed, and no other. The frames are the old ones no tree
  // replaced and theirs, each under the parent its tree names; the whole is still
  // one tree.
  lemma RespliceOutcome(s: Desk, matches: Matcher)
    requires Separate(s) && Apart(s) && Consistent(s.tree) && Elems(s.order) == s.sessions.Keys
    ensures var r := Respliced(s, matches);
            var placed := Holding(s) - Holding(r);
            && Consistent(r.tree)
            && Exhausted(r)
            && Built(s, r, placed)
            && Closed(s, placed)
            && forall bound :: bound <= Holding(s) && Closed(s, bound) ==> placed <= bound
  {
    hide Separate, Apart, Consistent, Closed, Exhausted, Framed;
    var r := Respliced(s, matches);
    var placed := Holding(s) - Holding(r);
    BuiltNothing(s);
    AllIsClosed(s);
    var p := ResplicedBuilds(s, s, {}, Holding(s), matches);
    assert p == placed;
    ResplicedIsExhausted(s, matches);
    ExhaustedIsClosed(s, r, placed);
    forall bound | bound <= Holding(s) && Closed(s, bound) ensures placed <= bound {
      var q := ResplicedBuilds(s, s, {}, bound, matches);
      assert q == placed;
    }
  }

  // ------------------------------------------------------------- other orders

  // The same trees placed, the same frames, the same parents.
  ghost predicate SameOutcome(r: Desk, r': Desk) {
    && r'.sessions == r.sessions
    && r'.tree.frames.Keys == r.tree.frames.Keys
    && forall x :: x in r.tree.frames ==> SameSpot(r'.tree.frames[x], r.tree.frames[x])
  }

  // While no held tree hangs under a frame that another one replaces, the order in
  // which the sessions are visited does not matter.
  lemma OrderDoesNotMatter(s: Desk, order: seq<Sid>, matches: Matcher)
    requires Separate(s) && Apart(s) && Consistent(s.tree)
    requires Elems(s.order) == s.sessions.Keys && Elems(order) == s.sessions.Keys
    ensures SameOutcome(Respliced(s, matches), Respliced(s.(order := order), matches))
  {
    hide Separate, Apart, Consistent, Closed, Exhausted, Built, Respliced, SameSpot;
    var s' := s.(order := order);
    RespliceOutcome(s, matches);
    SeparateFree(s, order);
    RespliceOutcome(s', matches);
    var r, r' := Respliced(s, matches), Respliced(s', matches);
    var a, b := Holding(s) - Holding(r), Holding(s') - Holding(r');
    ClosedFree(s, order, a);
    ClosedFree(s, order, b);
    assert a <= b;
    assert b <= a;
    assert a == b;
    BuiltAlike(s, order, r, r', a);
  }

  lemma SeparateFree(s: Desk, order: seq<Sid>)
    ensures Holding(s.(order := order)) == Holding(s)
    ensures Separate(s) ==> Separate(s.(order := order))
    ensures Apart(s) ==> Apart(s.(order := order))
  {
    hide Ids, AtOrBelow, BringsFreshIds;
    var s' := s.(order := order);
    assert forall k :: k in Holding(s) ==> HeldTree(s', k) == HeldTree(s, k);
    assert forall j, x :: j in Holding(s) ==> (Covers(s', j, x) <==> Covers(s, j, x));
    assert forall k :: k in Holding(s) ==> Under(s', k) == Under(s, k);
  }

  lemma ViewFree(s: Desk, order: seq<Sid>, placed: set<Sid>, x: Id)
    requires placed <= Holding(s)
    ensures placed <= Holding(s.(order := order))
    ensures Brought(s.(order := order), placed, x) <==> Brought(s, placed, x)
    ensures Survives(s.(order := order), placed, x) <==> Survives(s, placed, x)
  {
    hide Ids, AtOrBelow;
    var s' := s.(order := order);
    assert forall k :: k in Holding(s) ==> HeldTree(s', k) == HeldTree(s, k);
    assert forall j :: j in Holding(s) ==> (Covers(s', j, x) <==> Covers(s, j, x));
  }

  lemma ClosedFree(s: Desk, order: seq<Sid>, placed: set<Sid>)
    requires placed <= Holding(s)
    ensures Holding(s.(order := order)) == Holding(s)
    ensures Closed(s.(order := order), placed) <==> Closed(s, placed)
  {
    hide Ids, Brought;
    var s' := s.(order := order);
    forall k | k in Holding(s) ensures Supplied(s', placed, k) <==> Supplied(s, placed, k) {
      ViewFree(s, order, placed, Under(s, k));
    }
  }

  lemma BuiltAlike(s: Desk, order: seq<Sid>, r: Desk, r': Desk, placed: set<Sid>)
    requires Built(s, r, placed) && Built(s.(order := order), r', placed)
    ensures SameOutcome(r, r')
  {
    hide Ids, Parse, Survives;
    var s' := s.(order := order);
    assert forall k :: k in Holding(s) ==> HeldTree(s', k) == HeldTree(s, k);
    forall x ensures x in r'.tree.frames <==> x in r.tree.frames {
      ViewFree(s, order, placed, x);
    }
    forall x | x in r.tree.frames ensures SameSpot(r'.tree.frames[x], r.tree.frames[x]) {
      ViewFree(s, order, placed, x);
      if !Survives(s, placed, x) {
        var k :| k in placed && x in Ids(HeldTree(s, k));
        assert FromBlock(s, r.tree.frames, k, x);
        assert x in Ids(HeldTree(s', k));
        assert FromBlock(s', r'.tree.frames, k, x) && Block(s', k) == Block(s, k);
      }
    }
  }

  // ------------------------------------------------- where the order does matter

  lemma {:induction false} ExhaustedPass(s: Desk, todo: seq<Sid>, matches: Matcher)
    requires Exhausted(s)
    ensures Pass(s, todo, matches) == s
    decreases |todo|
  {
    if todo == [] {
      assert Pass(s, todo, matches) == s;
    } else {
      hide CanSplice, Exhausted, Apply;
      ExhaustedTry(s, todo[0], matches);
      ExhaustedPass(s, todo[1..], matches);
    }
  }

  lemma ExhaustedTry(s: Desk, k: Sid, matches: Matcher)
    requires Exhausted(s)
    ensures Tried(s, k, matches) == s
  {
  }

  // With two trees held and the first of them in place to be spliced, one turn of
  // each is all there is.
  lemma TwoTurns(s: Desk, j: Sid, k: Sid, rest: seq<Sid>, matches: Matcher)
    requires j != k && Holding(s) == {j, k} && s.order == [j, k] + rest
    requires CanSplice(s.tree.frames, HeldTree(s, j))
    ensures Respliced(s, matches) == Tried(Tried(s, j, matches), k, matches)
  {
    hide CanSplice, Apply;
    var u := Tried(s, j, matches);
    var r := Tried(u, k, matches);
    assert Holding(u) == {k};
    forall i | i in r.sessions && r.sessions[i].held.Some? ensures !CanSplice(r.tree.frames, r.sessions[i].held.value) {
      assert i in Holding(r) && i == k;
      assert !CanSplice(u.tree.frames, u.sessions[k].held.value);
    }
    assert Exhausted(r);
    assert s.order[1..] == [k] + rest && ([k] + rest)[1..] == rest;
    assert Pass(s, s.order, matches) == Pass(u, [k] + rest, matches) == Pass(r, rest, matches);
    ExhaustedPass(r, rest, matches);
    ExhaustedPass(r, r.order, matches);
    assert Holding(r) != Holding(s);
  }

  lemma SpliceHolds(m: FrameMap, t: FrameTree, k: Sid, y: Id)
    requires CanSplice(m, t)
    ensures y in Splice(m, t, k) <==> y in Ids(t) || y in Drop(m, t.Name())
  {
    hide Parse, Ids, Drop;
    ParseAdds(Drop(m, t.Name()), t, t.parentId, Some(k));
  }

  lemma RootHangs(t: FrameTree, k: Sid)
    requires Distinct(Ids(t)) && t.Name() != ""
    ensures var b := Parse(map[], t, t.parentId, Some(k)); t.Name() in b && b[t.Name()].parent == t.parentId
  {
    ParseSplit(t, t.parentId, Some(k));
    IdsSplit(t);
    assert t.Name() !in RowIds(t.childFrames) by {
      DistinctParts([t.Name()], RowIds(t.childFrames));
      assert t.Name() in [t.Name()];
    }
  }

  // The tree of k placed first, and then the one that replaces the frame it hangs
  // under: it goes with that frame.
  lemma LaterTakesAll(s: Desk, j: Sid, k: Sid, v: Desk)
    requires Separate(s) && Consistent(s.tree) && j in Holding(s) && k in Holding(s) && j != k
    requires CanSplice(s.tree.frames, HeldTree(s, k)) && Covers(s, j, Under(s, k)) && Root(s, j) != ""
    requires Built(s, v, {k}) && v.tree.frames == Splice(s.tree.frames, HeldTree(s, k), k)
    requires CanSplice(v.tree.frames, HeldTree(s, j))
    ensures Root(s, k) !in Splice(v.tree.frames, HeldTree(s, j), j)
  {
    hide Separate, Framed, Splice, Ids, Parse, CanSplice;
    var m, x, p := s.tree.frames, Root(s, k), Under(s, k);
    Owed(s, k);
    SpliceView(m, Depths(m), HeldTree(s, k), k);
    RootHangs(HeldTree(s, k), k);
    assert v.tree.frames[x].parent == Some(p);
    assert Survives(s, {k}, p);
    SurvivorBelow(s, v.tree.frames, {k}, p, Root(s, j));
    assert Below(v.tree.frames, x, Root(s, j));
    NotBrought(s, {j}, k, x);
    assert j in {j};
    SpliceHolds(v.tree.frames, HeldTree(s, j), j, x);
  }

  // What is owed of one held tree.
  lemma Owed(s: Desk, k: Sid)
    requires Separate(s) && k in Holding(s) && CanSplice(s.tree.frames, HeldTree(s, k))
    ensures var t := HeldTree(s, k);
            && Distinct(Ids(t)) && BringsFreshIds(s.tree.frames, t) && HeldTree(s, k).parentId == Some(Under(s, k))
            && Root(s, k) != "" && Under(s, k) in s.tree.frames && !Covers(s, k, Under(s, k))
  {
    hide Ids;
  }

  // Two trees held, and the second hangs under a frame that the first replaces.
  // If the first does not bring that frame again, the second is held for good in
  // one order and not in the other. If it does, the second is there in one order,
  // and in the other it was placed and has gone.
  lemma PairOrderMatters(s: Desk, j: Sid, k: Sid, rest: seq<Sid>, matches: Matcher)
    requires Separate(s) && Consistent(s.tree) && j != k && Holding(s) == {j, k}
    requires CanSplice(s.tree.frames, HeldTree(s, j)) && CanSplice(s.tree.frames, HeldTree(s, k))
    requires Covers(s, j, Under(s, k))
    ensures var a := Respliced(s.(order := [j, k] + rest), matches);
            var b := Respliced(s.(order := [k, j] + rest), matches);
            && k !in Holding(b)
            && (Under(s, k) !in Ids(HeldTree(s, j)) ==> k in Holding(a))
            && (Under(s, k) in Ids(HeldTree(s, j)) ==>
                  && Holding(a) == {} && Root(s, k) in a.tree.frames
                  && (j in Holding(b) || Root(s, k) !in b.tree.frames))
            && (!Covers(s, k, Under(s, j)) ==> Holding(b) == {})
            && !SameOutcome(a, b)
  {
    hide Separate, Covers, Consistent;
    FirstWins(s, j, k, rest, matches);
    LaterGoes(s, j, k, rest, matches);
  }

  lemma FirstWins(s: Desk, j: Sid, k: Sid, rest: seq<Sid>, matches: Matcher)
    requires Separate(s) && Consistent(s.tree) && j != k && Holding(s) == {j, k}
    requires CanSplice(s.tree.frames, HeldTree(s, j)) && CanSplice(s.tree.frames, HeldTree(s, k))
    requires Covers(s, j, Under(s, k))
    ensures var a := Respliced(s.(order := [j, k] + rest), matches);
            && (Under(s, k) !in Ids(HeldTree(s, j)) ==> k in Holding(a))
            && (Under(s, k) in Ids(HeldTree(s, j)) ==> Holding(a) == {} && Root(s, k) in a.tree.frames)
  {
    hide Separate, Splice, Ids, Parse, Apply;
    var sa := s.(order := [j, k] + rest);
    assert Holding(sa) == Holding(s) && HeldTree(sa, j) == HeldTree(s, j) && HeldTree(sa, k) == HeldTree(s, k);
    TwoTurns(sa, j, k, rest, matches);
    var u := Tried(sa, j, matches);
    Owed(s, j);
    SplicedFrames(s.tree, HeldTree(s, j), j, matches);
    SpliceView(s.tree.frames, Depths(s.tree.frames), HeldTree(s, j), j);
    assert Under(s, k) in u.tree.frames <==> Under(s, k) in Ids(HeldTree(s, j));
    assert HeldTree(u, k) == HeldTree(s, k);
    if Under(s, k) in Ids(HeldTree(s, j)) {
      SplicedFrames(u.tree, HeldTree(s, k), k, matches);
      SpliceHolds(u.tree.frames, HeldTree(s, k), k, Root(s, k));
      NamesItself(HeldTree(s, k));
    }
  }

  lemma NamesItself(t: FrameTree)
    requires t.Name() != ""
    ensures t.Name() in Ids(t)
  {
  }

  lemma LaterGoes(s: Desk, j: Sid, k: Sid, rest: seq<Sid>, matches: Matcher)
    requires Separate(s) && Consistent(s.tree) && j != k && Holding(s) == {j, k}
    requires CanSplice(s.tree.frames, HeldTree(s, j)) && CanSplice(s.tree.frames, HeldTree(s, k))
    requires Covers(s, j, Under(s, k))
    ensures var b := Respliced(s.(order := [k, j] + rest), matches);
            && k !in Holding(b)
            && (j in Holding(b) || Root(s, k) !in b.tree.frames)
            && (!Covers(s, k, Under(s, j)) ==> Holding(b) == {})
  {
    hide Separate, Splice, Ids, Parse, Apply, Consistent, Framed, Covers;
    var sb := s.(order := [k, j] + rest);
    assert Holding(sb) == Holding(s) && HeldTree(sb, j) == HeldTree(s, j) && HeldTree(sb, k) == HeldTree(s, k);
    TwoTurns(sb, k, j, rest, matches);
    var v := Tried(s, k, matches);
    assert Tried(sb, k, matches) == v.(order := sb.order);
    BuiltNothing(s);
    PlaceOne(s, s, {}, k, matches);
    assert {} + {k} == {k};
    SplicedFrames(s.tree, HeldTree(s, k), k, matches);
    assert HeldTree(v, j) == HeldTree(s, j);
    if CanSplice(v.tree.frames, HeldTree(s, j)) {
      SplicedFrames(v.tree, HeldTree(s, j), j, matches);
      LaterTakesAll(s, j, k, v);
    } else {
      Owed(s, j);
      InFrame(s, v.tree.frames, {k}, Under(s, j));
    }
  }

  // s with only the trees of kept still held.
  function Only(s: Desk, kept: set<Sid>): Desk {
    s.(sessions := map k | k in s.sessions :: if k in kept then s.sessions[k] else s.sessions[k].(held := None))
  }

  // Where the passes end with those trees held and the sessions in that order.
  ghost function Ends(s: Desk, kept: set<Sid>, order: seq<Sid>, matches: Matcher): Desk {
    Respliced(Only(s, kept).(order := order), matches)
  }

  ghost predicate OrderFree(s: Desk, matches: Matcher) {
    forall kept: set<Sid>, order, order' :: Elems(order) == s.sessions.Keys && Elems(order') == s.sessions.Keys ==>
      SameOutcome(Ends(s, kept, order, matches), Ends(s, kept, order', matches))
  }

  lemma OnlyKeeps(s: Desk, kept: set<Sid>)
    ensures var u := Only(s, kept);
            && u.sessions.Keys == s.sessions.Keys && Holding(u) == Holding(s) * kept
            && forall k :: k in Holding(u) ==> HeldTree(u, k) == HeldTree(s, k)
    ensures Separate(s) ==> Separate(Only(s, kept))
    ensures Apart(s) ==> Apart(Only(s, kept))
  {
    hide Ids, AtOrBelow, BringsFreshIds;
    var u := Only(s, kept);
    assert forall k :: k in Holding(u) ==> k in Holding(s) && HeldTree(u, k) == HeldTree(s, k);
    assert forall j, x :: j in Holding(u) ==> (Covers(u, j, x) <==> Covers(s, j, x));
  }

  // Parents mapped or not: whichever of the trees are held, every order ends alike,
  // exactly when none hangs under a frame that another one replaces. A tree whose
  // placeholder is mapped names a mapped parent, as the placeholder itself has one.
  lemma OrderMattersIff(s: Desk, matches: Matcher)
    requires Separate(s) && Consistent(s.tree) && Elems(s.order) == s.sessions.Keys
    requires forall k :: k in Holding(s) && Root(s, k) in s.tree.frames ==> Under(s, k) in s.tree.frames
    ensures OrderFree(s, matches) <==> Apart(s)
  {
    hide Separate, SameOutcome, CanSplice, Respliced, Covers;
    if Apart(s) {
      forall kept: set<Sid>, order, order' | Elems(order) == s.sessions.Keys && Elems(order') == s.sessions.Keys
        ensures SameOutcome(Ends(s, kept, order, matches), Ends(s, kept, order', matches))
      {
        OnlyKeeps(s, kept);
        var u := Only(s, kept);
        SeparateFree(u, order);
        OrderDoesNotMatter(u.(order := order), order', matches);
      }
    } else {
      var j, k :| j in Holding(s) && k in Holding(s) && j != k && IsHung(s, k) && Covers(s, j, Under(s, k));
      CoverIsMapped(s, j, Under(s, k));
      HungSplices(s, j);
      HungSplices(s, k);
      PairDiffers(s, j, k, matches);
    }
  }

  lemma CoverIsMapped(s: Desk, j: Sid, x: Id)
    requires Consistent(s.tree) && j in Holding(s) && x in s.tree.frames && Covers(s, j, x)
    ensures Root(s, j) in s.tree.frames && Root(s, j) != ""
  {
    var m := s.tree.frames;
    var n: nat :| Climb(m, x, n) == Some(Root(s, j));
    ClimbDepth(m, Depths(m), x, n);
  }

  lemma HungSplices(s: Desk, k: Sid)
    requires Consistent(s.tree) && k in Holding(s) && IsHung(s, k)
    ensures CanSplice(s.tree.frames, HeldTree(s, k))
  {
  }

  lemma PairDiffers(s: Desk, j: Sid, k: Sid, matches: Matcher)
    requires Separate(s) && Consistent(s.tree) && Elems(s.order) == s.sessions.Keys
    requires j in Holding(s) && k in Holding(s) && j != k && Covers(s, j, Under(s, k))
    requires CanSplice(s.tree.frames, HeldTree(s, j)) && CanSplice(s.tree.frames, HeldTree(s, k))
    ensures !OrderFree(s, matches)
  {
    hide Separate, Consistent, SameOutcome, CanSplice, Respliced, Apart;
    var u := Only(s, {j, k});
    OnlyKeeps(s, {j, k});
    assert Holding(u) == {j, k};
    PairOrderMatters(u, j, k, s.order, matches);
    var one, two := [j, k] + s.order, [k, j] + s.order;
    assert Elems(one) == s.sessions.Keys && Elems(two) == s.sessions.Keys;
    assert !SameOutcome(Ends(s, {j, k}, one, matches), Ends(s, {j, k}, two, matches));
  }

  // The smallest case: a root with one placeholder below it, that placeholder's own
  // tree held, and another tree held that hangs under it.
  function Placeholder(): Desk {
    var f := Frame("", "", None, None);
    var t1, t2 := FrameTree(Some("c1"), Some("r"), "", "", []), FrameTree(Some("c2"), Some("c1"), "", "", []);
    Desk(State(map["r" := Node(None, ["c1"], f), "c1" := Node(Some("r"), [], f)], Some("r"), None, None, map[]),
         map["1" := Session(0, "c1", "", Some(t1), false), "2" := Session(1, "c2", "", Some(t2), false)],
         ["1", "2"], map[], map[], 2)
  }

  lemma PlaceholderCovers()
    ensures var s := Placeholder();
            && Consistent(s.tree) && Holding(s) == {"1", "2"}
            && Covers(s, "1", "c1") && !Covers(s, "1", "r") && !Covers(s, "2", "c1") && !Covers(s, "2", "r")
  {
    var m := Placeholder().tree.frames;
    assert DepthMap(m, map["r" := 0, "c1" := 1]);
    AtOrBelowStep(m, "c1", "c1");
    AtOrBelowStep(m, "r", "c1");
    AtOrBelowStep(m, "r", "c2");
    AtOrBelowStep(m, "c1", "c2");
  }

  lemma PlaceholderIds()
    ensures var s := Placeholder();
            && "1" in Holding(s) && "2" in Holding(s)
            && Ids(HeldTree(s, "1")) == ["c1"] && Ids(HeldTree(s, "2")) == ["c2"]
            && BringsFreshIds(s.tree.frames, HeldTree(s, "1")) && BringsFreshIds(s.tree.frames, HeldTree(s, "2"))
            && Under(s, "1") == "r" && Under(s, "2") == "c1" && "c1" in s.tree.frames && Root(s, "2") == "c2"
  {
    hide AtOrBelow;
    var s := Placeholder();
    AtOrBelowStep(s.tree.frames, "c1", "c1");
  }

  lemma PlaceholderIsSeparate()
    ensures Separate(Placeholder()) && !Apart(Placeholder())
  {
    hide Covers, AtOrBelow, Ids, BringsFreshIds, Consistent, Placeholder, HeldTree, Under;
    PlaceholderCovers();
    PlaceholderIds();
    assert IsHung(Placeholder(), "2") && Covers(Placeholder(), "1", Under(Placeholder(), "2"));
  }

  // In one order it ends with both frames; in the other with nothing held and the
  // second frame gone.
  lemma PlaceholderOrderMatters(matches: Matcher)
    ensures var s := Placeholder();
            var a, b := Respliced(s, matches), Respliced(s.(order := ["2", "1"]), matches);
            && Separate(s) && !Apart(s)
            && Holding(a) == {} && "c2" in a.tree.frames
            && Holding(b) == {} && "c2" !in b.tree.frames
  {
    hide Separate, Apart, Consistent, Covers, Respliced;
    PlaceholderCovers();
    PlaceholderIsSeparate();
    var s := Placeholder();
    assert "c1" in Ids(HeldTree(s, "1"));
    PairOrderMatters(s, "1", "2", [], matches);
    assert ["1", "2"] + [] == ["1", "2"] && ["2", "1"] + [] == ["2", "1"];
    assert s.(order := ["1", "2"]) == s;
  }
}

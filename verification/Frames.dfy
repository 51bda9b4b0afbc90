// The frame tree of one page as a value: what every event does to it, and what
// no run of events can do to it.
module Frames {
  import opened Prelude
  import opened Forest
  import opened Surgery

  type Sid = string

  // What a frame carries besides its place in the tree. The session is the one
  // that answers for the frame, None being the page session.
  datatype Frame = Frame(url: string, loader: string, session: Option<Sid>, context: Option<int>)

  type FrameMap = Links<Frame>

  // One node of a Page.getFrameTree result.
  datatype FrameTree = FrameTree(id: Option<string>, parentId: Option<string>, url: string, loader: string,
                                 childFrames: seq<FrameTree>)
  {
    function Name(): string { id.GetOr("") }
  }

  // A case-insensitive "is the pattern in the URL" test; left open.
  type Matcher = (string, string) -> bool

  datatype State = State(frames: FrameMap, root: Option<Id>, selected: Option<Id>, pattern: Option<string>,
                         contexts: map<(Option<Sid>, int), Id>)

  // ------------------------------------------------------------ parsing a tree

  function KidNames(ts: seq<FrameTree>): seq<Id> {
    if ts == [] then []
    else (if ts[0].Name() == "" then [] else [ts[0].Name()]) + KidNames(ts[1..])
  }

  // The ids a tree stores. A node without an id is skipped with all it holds.
  function Ids(t: FrameTree): seq<Id>
    decreases t, 1
  {
    if t.Name() == "" then [] else [t.Name()] + RowIds(t.childFrames)
  }

  function RowIds(ts: seq<FrameTree>): seq<Id>
    decreases ts, 0
  {
    if ts == [] then [] else Ids(ts[0]) + RowIds(ts[1..])
  }

  // A later node with an id already stored replaces the earlier one.
  function Parse(m: FrameMap, t: FrameTree, parent: Option<Id>, session: Option<Sid>): FrameMap
    decreases t, 1
  {
    if t.Name() == "" then m
    else ParseRow(m[t.Name() := Node(parent, KidNames(t.childFrames), Frame(t.url, t.loader, session, None))],
                  t.childFrames, t.Name(), session)
  }

  function ParseRow(m: FrameMap, ts: seq<FrameTree>, parent: Id, session: Option<Sid>): FrameMap
    decreases ts, 0
  {
    if ts == [] then m
    else ParseRow(Parse(m, ts[0], Some(parent), session), ts[1..], parent, session)
  }

  lemma {:induction false} ParseAdds(m: FrameMap, t: FrameTree, parent: Option<Id>, session: Option<Sid>)
    ensures Parse(m, t, parent, session) == m + Parse(map[], t, parent, session)
    ensures Parse(map[], t, parent, session).Keys == Elems(Ids(t))
    decreases t, 1
  {
    if t.Name() != "" {
      var n := Node(parent, KidNames(t.childFrames), Frame(t.url, t.loader, session, None));
      var one: FrameMap := map[t.Name() := n];
      assert map[][t.Name() := n] == one;
      ParseRowAdds(m[t.Name() := n], t.childFrames, t.Name(), session);
      ParseRowAdds(one, t.childFrames, t.Name(), session);
    }
  }

  lemma {:induction false} ParseRowAdds(m: FrameMap, ts: seq<FrameTree>, parent: Id, session: Option<Sid>)
    ensures ParseRow(m, ts, parent, session) == m + ParseRow(map[], ts, parent, session)
    ensures ParseRow(map[], ts, parent, session).Keys == Elems(RowIds(ts))
    decreases ts, 0
  {
    if ts != [] {
      var first := Parse(map[], ts[0], Some(parent), session);
      ParseAdds(m, ts[0], Some(parent), session);
      ParseRowAdds(m + first, ts[1..], parent, session);
      ParseRowAdds(first, ts[1..], parent, session);
    }
  }

  // What a parsed node names as its parent: the parent of the row, which lists it,
  // or a node of the row.
  lemma {:induction false} RowParents(ts: seq<FrameTree>, p: Id, session: Option<Sid>, x: Id)
    requires x in ParseRow(map[], ts, p, session)
    ensures var up := ParseRow(map[], ts, p, session)[x].parent;
            up.Some? && (up.value in RowIds(ts) || (up.value == p && x in KidNames(ts)))
    decreases ts, 0
  {
    var first := Parse(map[], ts[0], Some(p), session);
    ParseAdds(map[], ts[0], Some(p), session);
    ParseRowAdds(first, ts[1..], p, session);
    if x in ParseRow(map[], ts[1..], p, session) {
      RowParents(ts[1..], p, session, x);
    } else {
      BlockParents(ts[0], Some(p), session, x);
    }
  }

  lemma {:induction false} BlockParents(t: FrameTree, parent: Option<Id>, session: Option<Sid>, x: Id)
    requires x in Parse(map[], t, parent, session)
    ensures var up := Parse(map[], t, parent, session)[x].parent;
            (up.Some? && up.value in Ids(t)) || (up == parent && x == t.Name())
    decreases t, 1
  {
    ParseSplit(t, parent, session);
    if x in ParseRow(map[], t.childFrames, t.Name(), session) {
      RowParents(t.childFrames, t.Name(), session, x);
    }
  }

  // A parsed node over its parsed row of children.
  lemma ParseSplit(t: FrameTree, parent: Option<Id>, session: Option<Sid>)
    requires t.Name() != ""
    ensures Parse(map[], t, parent, session) ==
            map[t.Name() := Node(parent, KidNames(t.childFrames), Frame(t.url, t.loader, session, None))]
            + ParseRow(map[], t.childFrames, t.Name(), session)
    ensures ParseRow(map[], t.childFrames, t.Name(), session).Keys == Elems(RowIds(t.childFrames))
  {
    var n := Node(parent, KidNames(t.childFrames), Frame(t.url, t.loader, session, None));
    assert map[][t.Name() := n] == map[t.Name() := n];
    ParseRowAdds(map[t.Name() := n], t.childFrames, t.Name(), session);
  }

  lemma IdsSplit(t: FrameTree)
    requires t.Name() != ""
    ensures Ids(t) == [t.Name()] + RowIds(t.childFrames)
  {
  }

  lemma {:induction false} KidNamesAreIds(ts: seq<FrameTree>)
    ensures forall x :: x in KidNames(ts) ==> x in RowIds(ts) && x != ""
    ensures forall x :: x in RowIds(ts) ==> x != ""
    decreases ts
  {
    if ts != [] {
      KidNamesAreIds(ts[0].childFrames);
      KidNamesAreIds(ts[1..]);
      forall x | x in RowIds(ts) ensures x != "" {
        assert x in Ids(ts[0]) || x in RowIds(ts[1..]);
      }
    }
  }

  // The depth of every stored id, its tree standing at level k.
  ghost function ParsedDepths(t: FrameTree, k: nat): map<Id, nat>
    decreases t, 1
  {
    if t.Name() == "" then map[] else map[t.Name() := k] + RowDepths(t.childFrames, k + 1)
  }

  ghost function RowDepths(ts: seq<FrameTree>, k: nat): map<Id, nat>
    decreases ts, 0
  {
    if ts == [] then map[] else ParsedDepths(ts[0], k) + RowDepths(ts[1..], k)
  }

  lemma DistinctParts<T(!new)>(a: seq<T>, b: seq<T>)
    requires Distinct(a + b)
    ensures Distinct(a) && Distinct(b)
    ensures forall x :: x in a ==> x !in b
  {
    var c := a + b;
    forall i, j | 0 <= i < j < |a| ensures a[i] != a[j] {
      assert c[i] == a[i] && c[j] == a[j];
    }
    forall i, j | 0 <= i < j < |b| ensures b[i] != b[j] {
      assert c[|a| + i] == b[i] && c[|a| + j] == b[j];
    }
    forall i, j | 0 <= i < |a| && 0 <= j < |b| ensures a[i] != b[j] {
      assert c[i] == a[i] && c[|a| + j] == b[j];
    }
  }

  // A reply whose ids are all different parses to one well-formed subtree.
  lemma {:induction false} ParseHangs(t: FrameTree, p: Id, session: Option<Sid>, k: nat)
    requires Distinct(Ids(t)) && p !in Ids(t)
    ensures Hangs(Parse(map[], t, Some(p), session), ParsedDepths(t, k), p, KidNames([t]), k)
    decreases t, 1
  {
    if t.Name() != "" {
      var x := t.Name();
      DistinctParts([x], RowIds(t.childFrames));
      var data := Frame(t.url, t.loader, session, None);
      var one: FrameMap := map[x := Node(Some(p), KidNames(t.childFrames), data)];
      RowHangs(t.childFrames, x, session, k + 1);
      ParseRowAdds(one, t.childFrames, x, session);
      var row := ParseRow(map[], t.childFrames, x, session);
      HangsUnder(row, RowDepths(t.childFrames, k + 1), p, x, KidNames(t.childFrames), k, data);
      assert map[][x := one[x]] == one;
      assert Parse(map[], t, Some(p), session) == one + row;
      assert [t][1..] == [];
      assert KidNames([t]) == [x];
    }
  }

  lemma {:induction false} RowHangs(ts: seq<FrameTree>, p: Id, session: Option<Sid>, k: nat)
    requires Distinct(RowIds(ts)) && p !in RowIds(ts)
    ensures Hangs(ParseRow(map[], ts, p, session), RowDepths(ts, k), p, KidNames(ts), k)
    decreases ts, 0
  {
    if ts == [] {
      assert KidNames(ts) == [];
    } else {
      hide Hangs, Distinct;
      RowIdsHead(ts);
      DistinctParts(Ids(ts[0]), RowIds(ts[1..]));
      ParseHangs(ts[0], p, session, k);
      RowHangs(ts[1..], p, session, k);
      var first := Parse(map[], ts[0], Some(p), session);
      ParseAdds(map[], ts[0], Some(p), session);
      ParseRowAdds(first, ts[1..], p, session);
      KidNamesHead(ts);
      HangsUnion(first, ParsedDepths(ts[0], k), KidNames([ts[0]]),
                 ParseRow(map[], ts[1..], p, session), RowDepths(ts[1..], k), KidNames(ts[1..]), p, k);
    }
  }

  lemma RowIdsHead(ts: seq<FrameTree>)
    requires ts != []
    ensures RowIds(ts) == Ids(ts[0]) + RowIds(ts[1..])
  {
  }

  lemma KidNamesHead(ts: seq<FrameTree>)
    requires ts != []
    ensures KidNames([ts[0]]) + KidNames(ts[1..]) == KidNames(ts)
  {
    assert KidNames([ts[0]][1..]) == [];
  }

  lemma ParseIsTree(t: FrameTree, session: Option<Sid>)
    requires Distinct(Ids(t))
    ensures IsTree(Parse(map[], t, None, session), t.id)
  {
    var x := t.Name();
    if x == "" {
      assert DepthMap(Parse(map[], t, None, session), map[]);
    } else {
      DistinctParts([x], RowIds(t.childFrames));
      var data := Frame(t.url, t.loader, session, None);
      RowHangs(t.childFrames, x, session, 1);
      var row := ParseRow(map[], t.childFrames, x, session);
      var one: FrameMap := map[x := Node(None, KidNames(t.childFrames), data)];
      ParseRowAdds(one, t.childFrames, x, session);
      HangsTop(row, RowDepths(t.childFrames, 1), x, KidNames(t.childFrames), data);
      assert map[][x := one[x]] == one;
    }
  }

  // ------------------------------------------------------------ the events

  datatype Event =
    | TreeRead(tree: FrameTree)
    | Attached(id: Id, parent: Id)
    | Detached(id: Id)
    | Navigated(id: Id, parentId: Option<Id>, url: Option<string>, loader: Option<string>)
    | WithinDocument(id: Id, newUrl: Option<string>)
    | Spliced(tree: FrameTree, session: Sid)
    | SessionGone(session: Sid)
    | ContextCreated(on: Option<Sid>, context: Option<int>, frame: Option<Id>, isDefault: bool)
    | ContextDestroyed(on: Option<Sid>, context: Option<int>)
    | ContextsCleared(on: Option<Sid>)
    | Select(pattern: string)
    | Reset

  function Fresh(parent: Id): Node<Frame> {
    Node(Some(parent), [], Frame("", "", None, None))
  }

  function WithKid(m: FrameMap, p: Id, x: Id): FrameMap
    requires p in m
  {
    m[p := m[p].(kids := m[p].kids + [x])]
  }

  // A frame that cannot be hung where the event says is dropped with all below it.
  ghost predicate Refused(m: FrameMap, x: Id, p: Id) {
    p == "" || p !in m || AtOrBelow(m, p, x)
  }

  ghost function Attach(m: FrameMap, x: Id, p: Id): FrameMap {
    AtOrBelowStep(m, p, x);
    if Refused(m, x, p) then Drop(m, x) else WithKid(Drop(m, x)[x := Fresh(p)], p, x)
  }

  ghost function Detach(m: FrameMap, x: Id): FrameMap {
    var r := Forgotten(m, x) - {x};
    if x in Forgotten(m, x) && m[x].parent.Some? && m[x].parent.value in r then
      var p := m[x].parent.value;
      r[p := r[p].(kids := Without(r[p].kids, x))]
    else r
  }

  function Renavigated(n: Node<Frame>, url: Option<string>, loader: Option<string>): Node<Frame> {
    n.(kids := [], data := n.data.(url := url.GetOr(n.data.url), loader := loader.GetOr(n.data.loader)))
  }

  ghost function Navigate(m: FrameMap, root: Option<Id>, x: Id, parent: Option<Id>, url: Option<string>,
                          loader: Option<string>): FrameMap
  {
    var r := Forgotten(m, x);
    if x in r then r[x := Renavigated(r[x], url, loader)]
    else
      var created := Node(parent, [], Frame(url.GetOr(""), loader.GetOr(""), None, None));
      if parent.GetOr("") in r then WithKid(r[x := created], parent.GetOr(""), x)
      else if parent.None? && root.None? then r[x := created]
      else r
  }

  predicate CanSplice(m: FrameMap, t: FrameTree) {
    t.Name() != "" && t.parentId.GetOr("") != "" && t.parentId.GetOr("") in m
  }

  // The parent keeps its place only while the entry found before the old
  // subtree went is still the entry of the map.
  ghost function Splice(m: FrameMap, t: FrameTree, session: Sid): FrameMap
    requires CanSplice(m, t)
  {
    var p := t.parentId.value;
    var left := Drop(m, t.Name());
    var r := Parse(left, t, Some(p), Some(session));
    ParseAdds(left, t, Some(p), Some(session));
    if p in left && p !in Ids(t) then WithKid(r, p, t.Name()) else r
  }

  function Answering(m: FrameMap, session: Sid): set<Id> {
    set x | x in m && m[x].data.session == Some(session)
  }

  // The order in which `frames list` shows a map: depth first, children in
  // order, no frame twice. The next frame is the last of the stack.
  ghost function Listing(m: FrameMap, stack: seq<Id>, seen: set<Id>): seq<Id>
    decreases m.Keys - seen, |stack|
  {
    if stack == [] then []
    else
      var x, rest := stack[|stack| - 1], stack[..|stack| - 1];
      if x !in m || x in seen then Listing(m, rest, seen)
      else [x] + Listing(m, rest + Reverse(m[x].kids), seen + {x})
  }

  ghost function Reachable(m: FrameMap, root: Option<Id>): seq<Id> {
    if root.None? then [] else Listing(m, [root.value], {})
  }

  ghost function FirstMatch(m: FrameMap, ids: seq<Id>, matches: Matcher, pattern: string): Option<Id> {
    if ids == [] then None
    else if ids[0] in m && matches(pattern, m[ids[0]].data.url) then Some(ids[0])
    else FirstMatch(m, ids[1..], matches, pattern)
  }

  ghost function Resolve(m: FrameMap, root: Option<Id>, matches: Matcher, pattern: string): Option<Id> {
    FirstMatch(m, Reachable(m, root), matches, pattern)
  }

  ghost function Reresolved(s: State, matches: Matcher): State {
    if s.pattern.GetOr("") == "" then s
    else s.(selected := Resolve(s.frames, s.root, matches, s.pattern.value))
  }

  function Kept(selected: Option<Id>, gone: set<Id>): Option<Id> {
    if selected.Some? && selected.value in gone then None else selected
  }

  function WithContext(m: FrameMap, x: Id, c: Option<int>): FrameMap
    requires x in m
  {
    m[x := m[x].(data := m[x].data.(context := c))]
  }

  function ClearedOne(n: Node<Frame>, on: Option<Sid>): Node<Frame> {
    if n.data.session == on then n.(data := n.data.(context := None)) else n
  }

  function Cleared(m: FrameMap, on: Option<Sid>): FrameMap {
    map x | x in m :: ClearedOne(m[x], on)
  }

  ghost function Apply(s: State, e: Event, matches: Matcher): State {
    match e
    case TreeRead(t) =>
      s.(frames := Parse(map[], t, None, None), root := t.id)
    case Attached(x, p) =>
      if x == "" then s
      else s.(frames := Attach(s.frames, x, p),
              selected := Kept(s.selected, Descendants(s.frames, x) + if Refused(s.frames, x, p) then {x} else {}))
    case Detached(x) =>
      if x == "" then s
      else s.(frames := Detach(s.frames, x), selected := Kept(s.selected, Descendants(s.frames, x) + {x}))
    case Navigated(x, p, url, loader) =>
      if x == "" then s
      else
        var s' := s.(frames := Navigate(s.frames, s.root, x, p, url, loader),
                     selected := Kept(s.selected, Descendants(s.frames, x)));
        if x in Forgotten(s.frames, x) || p.GetOr("") in Forgotten(s.frames, x) then Reresolved(s', matches)
        else if p.None? && s.root.None? then Reresolved(s'.(root := Some(x)), matches)
        else s'
    case WithinDocument(x, url) =>
      if x == "" || url.None? || x !in s.frames then s
      else
        var n := s.frames[x];
        Reresolved(s.(frames := s.frames[x := n.(data := n.data.(url := url.value))]), matches)
    case Spliced(t, session) =>
      if !CanSplice(s.frames, t) then s
      else s.(frames := Splice(s.frames, t, session),
              selected := Kept(s.selected, Descendants(s.frames, t.Name())))
    case SessionGone(session) =>
      var gone := Answering(s.frames, session);
      Reresolved(s.(frames := DropAll(s.frames, gone),
                    selected := Kept(s.selected, s.frames.Keys - DropAll(s.frames, gone).Keys)), matches)
    case ContextCreated(on, context, frame, isDefault) =>
      if context.None? || frame.GetOr("") == "" then s
      else
        var s' := s.(contexts := s.contexts[(on, context.value) := frame.value]);
        if frame.value in s.frames && isDefault then
          s'.(frames := WithContext(s.frames, frame.value, context))
        else s'
    case ContextDestroyed(on, context) =>
      if context.None? || (on, context.value) !in s.contexts then s
      else
        var x := s.contexts[(on, context.value)];
        var s' := s.(contexts := s.contexts - {(on, context.value)});
        if x in s.frames && s.frames[x].data.context == context && s.frames[x].data.session == on then
          s'.(frames := WithContext(s.frames, x, None))
        else s'
    case ContextsCleared(on) =>
      s.(contexts := map k | k in s.contexts && k.0 != on :: s.contexts[k], frames := Cleared(s.frames, on))
    case Select(pattern) =>
      s.(pattern := Some(pattern), selected := Resolve(s.frames, s.root, matches, pattern))
    case Reset =>
      s.(pattern := None, selected := None)
  }

  // The selected frame, resolved again by its pattern once its id is stale.
  ghost function CurrentFrame(s: State, matches: Matcher): (State, Option<Id>) {
    if s.selected.None? || s.selected.value in s.frames then (s, s.selected)
    else if s.pattern.GetOr("") != "" then
      var s' := Apply(s, Select(s.pattern.value), matches);
      (s', s'.selected)
    else (s.(selected := None), None)
  }

  // Where to evaluate against the selected frame: its session and its context.
  ghost function CurrentContext(s: State, matches: Matcher): (State, Option<(Option<Sid>, int)>) {
    var (s', f) := CurrentFrame(s, matches);
    if f.None? || f.value !in s'.frames || s'.frames[f.value].data.context.None? then (s', None)
    else (s', Some((s'.frames[f.value].data.session, s'.frames[f.value].data.context.value)))
  }

  // One live document: the frame that holds it, and the document that owns it.
  datatype Document = Document(frameId: Id, token: string, session: Option<Sid>,
                               parentId: Option<Id>, parentToken: Option<string>, parentSession: Option<Sid>)

  // How a document is named; the digest the code uses is left open.
  type Tokens = (string, string) -> string

  function DocumentOf(m: FrameMap, x: Id, tokens: Tokens): Document
    requires x in m
  {
    var here := Document(x, tokens(x, m[x].data.loader), m[x].data.session, None, None, None);
    var p := m[x].parent.GetOr("");
    if p in m then
      here.(parentId := Some(p), parentToken := Some(tokens(p, m[p].data.loader)), parentSession := m[p].data.session)
    else here
  }

  // Each listed id with its depth.
  function Tagged(ids: seq<Id>, d: map<Id, nat>): (r: seq<(Id, nat)>)
    requires forall x :: x in ids ==> x in d
    ensures |r| == |ids| && forall i :: 0 <= i < |ids| ==> r[i] == (ids[i], d[ids[i]])
  {
    if ids == [] then [] else [(ids[0], d[ids[0]])] + Tagged(ids[1..], d)
  }

  // --------------------------------------------------------- the tree invariant

  ghost predicate Consistent(s: State) {
    IsTree(s.frames, s.root) && "" !in s.frames
  }

  // The ids a reply brings are its own, or those of the subtree it replaces.
  ghost predicate BringsFreshIds(m: FrameMap, t: FrameTree) {
    forall y :: y in Ids(t) && y in m ==> AtOrBelow(m, y, t.Name())
  }

  // What Chrome owes: the ids of one reply are all different and, for a child
  // session, new to the tree. And the one guard the code leaves to its caller: a
  // child session's frame is not hung below itself.
  ghost predicate Sane(s: State, e: Event) {
    match e
    case TreeRead(t) => Distinct(Ids(t))
    case Spliced(t, _) =>
      CanSplice(s.frames, t) ==>
        Distinct(Ids(t)) && BringsFreshIds(s.frames, t) && !AtOrBelow(s.frames, t.parentId.value, t.Name())
    case _ => true
  }

  lemma SubtreeGone(m: FrameMap, d: map<Id, nat>, x: Id, y: Id)
    requires DepthMap(m, d) && y in m
    ensures y in Drop(m, x) <==> !AtOrBelow(m, y, x)
    ensures x !in m ==> Drop(m, x) == m
  {
    AtOrBelowStep(m, y, x);
    if x !in m {
      forall z | z in m ensures !Below(m, z, x) && x !in m[z].kids {
        assert Placed(m, d, z);
        if Below(m, z, x) { BelowDeeper(m, d, z, x); }
      }
    }
  }

  lemma LeafKeepsTree(m: FrameMap, root: Option<Id>, x: Id, n: Node<Frame>, p: Id)
    requires IsTree(m, root) && p in m && x !in m && n.parent == Some(p) && n.kids == []
    ensures IsTree(WithKid(m[x := n], p, x), root)
  {
    var leaf: FrameMap := map[x := n];
    var k := Depths(m)[p] + 1;
    assert Hangs(leaf, map[x := k], p, [x], k);
    GraftKeepsTree(m, root, p, leaf, map[x := k], [x]);
    assert Graft(m, p, leaf, [x]) == WithKid(m[x := n], p, x);
  }

  lemma AttachKeepsTree(m: FrameMap, root: Option<Id>, x: Id, p: Id)
    requires IsTree(m, root)
    ensures IsTree(Attach(m, x, p), root)
  {
    DropKeepsTree(m, root, x);
    if !Refused(m, x, p) {
      SubtreeGone(m, Depths(m), x, p);
      LeafKeepsTree(Drop(m, x), root, x, Fresh(p), p);
    }
  }

  // In a tree only the one parent holds a frame, so unlinking it there is
  // unlinking it everywhere.
  lemma DetachIsDrop(m: FrameMap, root: Option<Id>, x: Id)
    requires IsTree(m, root)
    ensures Detach(m, x) == Drop(m, x)
  {
    hide AtOrBelow, Below;
    var d := Depths(m);
    if x in m {
      assert Placed(m, d, x);
      if Below(m, x, x) { BelowDeeper(m, d, x, x); }
    }
    forall y | y in Drop(m, x) ensures y in Detach(m, x) && Detach(m, x)[y] == Drop(m, x)[y] {
      if x !in m || m[x].parent != Some(y) { OnlyParentHolds(m, d, x, y); }
    }
    assert Detach(m, x).Keys == Drop(m, x).Keys;
  }

  lemma OnlyParentHolds(m: FrameMap, d: map<Id, nat>, x: Id, y: Id)
    requires DepthMap(m, d) && y in m && (x in m ==> m[x].parent != Some(y))
    ensures x !in m[y].kids && Without(m[y].kids, x) == m[y].kids
  {
    assert Placed(m, d, y);
  }

  lemma ForgetChildless(m: FrameMap, d: map<Id, nat>, x: Id)
    requires DepthMap(m, d)
    ensures x in m ==> x in Forgotten(m, x)
    ensures x !in m ==> Forgotten(m, x) == m
  {
    if x in m && Below(m, x, x) { BelowDeeper(m, d, x, x); }
    forall y | y in m && Below(m, y, x) ensures x in m {
      BelowDeeper(m, d, y, x);
    }
  }

  lemma ForgottenChildless(m: FrameMap, d: map<Id, nat>, x: Id, n: Node<Frame>)
    requires DepthMap(m, d) && x in m && n.kids == [] && n.parent == m[x].parent
    ensures IsForest(Forgotten(m, x)[x := n])
  {
    var r := Forgotten(m, x)[x := n];
    ForgetChildless(m, d, x);
    var e := map y | y in r :: d[y];
    forall y | y in r ensures Placed(r, e, y) {
      assert Placed(m, d, y);
      if m[y].parent.Some? { AtOrBelowStep(m, m[y].parent.value, x); }
      AtOrBelowStep(m, y, x);
    }
    assert DepthMap(r, e);
  }

  lemma NavigateKeepsTree(m: FrameMap, root: Option<Id>, x: Id, p: Option<Id>, url: Option<string>,
                          loader: Option<string>)
    requires IsTree(m, root) && "" !in m
    ensures IsTree(Navigate(m, root, x, p, url, loader),
                   if x !in m && p.None? && root.None? then Some(x) else root)
  {
    ForgetChildless(m, Depths(m), x);
    if x in m {
      ForgottenChildless(m, Depths(m), x, Renavigated(m[x], url, loader));
    } else if p.GetOr("") in m {
      LeafKeepsTree(m, root, x, Node(p, [], Frame(url.GetOr(""), loader.GetOr(""), None, None)), p.value);
    } else if p.None? && root.None? {
      assert m == map[] by {
        forall y | y in m ensures false { ReachableFromRoot(m, root, y); }
      }
      assert DepthMap(Navigate(m, root, x, p, url, loader), map[x := 0]);
    }
  }

  lemma SpliceIsGraft(m: FrameMap, d: map<Id, nat>, t: FrameTree, session: Sid)
    requires DepthMap(m, d) && CanSplice(m, t)
    requires BringsFreshIds(m, t) && !AtOrBelow(m, t.parentId.value, t.Name())
    ensures var left, p := Drop(m, t.Name()), t.parentId.value;
            var b := Parse(map[], t, Some(p), Some(session));
            p in left && left.Keys !! b.Keys && Splice(m, t, session) == Graft(left, p, b, [t.Name()])
  {
    var x, p := t.Name(), t.parentId.value;
    var left := Drop(m, x);
    SubtreeGone(m, d, x, p);
    forall y | y in Ids(t) ensures y !in left {
      if y in m { SubtreeGone(m, d, x, y); }
    }
    ParseAdds(left, t, Some(p), Some(session));
  }

  lemma SpliceKeepsTree(m: FrameMap, root: Option<Id>, t: FrameTree, session: Sid)
    requires IsTree(m, root) && CanSplice(m, t)
    requires Distinct(Ids(t)) && BringsFreshIds(m, t) && !AtOrBelow(m, t.parentId.value, t.Name())
    ensures IsTree(Splice(m, t, session), root)
  {
    var x, p := t.Name(), t.parentId.value;
    var left := Drop(m, x);
    SpliceIsGraft(m, Depths(m), t, session);
    DropKeepsTree(m, root, x);
    var k := Depths(left)[p] + 1;
    ParseAdds(map[], t, Some(p), Some(session));
    ParseHangs(t, p, Some(session), k);
    assert [t][1..] == [];
    assert KidNames([t]) == [x];
    GraftKeepsTree(left, root, p, Parse(map[], t, Some(p), Some(session)), ParsedDepths(t, k), [x]);
  }

  lemma {:induction false} ParseRowSnoc(m: FrameMap, ts: seq<FrameTree>, i: nat, parent: Id, session: Option<Sid>)
    requires i < |ts|
    ensures ParseRow(m, ts[..i + 1], parent, session) ==
            Parse(ParseRow(m, ts[..i], parent, session), ts[i], Some(parent), session)
    ensures KidNames(ts[..i + 1]) == KidNames(ts[..i]) + if ts[i].Name() == "" then [] else [ts[i].Name()]
    decreases i
  {
    if i == 0 {
      assert ts[..1] == [ts[0]] && [ts[0]][1..] == [];
    } else {
      assert ts[..i + 1][1..] == ts[1..][..i] && ts[..i][1..] == ts[1..][..i - 1];
      ParseRowSnoc(Parse(m, ts[0], Some(parent), session), ts[1..], i - 1, parent, session);
    }
  }

  lemma {:induction false} RowIdsSnoc(ts: seq<FrameTree>, i: nat)
    requires i < |ts|
    ensures RowIds(ts[..i + 1]) == RowIds(ts[..i]) + Ids(ts[i])
    decreases i
  {
    if i == 0 {
      assert ts[..1] == [ts[0]] && [ts[0]][1..] == [];
    } else {
      assert ts[..i + 1][1..] == ts[1..][..i] && ts[..i][1..] == ts[1..][..i - 1];
      RowIdsSnoc(ts[1..], i - 1);
    }
  }

  lemma RowGrows(ts: seq<FrameTree>, i: nat, parent: Id, session: Option<Sid>)
    requires i < |ts|
    ensures ParseRow(map[], ts[..i + 1], parent, session) ==
            ParseRow(map[], ts[..i], parent, session) + Parse(map[], ts[i], Some(parent), session)
    ensures ParseRow(map[], ts[..i], parent, session).Keys == Elems(RowIds(ts[..i]))
    ensures KidNames(ts[..i + 1]) == KidNames(ts[..i]) + if ts[i].Name() == "" then [] else [ts[i].Name()]
    ensures RowIds(ts[..i + 1]) == RowIds(ts[..i]) + Ids(ts[i])
  {
    ParseRowSnoc(map[], ts, i, parent, session);
    RowIdsSnoc(ts, i);
    ParseRowAdds(map[], ts[..i], parent, session);
    ParseAdds(ParseRow(map[], ts[..i], parent, session), ts[i], Some(parent), session);
  }
}

// The streaming count against the parsed document, and against the way the
// document was cut into chunks.
module CounterLaws {
  import opened Prelude
  import opened Json
  import opened TraceCounter

  // No array opens outside a string while data is read from s.
  predicate NoOpen(s: Scan, data: seq<Byte>)
    decreases |data|
  {
    data == [] || (!(data[0] == LBRACKET && !s.inString) && NoOpen(Step(s, false, data[0]), data[1..]))
  }

  // The key is complete before the first array of the text opens.
  ghost predicate KeyFirst(all: seq<Byte>) {
    exists k: nat :: k <= |all| && Contains(all[..k], KEY) && NoOpen(START, all[..k])
  }

  lemma {:induction false} NoOpenBlind(s: Scan, data: seq<Byte>)
    requires NoOpen(s, data)
    ensures Steps(s, true, data) == Steps(s, false, data)
    decreases |data|
  {
    if data != [] {
      NoOpenBlind(Step(s, false, data[0]), data[1..]);
    }
  }

  lemma {:induction false} NoOpenPrefix(s: Scan, data: seq<Byte>, c: nat)
    requires c <= |data| && NoOpen(s, data)
    ensures NoOpen(s, data[..c])
    decreases |data|
  {
    if c > 0 {
      assert data[..c][1..] == data[1..][..c - 1];
      NoOpenPrefix(Step(s, false, data[0]), data[1..], c - 1);
    }
  }

  // A cut that leaves the key ahead lies before any array.
  lemma CutBeforeArrays(all: seq<Byte>, c: nat)
    requires KeyFirst(all) && c <= |all| && !Contains(all[..c], KEY)
    ensures NoOpen(START, all[..c])
  {
    var k: nat :| k <= |all| && Contains(all[..k], KEY) && NoOpen(START, all[..k]);
    if c < k {
      assert all[..k][..c] == all[..c];
      NoOpenPrefix(START, all[..k], c);
    } else {
      assert all[..c] == all[..k] + all[k..c];
      OccursInPrefix(all[..k], all[k..c], KEY);
    }
  }

  // With the key ahead of every array, every way of cutting the text into chunks
  // ends in the same scan, the one that knows the key from the start.
  lemma AnySplit(chunks: seq<seq<Byte>>)
    requires KeyFirst(Joined(chunks))
    ensures FedAll(FRESH, chunks).scan == Steps(START, true, Joined(chunks))
  {
    var all, c := Joined(chunks), Cut(FRESH, chunks);
    ChunksAreOneCut(FRESH, [], chunks);
    assert [] + all[..c] == all[..c];
    CutBeforeArrays(all, c);
    NoOpenBlind(START, all[..c]);
    StepsJoin(START, true, all[..c], all[c..]);
    assert all[..c] + all[c..] == all;
  }

  // ----------------------------------------------------- reading a JSON document

  predicate Quiet(s: Scan) {
    !s.inString && !s.escaped
  }

  // s is reading inside the array it counts.
  predicate Inside(s: Scan) {
    Quiet(s) && !s.closed && s.arrayDepth.Some? && s.depth > s.arrayDepth.value
  }

  // s has not met the array it will count.
  predicate Before(s: Scan) {
    Quiet(s) && !s.closed && s.arrayDepth.None?
  }

  predicate Idle(b: Byte) {
    b != QUOTE && b != LBRACKET && b != RBRACKET && b != LBRACE && b != RBRACE
  }

  lemma {:induction false} IdleRun(s: Scan, data: seq<Byte>)
    requires Quiet(s) && forall b :: b in data ==> Idle(b)
    ensures Steps(s, true, data) == s
    decreases |data|
  {
    if data != [] {
      assert data[0] in data;
      IdleRun(s, data[1..]);
    }
  }

  lemma {:induction false} ClosedRun(s: Scan, data: seq<Byte>)
    requires Quiet(s) && s.closed
    ensures Steps(s, true, data) == s
    decreases |data|
  {
    if data != [] {
      ClosedRun(s, data[1..]);
    }
  }

  lemma {:induction false} BodyRun(s: Scan, body: seq<Byte>)
    requires s.inString && !s.escaped && IsBody(body)
    ensures Steps(s, true, body) == s
    decreases |body|
  {
    if body != [] {
      if body[0] == BACKSLASH {
        assert body[1..][1..] == body[2..];
        assert Step(Step(s, true, body[0]), true, body[1]) == s;
        BodyRun(s, body[2..]);
      } else {
        BodyRun(s, body[1..]);
      }
    }
  }

  // A string changes nothing.
  lemma QuotedRun(s: Scan, body: seq<Byte>)
    requires Quiet(s) && IsBody(body)
    ensures Steps(s, true, Quoted(body)) == s
  {
    if s.closed {
      ClosedRun(s, Quoted(body));
    } else {
      var t := s.(inString := true);
      assert Quoted(body) == [QUOTE] + (body + [QUOTE]);
      assert Quoted(body)[1..] == body + [QUOTE];
      BodyRun(t, body);
      StepsJoin(t, true, body, [QUOTE]);
      assert Steps(t, true, [QUOTE]) == Step(t, true, QUOTE);
    }
  }

  lemma Enclosed(s: Scan, open: Byte, body: seq<Byte>, close: Byte)
    ensures Steps(s, true, [open] + body + [close])
            == Step(Steps(Step(s, true, open), true, body), true, close)
  {
    var all := [open] + body + [close];
    assert all == [open] + (body + [close]) && all[1..] == body + [close];
    StepsJoin(Step(s, true, open), true, body, [close]);
    var t := Steps(Step(s, true, open), true, body);
    assert Steps(t, true, [close]) == Step(t, true, close);
  }

  // Inside the counted array: a value read at its own level counts one when it
  // is an object, a value read any deeper counts nothing.
  lemma {:induction false} ValueInside(s: Scan, v: Value)
    requires Inside(s) && Wf(v)
    ensures Steps(s, true, Text(v)) ==
            s.(count := s.count + if v.Obj? && s.depth == s.arrayDepth.value + 1 then 1 else 0)
    decreases v, 1
  {
    match v
    case Atom(t) => IdleRun(s, t);
    case Str(b) => QuotedRun(s, b);
    case Arr(i, items) =>
      var t := Step(s, true, LBRACKET);
      if items.NoItem? { IdleRun(t, i); } else { ItemsInside(t, items); }
      Enclosed(s, LBRACKET, if items.NoItem? then i else ItemsText(items), RBRACKET);
    case Obj(i, members) =>
      var t := Step(s, true, LBRACE);
      if members.NoMember? { IdleRun(t, i); } else { MembersInside(t, members); }
      Enclosed(s, LBRACE, if members.NoMember? then i else MembersText(members), RBRACE);
  }

  lemma {:induction false} ItemsInside(s: Scan, items: Items)
    requires Inside(s) && WfItems(items)
    ensures Steps(s, true, ItemsText(items)) ==
            s.(count := s.count + if s.depth == s.arrayDepth.value + 1 then ObjectCount(items) else 0)
    decreases items, 0
  {
    match items
    case NoItem =>
    case Item(b, v, a, rest) =>
      var tail := if rest.NoItem? then [] else [COMMA] + ItemsText(rest);
      ValueInside(s, v);
      ItemParts(s, b, Text(v), a, tail);
      var s' := Steps(s, true, Text(v));
      ItemsInside(s', rest);
      CommaRun(s', ItemsText(rest));
  }

  lemma {:induction false} MembersInside(s: Scan, members: Members)
    requires Inside(s) && WfMembers(members) && s.depth > s.arrayDepth.value + 1
    ensures Steps(s, true, MembersText(members)) == s
    decreases members, 0
  {
    match members
    case NoMember =>
    case Member(b, k, p, q, v, a, rest) =>
      var tail := if rest.NoMember? then [] else [COMMA] + MembersText(rest);
      ValueInside(s, v);
      MemberParts(s, b, k, p, q, Text(v), a, tail);
      MembersInside(s, rest);
      CommaRun(s, MembersText(rest));
  }

  lemma CommaRun(s: Scan, data: seq<Byte>)
    requires Quiet(s)
    ensures Steps(s, true, [COMMA] + data) == Steps(s, true, data)
  {
    assert ([COMMA] + data)[1..] == data;
  }

  // Space around an item is skipped.
  lemma ItemParts(s: Scan, b: seq<Byte>, t: seq<Byte>, a: seq<Byte>, tail: seq<Byte>)
    requires Quiet(s) && IsBlank(b) && IsBlank(a) && Quiet(Steps(s, true, t))
    ensures Steps(s, true, b + t + a + tail) == Steps(Steps(s, true, t), true, tail)
  {
    StepsJoin(s, true, b + t + a, tail);
    StepsJoin(s, true, b + t, a);
    StepsJoin(s, true, b, t);
    IdleRun(s, b);
    IdleRun(Steps(s, true, t), a);
  }

  // So is everything of a member but its value.
  lemma MemberParts(s: Scan, b: seq<Byte>, k: seq<Byte>, p: seq<Byte>, q: seq<Byte>, t: seq<Byte>, a: seq<Byte>,
                    tail: seq<Byte>)
    requires Quiet(s) && IsBlank(b) && IsBody(k) && IsBlank(p) && IsBlank(q) && IsBlank(a)
    requires Quiet(Steps(s, true, t))
    ensures Steps(s, true, b + Quoted(k) + (p + [COLON] + q) + t + a + tail) == Steps(Steps(s, true, t), true, tail)
  {
    hide Steps, Quoted;
    var c := p + [COLON] + q;
    HeadRun(s, b, k, p, q);
    StepsJoin(s, true, b + Quoted(k) + c + t + a, tail);
    StepsJoin(s, true, b + Quoted(k) + c + t, a);
    StepsJoin(s, true, b + Quoted(k) + c, t);
    IdleRun(Steps(s, true, t), a);
  }

  lemma HeadRun(s: Scan, b: seq<Byte>, k: seq<Byte>, p: seq<Byte>, q: seq<Byte>)
    requires Quiet(s) && IsBlank(b) && IsBody(k) && IsBlank(p) && IsBlank(q)
    ensures Steps(s, true, b + Quoted(k) + (p + [COLON] + q)) == s
  {
    hide Steps, Quoted;
    var c := p + [COLON] + q;
    StepsJoin(s, true, b + Quoted(k), c);
    StepsJoin(s, true, b, Quoted(k));
    IdleRun(s, b);
    QuotedRun(s, k);
    IdleRun(s, c);
  }

  // The scan once the array k levels down, holding n objects, has been counted.
  function Done(s: Scan, k: nat, n: nat): Scan {
    s.(count := s.count + n, depth := s.depth + k, arrayDepth := Some(s.depth + k), closed := true)
  }

  function AfterFirst(s: Scan, f: Option<(nat, Items)>): Scan {
    match f
    case None => s
    case Some((k, items)) => Done(s, k, ObjectCount(items))
  }

  // Before the counted array: the first array of a value is counted, whatever
  // comes after it is not, and a value without arrays changes nothing.
  lemma {:induction false} ValueBefore(s: Scan, v: Value)
    requires Before(s) && Wf(v)
    ensures Steps(s, true, Text(v)) == AfterFirst(s, FirstArray(v))
    decreases v, 1
  {
    match v
    case Atom(t) => IdleRun(s, t);
    case Str(b) => QuotedRun(s, b);
    case Arr(i, items) =>
      var t := Step(s, true, LBRACKET);
      if items.NoItem? { IdleRun(t, i); } else { ItemsInside(t, items); }
      Enclosed(s, LBRACKET, if items.NoItem? then i else ItemsText(items), RBRACKET);
    case Obj(i, members) =>
      var t := Step(s, true, LBRACE);
      if members.NoMember? { IdleRun(t, i); } else { MembersBefore(t, members); }
      Enclosed(s, LBRACE, if members.NoMember? then i else MembersText(members), RBRACE);
  }

  lemma {:induction false} MembersBefore(s: Scan, members: Members)
    requires Before(s) && WfMembers(members)
    ensures Steps(s, true, MembersText(members)) == AfterFirst(s, FirstInMembers(members))
    decreases members, 0
  {
    match members
    case NoMember =>
    case Member(b, k, p, q, v, a, rest) =>
      var tail := if rest.NoMember? then [] else [COMMA] + MembersText(rest);
      ValueBefore(s, v);
      MemberParts(s, b, k, p, q, Text(v), a, tail);
      if FirstArray(v).Some? {
        ClosedRun(Steps(s, true, Text(v)), tail);
      } else {
        MembersBefore(s, rest);
        CommaRun(s, MembersText(rest));
      }
  }

  // A document: a value between blanks.
  function Document(before: seq<Byte>, v: Value, after: seq<Byte>): seq<Byte> {
    before + Text(v) + after
  }

  // For every JSON document whose first array opens after the key, and every
  // split of its bytes, the count is the number of objects directly in that array.
  lemma CountIsObjects(before: seq<Byte>, v: Value, after: seq<Byte>, chunks: seq<seq<Byte>>)
    requires IsBlank(before) && IsBlank(after) && Wf(v)
    requires Joined(chunks) == Document(before, v, after) && KeyFirst(Document(before, v, after))
    ensures FedAll(FRESH, chunks).scan.count ==
            match FirstArray(v) case None => 0 case Some((_, items)) => ObjectCount(items)
  {
    AnySplit(chunks);
    StepsJoin(START, true, before + Text(v), after);
    StepsJoin(START, true, before, Text(v));
    IdleRun(START, before);
    ValueBefore(START, v);
    IdleRun(Steps(START, true, Text(v)), after);
  }

  // ------------------------------------------------ the traceEvents member itself

  // traceEvents, the body of the key as Chrome writes it.
  const EVENTS: seq<Byte> := KEY[1..12]

  // Some member named traceEvents holds an array, and no member before it holds
  // an array anywhere inside.
  predicate EventsFirst(members: Members) {
    match members
    case NoMember => false
    case Member(_, k, _, _, v, _, rest) =>
      if k == EVENTS && v.Arr? then true else FirstArray(v).None? && EventsFirst(rest)
  }

  function EventsOf(members: Members): Items
    requires EventsFirst(members)
  {
    if members.key == EVENTS && members.value.Arr? then members.value.items else EventsOf(members.rest)
  }

  lemma {:induction false} EventsAreFirstArray(members: Members)
    requires EventsFirst(members)
    ensures FirstInMembers(members) == Some((0, EventsOf(members)))
    decreases members
  {
    if !(members.key == EVENTS && members.value.Arr?) {
      EventsAreFirstArray(members.rest);
    }
  }

  // The text of the members up to and including the traceEvents key.
  function Head(members: Members): seq<Byte>
    requires EventsFirst(members)
  {
    var Member(b, k, p, q, v, a, rest) := members;
    if k == EVENTS && v.Arr? then b + Quoted(k)
    else b + Quoted(k) + (p + [COLON] + q) + Text(v) + a + ([COMMA] + Head(rest))
  }

  lemma {:induction false} HeadIsPrefix(members: Members)
    requires EventsFirst(members)
    ensures Head(members) <= MembersText(members)
    decreases members
  {
    var Member(b, k, p, q, v, a, rest) := members;
    if k == EVENTS && v.Arr? {
      var c := (p + [COLON] + q) + Text(v) + a + (if rest.NoMember? then [] else [COMMA] + MembersText(rest));
      assert MembersText(members) == b + Quoted(k) + c;
    } else {
      HeadIsPrefix(rest);
      var front := b + Quoted(k) + (p + [COLON] + q) + Text(v) + a;
      var more := MembersText(rest)[|Head(rest)|..];
      assert MembersText(rest) == Head(rest) + more;
      assert MembersText(members) == front + ([COMMA] + MembersText(rest));
      assert MembersText(members) == front + ([COMMA] + Head(rest)) + more;
    }
  }

  lemma {:induction false} NoOpenJoin(s: Scan, a: seq<Byte>, b: seq<Byte>)
    requires NoOpen(s, a) && NoOpen(Steps(s, true, a), b)
    ensures NoOpen(s, a + b)
    decreases |a|
  {
    if a == [] {
      assert a + b == b;
    } else {
      assert (a + b)[1..] == a[1..] + b;
      NoOpenJoin(Step(s, false, a[0]), a[1..], b);
    }
  }

  lemma {:induction false} NoOpenIdle(s: Scan, data: seq<Byte>)
    requires Before(s) && forall b :: b in data ==> Idle(b)
    ensures NoOpen(s, data) && Steps(s, true, data) == s
    decreases |data|
  {
    if data != [] {
      assert data[0] in data;
      NoOpenIdle(s, data[1..]);
    }
  }

  lemma {:induction false} NoOpenBody(s: Scan, body: seq<Byte>)
    requires s.inString && !s.escaped && IsBody(body)
    ensures NoOpen(s, body) && Steps(s, true, body) == s
    decreases |body|
  {
    if body != [] {
      if body[0] == BACKSLASH {
        assert body[1..][1..] == body[2..];
        assert Step(Step(s, false, body[0]), false, body[1]) == s;
        NoOpenBody(s, body[2..]);
      } else {
        NoOpenBody(s, body[1..]);
      }
    }
  }

  lemma NoOpenQuoted(s: Scan, body: seq<Byte>)
    requires Before(s) && IsBody(body)
    ensures NoOpen(s, Quoted(body)) && Steps(s, true, Quoted(body)) == s
  {
    var t := s.(inString := true);
    assert Quoted(body) == [QUOTE] + (body + [QUOTE]);
    assert Quoted(body)[1..] == body + [QUOTE];
    NoOpenBody(t, body);
    NoOpenJoin(t, body, [QUOTE]);
    QuotedRun(s, body);
  }

  // A value without arrays opens none.
  lemma {:induction false} NoOpenValue(s: Scan, v: Value)
    requires Before(s) && Wf(v) && FirstArray(v).None?
    ensures NoOpen(s, Text(v)) && Steps(s, true, Text(v)) == s
    decreases v, 1
  {
    ValueBefore(s, v);
    match v
    case Atom(t) => NoOpenIdle(s, t);
    case Str(b) => NoOpenQuoted(s, b);
    case Obj(i, members) =>
      var t := s.(depth := s.depth + 1);
      var inner := if members.NoMember? then i else MembersText(members);
      if members.NoMember? { NoOpenIdle(t, i); } else { NoOpenMembers(t, members); }
      NoOpenJoin(t, inner, [RBRACE]);
      assert Text(v) == [LBRACE] + (inner + [RBRACE]) && Text(v)[1..] == inner + [RBRACE];
  }

  lemma {:induction false} NoOpenMembers(s: Scan, members: Members)
    requires Before(s) && WfMembers(members) && FirstInMembers(members).None?
    ensures NoOpen(s, MembersText(members)) && Steps(s, true, MembersText(members)) == s
    decreases members, 0
  {
    match members
    case NoMember =>
    case Member(b, k, p, q, v, a, rest) =>
      var tail := if rest.NoMember? then [] else [COMMA] + MembersText(rest);
      NoOpenValue(s, v);
      NoOpenMembers(s, rest);
      NoOpenComma(s, MembersText(rest));
      NoOpenMember(s, b, k, p, q, Text(v), a, tail);
  }

  lemma NoOpenComma(s: Scan, data: seq<Byte>)
    requires Before(s) && NoOpen(s, data)
    ensures NoOpen(s, [COMMA] + data)
    ensures Steps(s, true, [COMMA] + data) == Steps(s, true, data)
  {
    assert ([COMMA] + data)[1..] == data;
  }

  lemma NoOpenHead(s: Scan, b: seq<Byte>, k: seq<Byte>)
    requires Before(s) && IsBlank(b) && IsBody(k)
    ensures NoOpen(s, b + Quoted(k)) && Steps(s, true, b + Quoted(k)) == s
  {
    NoOpenIdle(s, b);
    NoOpenQuoted(s, k);
    NoOpenJoin(s, b, Quoted(k));
    StepsJoin(s, true, b, Quoted(k));
  }

  lemma NoOpenMember(s: Scan, b: seq<Byte>, k: seq<Byte>, p: seq<Byte>, q: seq<Byte>, t: seq<Byte>, a: seq<Byte>,
                     tail: seq<Byte>)
    requires Before(s) && IsBlank(b) && IsBody(k) && IsBlank(p) && IsBlank(q) && IsBlank(a)
    requires NoOpen(s, t) && Steps(s, true, t) == s && NoOpen(s, tail)
    ensures var all := b + Quoted(k) + (p + [COLON] + q) + t + a + tail;
            NoOpen(s, all) && Steps(s, true, all) == Steps(s, true, tail)
  {
    hide NoOpen, Steps, Quoted;
    var c := p + [COLON] + q;
    MemberParts(s, b, k, p, q, t, a, tail);
    HeadRun(s, b, k, p, q);
    NoOpenHead(s, b, k);
    NoOpenIdle(s, c);
    NoOpenJoin(s, b + Quoted(k), c);
    NoOpenJoin(s, b + Quoted(k) + c, t);
    StepsJoin(s, true, b + Quoted(k) + c, t);
    NoOpenIdle(s, a);
    NoOpenJoin(s, b + Quoted(k) + c + t, a);
    StepsJoin(s, true, b + Quoted(k) + c + t, a);
    NoOpenJoin(s, b + Quoted(k) + c + t + a, tail);
  }

  lemma {:induction false} HeadOpensNone(s: Scan, members: Members)
    requires Before(s) && WfMembers(members) && EventsFirst(members)
    ensures NoOpen(s, Head(members)) && Contains(Head(members), KEY)
    decreases members
  {
    var Member(b, k, p, q, v, a, rest) := members;
    if k == EVENTS && v.Arr? {
      NoOpenHead(s, b, k);
      assert Quoted(k) == KEY;
      assert (b + KEY)[|b|..|b| + 13] == KEY;
      assert OccursAt(Head(members), KEY, |b|);
    } else {
      HeadOpensNone(s, rest);
      NoOpenComma(s, Head(rest));
      NoOpenValue(s, v);
      NoOpenMember(s, b, k, p, q, Text(v), a, [COMMA] + Head(rest));
      hide NoOpen, Before, WfMembers, Text, Quoted, Contains;
      var front := b + Quoted(k) + (p + [COLON] + q) + Text(v) + a + [COMMA];
      assert Head(members) == front + Head(rest);
      FoundBehind(front, Head(rest));
    }
  }

  lemma HeadLeadsDocument(before: seq<Byte>, inside: seq<Byte>, members: Members, after: seq<Byte>)
    returns (more: seq<Byte>)
    requires EventsFirst(members)
    ensures Document(before, Obj(inside, members), after) == (before + [LBRACE] + Head(members)) + more
  {
    HeadIsPrefix(members);
    hide Head, MembersText, IsBlank;
    var rest := MembersText(members)[|Head(members)|..];
    assert MembersText(members) == Head(members) + rest;
    more := rest + [RBRACE] + after;
    assert Text(Obj(inside, members)) == [LBRACE] + MembersText(members) + [RBRACE];
    hide Text;
    assert before + ([LBRACE] + (Head(members) + rest) + [RBRACE]) + after
        == (before + [LBRACE] + Head(members)) + more;
  }

  lemma LeadOpensNone(before: seq<Byte>, members: Members)
    requires IsBlank(before) && WfMembers(members) && EventsFirst(members)
    ensures NoOpen(START, before + [LBRACE] + Head(members))
    ensures Contains(before + [LBRACE] + Head(members), KEY)
  {
    hide Head, Contains;
    var t := START.(depth := 1);
    NoOpenIdle(START, before);
    StepsJoin(START, true, before, [LBRACE]);
    assert Steps(START, true, [LBRACE]) == t;
    assert NoOpen(START, [LBRACE]);
    NoOpenJoin(START, before, [LBRACE]);
    HeadOpensNone(t, members);
    NoOpenJoin(START, before + [LBRACE], Head(members));
    FoundBehind(before + [LBRACE], Head(members));
  }

  // The summary of a trace: when a document is an object whose first array is
  // the value of its member traceEvents, then however the document arrives, the
  // count is the number of objects directly in that array; strings, escapes,
  // nesting and metadata after it change nothing.
  lemma CountIsTraceEvents(before: seq<Byte>, inside: seq<Byte>, members: Members, after: seq<Byte>,
                           chunks: seq<seq<Byte>>)
    requires IsBlank(before) && IsBlank(after) && IsBlank(inside) && WfMembers(members) && EventsFirst(members)
    requires Joined(chunks) == Document(before, Obj(inside, members), after)
    ensures FedAll(FRESH, chunks).scan.count == ObjectCount(EventsOf(members))
  {
    hide Head, Contains, NoOpen, Document, EventsOf;
    var v := Obj(inside, members);
    var lead := before + [LBRACE] + Head(members);
    var more := HeadLeadsDocument(before, inside, members, after);
    LeadOpensNone(before, members);
    assert (lead + more)[..|lead|] == lead;
    assert KeyFirst(Document(before, v, after));
    EventsAreFirstArray(members);
    CountIsObjects(before, v, after, chunks);
  }

  // ------------------------------------------ exactly when the chunks do not matter

  // Where in data the counted array opens.
  function OpensIn(s: Scan, seen: bool, data: seq<Byte>): Option<nat>
    decreases |data|
  {
    if data == [] then None
    else
      var s' := Step(s, seen, data[0]);
      if s.arrayDepth.None? && s'.arrayDepth.Some? then Some(0) else Later(1, OpensIn(s', seen, data[1..]))
  }

  function Later(n: nat, at: Option<nat>): Option<nat> {
    if at.None? then None else Some(n + at.value)
  }

  // Where in the stream the counted array opens.
  function OpensAt(s: State, chunks: seq<seq<Byte>>): Option<nat>
    decreases |chunks|
  {
    if chunks == [] then None
    else
      var s' := Fed(s, chunks[0]);
      var here := OpensIn(s.scan, s'.seen, chunks[0]);
      if here.Some? then here else Later(|chunks[0]|, OpensAt(s', chunks[1..]))
  }

  lemma {:induction false} OpensInJoin(s: Scan, seen: bool, a: seq<Byte>, b: seq<Byte>)
    ensures OpensIn(s, seen, a + b) ==
            if OpensIn(s, seen, a).Some? then OpensIn(s, seen, a) else Later(|a|, OpensIn(Steps(s, seen, a), seen, b))
    decreases |a|
  {
    if a == [] {
      assert a + b == b;
    } else {
      assert (a + b)[1..] == a[1..] + b;
      OpensInJoin(Step(s, seen, a[0]), seen, a[1..], b);
    }
  }

  lemma {:induction false} UnseenOpensNothing(s: Scan, data: seq<Byte>)
    ensures OpensIn(s, false, data) == None && Steps(s, false, data).arrayDepth == s.arrayDepth
    decreases |data|
  {
    if data != [] {
      UnseenOpensNothing(Step(s, false, data[0]), data[1..]);
    }
  }

  // With the key seen, the first array outside a string is the one that opens.
  lemma {:induction false} OpensFirst(s: Scan, data: seq<Byte>)
    requires s.arrayDepth.None? && !s.closed
    ensures NoOpen(s, data) <==> OpensIn(s, true, data).None?
    ensures var at := OpensIn(s, true, data); at.Some? ==> at.value < |data| && data[at.value] == LBRACKET
    decreases |data|
  {
    if data != [] && !(data[0] == LBRACKET && !s.inString) {
      OpensFirst(Step(s, false, data[0]), data[1..]);
    }
  }

  lemma {:induction false} OpensOnceSeen(s: State, chunks: seq<seq<Byte>>)
    requires s.seen
    ensures OpensAt(s, chunks) == OpensIn(s.scan, true, Joined(chunks))
    decreases |chunks|
  {
    if chunks != [] {
      OpensOnceSeen(Fed(s, chunks[0]), chunks[1..]);
      OpensInJoin(s.scan, true, chunks[0], Joined(chunks[1..]));
    }
  }

  ghost predicate OpensAfter(s: State, chunks: seq<seq<Byte>>, all: seq<Byte>, c: nat) {
    c <= |all| && OpensAt(s, chunks) == Later(c, OpensIn(Steps(s.scan, false, all[..c]), true, all[c..]))
  }

  lemma OpensHere(s: State, data: seq<Byte>, rest: seq<seq<Byte>>)
    requires !s.seen && Fed(s, data).seen
    ensures OpensAfter(s, [data] + rest, data + Joined(rest), 0)
  {
    var all := data + Joined(rest);
    hide Contains, Last13, Joined;
    OpensOnceSeen(Fed(s, data), rest);
    OpensInJoin(s.scan, true, data, Joined(rest));
    assert ([data] + rest)[1..] == rest;
    assert all[..0] == [] && all[0..] == all;
  }

  lemma OpensLater(s: State, data: seq<Byte>, rest: seq<seq<Byte>>, c: nat)
    requires !s.seen && !Fed(s, data).seen
    requires OpensAfter(Fed(s, data), rest, Joined(rest), c)
    ensures OpensAfter(s, [data] + rest, data + Joined(rest), |data| + c)
  {
    var more := Joined(rest);
    var all := data + more;
    hide Contains, Last13, Joined;
    UnseenOpensNothing(s.scan, data);
    assert ([data] + rest)[1..] == rest;
    assert all[..|data| + c] == data + more[..c] && all[|data| + c..] == more[c..];
    StepsJoin(s.scan, false, data, more[..c]);
  }

  lemma {:induction false} OpensAfterCut(s: State, chunks: seq<seq<Byte>>)
    requires !s.seen
    ensures OpensAfter(s, chunks, Joined(chunks), Cut(s, chunks))
    decreases |chunks|
  {
    if chunks != [] {
      var data, rest := chunks[0], chunks[1..];
      assert chunks == [data] + rest;
      if Fed(s, data).seen {
        OpensHere(s, data, rest);
      } else {
        OpensAfterCut(Fed(s, data), rest);
        OpensLater(s, data, rest, Cut(Fed(s, data), rest));
      }
    }
  }

  lemma {:induction false} KeyEnd(all: seq<Byte>, n: nat) returns (k: nat)
    requires n <= |all| && Contains(all[..n], KEY)
    ensures 13 <= k <= n && Contains(all[..k], KEY) && !Contains(all[..k - 1], KEY) && all[k - 1] == QUOTE
    decreases n
  {
    var i: nat :| i <= n && OccursAt(all[..n], KEY, i);
    if i + 13 < n {
      assert all[..n - 1][i..i + 13] == all[..n][i..i + 13];
      assert OccursAt(all[..n - 1], KEY, i);
    }
    if Contains(all[..n - 1], KEY) {
      k := KeyEnd(all, n - 1);
    } else {
      k := n;
      assert all[..n][i..i + 13][12] == all[n - 1] && KEY[12] == QUOTE;
    }
  }

  ghost predicate SplitFree(all: seq<Byte>) {
    forall chunks: seq<seq<Byte>> {:trigger Joined(chunks)} ::
      Joined(chunks) == all ==> OpensAt(FRESH, chunks) == OpensAt(FRESH, [all])
  }

  lemma OneChunk(all: seq<Byte>)
    ensures OpensAt(FRESH, [all]) == if Contains(all, KEY) then OpensIn(START, true, all) else None
  {
    assert [] + all == all;
    assert [all][1..] == [];
    UnseenOpensNothing(START, all);
  }

  lemma TwoChunks(a: seq<Byte>, b: seq<Byte>)
    requires !Contains(a, KEY)
    ensures Joined([a, b]) == a + b
    ensures var at := OpensAt(FRESH, [a, b]); at.Some? ==> at.value >= |a|
  {
    var chunks := [a, b];
    assert chunks[1..] == [b] && chunks[2..] == [] && [b][1..] == chunks[2..];
    assert Joined([b]) == b + [];
    assert [] + a == a;
    UnseenOpensNothing(START, a);
  }

  // Cut just before the last byte of the key, an array that opened earlier is
  // not the one counted.
  lemma CutInsideKey(all: seq<Byte>)
    requires Contains(all, KEY) && !KeyFirst(all)
    ensures !SplitFree(all)
  {
    assert all[..|all|] == all;
    var k := KeyEnd(all, |all|);
    assert all[..k - 1] + all[k - 1..] == all;
    assert !NoOpen(START, all[..k]);
    hide Contains, NoOpen, Steps, OpensIn, KeyFirst, OpensAt, Joined;
    OpensBefore(all, k);
    OneChunk(all);
    TwoChunks(all[..k - 1], all[k - 1..]);
    assert OpensAt(FRESH, [all[..k - 1], all[k - 1..]]) != OpensAt(FRESH, [all]);
  }

  lemma OpensBefore(all: seq<Byte>, k: nat)
    requires 0 < k <= |all| && !NoOpen(START, all[..k]) && all[k - 1] == QUOTE
    ensures var at := OpensIn(START, true, all); at.Some? && at.value < k - 1
  {
    hide NoOpen, Steps, OpensIn;
    assert all[..k] + all[k..] == all;
    OpensFirst(START, all[..k]);
    OpensInJoin(START, true, all[..k], all[k..]);
    assert all[..k][k - 1] == QUOTE;
  }

  // Which array is counted does not depend on how the stream was cut into chunks
  // exactly when the key, if it occurs at all, is complete before any array
  // opens outside a string.
  lemma SplitFreeIff(all: seq<Byte>)
    ensures SplitFree(all) <==> (Contains(all, KEY) ==> KeyFirst(all))
  {
    if Contains(all, KEY) && !KeyFirst(all) {
      CutInsideKey(all);
    } else {
      forall chunks: seq<seq<Byte>> | Joined(chunks) == all ensures OpensAt(FRESH, chunks) == OpensAt(FRESH, [all]) {
        SameOpening(all, chunks);
      }
    }
  }

  lemma SameOpening(all: seq<Byte>, chunks: seq<seq<Byte>>)
    requires Joined(chunks) == all
    requires Contains(all, KEY) ==> KeyFirst(all)
    ensures OpensAt(FRESH, chunks) == OpensAt(FRESH, [all])
  {
    hide Contains, NoOpen, KeyFirst, Steps, OpensIn, Last13;
    var c := Cut(FRESH, chunks);
    CutOfFresh(chunks);
    OpensAfterCut(FRESH, chunks);
    OneChunk(all);
    assert all[..c] + all[c..] == all;
    if Contains(all, KEY) {
      CutBeforeArrays(all, c);
      NoOpenBlind(START, all[..c]);
      OpensFirst(START, all[..c]);
      OpensInJoin(START, true, all[..c], all[c..]);
    } else {
      OpensNothing(Steps(START, false, all[..c]), all[c..]);
    }
  }

  lemma OpensNothing(s: Scan, data: seq<Byte>)
    requires data == []
    ensures OpensIn(s, true, data) == None
  {
  }

  lemma CutOfFresh(chunks: seq<seq<Byte>>)
    ensures var c, all := Cut(FRESH, chunks), Joined(chunks);
            c <= |all| && !Contains(all[..c], KEY) && (!Contains(all, KEY) ==> c == |all|)
  {
    assert !Contains([], KEY);
    ChunksAreOneCut(FRESH, [], chunks);
    var c, all := Cut(FRESH, chunks), Joined(chunks);
    assert [] + all == all && [] + all[..c] == all[..c];
  }
}

// Counting the trace events of a stream, byte by byte and in constant memory.
module TraceCounter {
  import opened Prelude
  import opened Json

  // "traceEvents", quotes included.
  const KEY: seq<Byte> := [0x22, 0x74, 0x72, 0x61, 0x63, 0x65, 0x45, 0x76, 0x65, 0x6E, 0x74, 0x73, 0x22]

  datatype Scan = Scan(count: int, depth: int, inString: bool, escaped: bool, arrayDepth: Option<int>, closed: bool)

  datatype State = State(scan: Scan, seen: bool, tail: seq<Byte>)

  const START: Scan := Scan(0, 0, false, false, None, false)
  const FRESH: State := State(START, false, [])

  predicate OccursAt(s: seq<Byte>, w: seq<Byte>, i: nat) {
    i + |w| <= |s| && s[i..i + |w|] == w
  }

  predicate Contains(s: seq<Byte>, w: seq<Byte>) {
    exists i: nat :: i <= |s| && OccursAt(s, w, i)
  }

  function Last13(s: seq<Byte>): seq<Byte> {
    if |s| <= 13 then s else s[|s| - 13..]
  }

  // ------------------------------------------------------------- what one byte does

  function Step(s: Scan, seen: bool, b: Byte): Scan {
    if s.closed && !s.inString then s
    else if s.inString then
      if s.escaped then s.(escaped := false)
      else if b == BACKSLASH then s.(escaped := true)
      else if b == QUOTE then s.(inString := false)
      else s
    else if b == QUOTE then s.(inString := true)
    else if b == LBRACKET then
      s.(arrayDepth := if seen && s.arrayDepth.None? then Some(s.depth) else s.arrayDepth, depth := s.depth + 1)
    else if b == LBRACE then
      s.(depth := s.depth + 1,
         count := if s.arrayDepth.Some? && s.depth + 1 == s.arrayDepth.value + 2 then s.count + 1 else s.count)
    else if b == RBRACE || b == RBRACKET then
      s.(depth := s.depth - 1,
         closed := s.closed || (b == RBRACKET && s.arrayDepth == Some(s.depth - 1)))
    else s
  }

  function Steps(s: Scan, seen: bool, data: seq<Byte>): Scan
    decreases |data|
  {
    if data == [] then s else Steps(Step(s, seen, data[0]), seen, data[1..])
  }

  function Fed(s: State, data: seq<Byte>): State {
    var probe := s.tail + data;
    var seen := s.seen || Contains(probe, KEY);
    State(Steps(s.scan, seen, data), seen, if s.seen then s.tail else Last13(probe))
  }

  function FedAll(s: State, chunks: seq<seq<Byte>>): State
    decreases |chunks|
  {
    if chunks == [] then s else FedAll(Fed(s, chunks[0]), chunks[1..])
  }

  class TraceEventCounter {
    var count: int
    var depth: int
    var inString: bool
    var escaped: bool
    var seenKey: bool
    var arrayDepth: Option<int>
    var closed: bool
    var tail: seq<Byte>

    function Now(): State
      reads this
    {
      State(Scan(count, depth, inString, escaped, arrayDepth, closed), seenKey, tail)
    }

    constructor ()
      ensures Now() == FRESH
    {
      count, depth := 0, 0;
      inString, escaped, seenKey, closed := false, false, false, false;
      arrayDepth := None;
      tail := [];
    }

    method StepByte(b: Byte)
      modifies this
      ensures Now() == old(Now()).(scan := Step(old(Now()).scan, old(seenKey), b))
    {
      if closed && !inString {
        return;
      }
      if inString {
        if escaped {
          escaped := false;
        } else if b == BACKSLASH {
          escaped := true;
        } else if b == QUOTE {
          inString := false;
        }
        return;
      }
      if b == QUOTE {
        inString := true;
      } else if b == LBRACKET {
        if seenKey && arrayDepth.None? {
          arrayDepth := Some(depth);
        }
        depth := depth + 1;
      } else if b == LBRACE {
        depth := depth + 1;
        if arrayDepth.Some? && depth == arrayDepth.value + 2 {
          count := count + 1;
        }
      } else if b == RBRACE || b == RBRACKET {
        depth := depth - 1;
        if b == RBRACKET && arrayDepth.Some? && depth == arrayDepth.value {
          closed := true;
        }
      }
    }

    method Feed(data: seq<Byte>)
      modifies this
      ensures Now() == Fed(old(Now()), data)
    {
      if !seenKey {
        var probe := tail + data;
        if Contains(probe, KEY) {
          seenKey := true;
        }
        tail := Last13(probe);
      }
      var i := 0;
      ghost var s := Now().scan;
      while i < |data|
        invariant 0 <= i <= |data|
        invariant seenKey == Fed(old(Now()), data).seen && tail == Fed(old(Now()), data).tail
        invariant Steps(Now().scan, seenKey, data[i..]) == Steps(s, seenKey, data)
      {
        assert data[i..][1..] == data[i + 1..];
        StepByte(data[i]);
        i := i + 1;
      }
    }
  }

  // ------------------------------------------------------------------- the probe

  lemma OccursInPrefix(a: seq<Byte>, b: seq<Byte>, w: seq<Byte>)
    requires Contains(a, w)
    ensures Contains(a + b, w)
  {
    var i: nat :| i <= |a| && OccursAt(a, w, i);
    assert (a + b)[i..i + |w|] == a[i..i + |w|];
    assert OccursAt(a + b, w, i);
  }

  // Thirteen bytes of the past are enough to find a key that straddles chunks.
  lemma ProbeFinds(past: seq<Byte>, data: seq<Byte>)
    requires !Contains(past, KEY)
    ensures Contains(Last13(past) + data, KEY) <==> Contains(past + data, KEY)
    ensures Last13(Last13(past) + data) == Last13(past + data)
  {
    var tail, all := Last13(past), past + data;
    var cut := |past| - |tail|;
    var probe := tail + data;
    assert all == past[..cut] + probe;
    assert |probe| >= 13 || probe == all;
    if |probe| >= 13 {
      assert all[|all| - 13..] == probe[|probe| - 13..];
    }
    if Contains(probe, KEY) {
      FoundBehind(past[..cut], probe);
    }
    if Contains(all, KEY) {
      FoundAhead(past, data, cut);
    }
  }

  // What is found behind a prefix is found with it, at a shifted place.
  lemma FoundBehind(front: seq<Byte>, rest: seq<Byte>)
    requires Contains(rest, KEY)
    ensures Contains(front + rest, KEY)
  {
    var i: nat :| i <= |rest| && OccursAt(rest, KEY, i);
    assert (front + rest)[|front| + i..|front| + i + 13] == rest[i..i + 13];
    assert OccursAt(front + rest, KEY, |front| + i);
  }

  // A key that the past alone does not hold reaches into the new data, so it is in
  // what was kept of the past and the data together.
  lemma FoundAhead(past: seq<Byte>, data: seq<Byte>, cut: nat)
    requires !Contains(past, KEY) && Contains(past + data, KEY) && cut <= |past| && (cut == 0 || cut + 13 <= |past|)
    ensures Contains(past[cut..] + data, KEY)
  {
    var all := past + data;
    var i: nat :| i <= |all| && OccursAt(all, KEY, i);
    if i + 13 <= |past| {
      assert past[i..i + 13] == all[i..i + 13];
      assert OccursAt(past, KEY, i);
    }
    assert i > |past| - 13 && i >= cut;
    assert past[cut..] + data == all[cut..];
    assert all[cut..][i - cut..i - cut + 13] == all[i..i + 13];
    assert OccursAt(all[cut..], KEY, i - cut);
  }

  // ------------------------------------------------------- chunks, seen as one cut

  lemma {:induction false} StepsJoin(s: Scan, seen: bool, a: seq<Byte>, b: seq<Byte>)
    ensures Steps(s, seen, a + b) == Steps(Steps(s, seen, a), seen, b)
    decreases |a|
  {
    if a == [] {
      assert a + b == b;
    } else {
      assert (a + b)[1..] == a[1..] + b;
      StepsJoin(Step(s, seen, a[0]), seen, a[1..], b);
    }
  }

  // Where the chunk begins in which the key is found; the end when it never is.
  function Cut(s: State, chunks: seq<seq<Byte>>): nat
    decreases |chunks|
  {
    if s.seen || chunks == [] || Fed(s, chunks[0]).seen then 0
    else |chunks[0]| + Cut(Fed(s, chunks[0]), chunks[1..])
  }

  // A counter that has been fed past, without the key in it.
  ghost predicate Blind(s: State, past: seq<Byte>) {
    !s.seen && s.tail == Last13(past) && !Contains(past, KEY)
  }

  lemma {:induction false} SeenStays(s: State, chunks: seq<seq<Byte>>)
    requires s.seen
    ensures FedAll(s, chunks).seen
    ensures FedAll(s, chunks).scan == Steps(s.scan, true, Joined(chunks))
    decreases |chunks|
  {
    if chunks != [] {
      SeenStays(Fed(s, chunks[0]), chunks[1..]);
      StepsJoin(s.scan, true, chunks[0], Joined(chunks[1..]));
    }
  }

  // What the chunks come to when they are cut at c.
  ghost predicate CutAt(s: State, past: seq<Byte>, chunks: seq<seq<Byte>>, all: seq<Byte>, c: nat) {
    && c <= |all|
    && FedAll(s, chunks).scan == Steps(Steps(s.scan, false, all[..c]), true, all[c..])
    && FedAll(s, chunks).seen == Contains(past + all, KEY)
    && !Contains(past + all[..c], KEY)
    && (!Contains(past + all, KEY) ==> c == |all|)
  }

  lemma CutHere(s: State, past: seq<Byte>, data: seq<Byte>, rest: seq<seq<Byte>>)
    requires Blind(s, past) && Fed(s, data).seen
    ensures CutAt(s, past, [data] + rest, data + Joined(rest), 0)
  {
    var all := data + Joined(rest);
    ProbeFinds(past, data);
    SeenStays(Fed(s, data), rest);
    StepsJoin(s.scan, true, data, Joined(rest));
    OccursInPrefix(past + data, Joined(rest), KEY);
    assert past + data + Joined(rest) == past + all;
    assert past + all[..0] == past && all[0..] == all;
    assert ([data] + rest)[1..] == rest;
    assert Steps(s.scan, false, all[..0]) == s.scan;
  }

  lemma CutLater(s: State, past: seq<Byte>, data: seq<Byte>, rest: seq<seq<Byte>>, c: nat)
    requires Blind(s, past) && !Fed(s, data).seen
    requires CutAt(Fed(s, data), past + data, rest, Joined(rest), c)
    ensures CutAt(s, past, [data] + rest, data + Joined(rest), |data| + c)
  {
    hide Contains, Last13, Joined, Steps;
    var more := Joined(rest);
    var all := data + more;
    assert all[..|data| + c] == data + more[..c] && all[|data| + c..] == more[c..];
    StepsJoin(s.scan, false, data, more[..c]);
    assert past + data + more == past + all;
    assert past + data + more[..c] == past + all[..|data| + c];
    assert ([data] + rest)[1..] == rest;
  }

  // Whatever the chunks, the bytes before the cut are read with the key unseen
  // and the rest with the key seen; the cut never lies past the key.
  lemma {:induction false} ChunksAreOneCut(s: State, past: seq<Byte>, chunks: seq<seq<Byte>>)
    requires Blind(s, past)
    ensures CutAt(s, past, chunks, Joined(chunks), Cut(s, chunks))
    decreases |chunks|
  {
    if chunks == [] {
      assert past + [] == past;
    } else {
      var data, rest := chunks[0], chunks[1..];
      assert chunks == [data] + rest;
      ProbeFinds(past, data);
      if Fed(s, data).seen {
        CutHere(s, past, data, rest);
      } else {
        ChunksAreOneCut(Fed(s, data), past + data, rest);
        CutLater(s, past, data, rest, Cut(Fed(s, data), rest));
      }
    }
  }
}

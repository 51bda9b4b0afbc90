// UIDs: minting the name of a node from its document and its DOM node, and
// reading one back with no tree in hand.
module Uids {
  import opened Prelude

  // ------------------------------------------------------------ decimal numerals

  predicate IsDigit(c: char) {
    '0' <= c <= '9'
  }

  function Digit(n: nat): (c: char)
    requires n < 10
    ensures IsDigit(c) && c as int - '0' as int == n
  {
    ('0' as int + n) as char
  }

  function Dec(n: nat): string {
    if n < 10 then [Digit(n)] else Dec(n / 10) + [Digit(n % 10)]
  }

  function DecInt(n: int): string {
    if n < 0 then "-" + Dec(-n) else Dec(n)
  }

  predicate AllDigits(s: string) {
    s != "" && forall i :: 0 <= i < |s| ==> IsDigit(s[i])
  }

  function Value(s: string): nat
    requires forall i :: 0 <= i < |s| ==> IsDigit(s[i])
  {
    if s == "" then 0
    else
      var c := s[|s| - 1];
      assert IsDigit(c);
      10 * Value(s[..|s| - 1]) + (c as int - '0' as int)
  }

  lemma {:induction false} DecReads(n: nat)
    ensures AllDigits(Dec(n)) && Value(Dec(n)) == n
    decreases n
  {
    var s := Dec(n);
    if n >= 10 {
      DecReads(n / 10);
      assert s[..|s| - 1] == Dec(n / 10);
    } else {
      assert s[..0] == "";
    }
  }

  lemma DecInjective(a: nat, b: nat)
    ensures Dec(a) == Dec(b) ==> a == b
  {
    DecReads(a);
    DecReads(b);
  }

  lemma DecIntInjective(a: int, b: int)
    ensures DecInt(a) == DecInt(b) ==> a == b
    ensures IsDigit(DecInt(a)[0]) || DecInt(a)[0] == '-'
  {
    DecReads(if a < 0 then -a else a);
    DecReads(if b < 0 then -b else b);
    assert if a < 0 then DecInt(a)[0] == '-' else IsDigit(DecInt(a)[0]);
    assert if b < 0 then DecInt(b)[0] == '-' else IsDigit(DecInt(b)[0]);
    if a < 0 && b < 0 {
      assert DecInt(a)[1..] == Dec(-a) && DecInt(b)[1..] == Dec(-b);
    }
  }

  // -------------------------------------------------------------- mint and parse

  predicate Plain(token: string) {
    '-' !in token
  }

  function MakeUid(token: string, backend: int): string {
    token + "-" + DecInt(backend)
  }

  // The name of a node no interaction can address.
  function OrdinalUid(token: string, ordinal: nat): string {
    token + "-x" + Dec(ordinal)
  }

  function ParseUid(uid: string): (string, Option<nat>) {
    var (token, rest) := Partition(uid, '-');
    if rest.Some? && AllDigits(rest.value) then (token, Some(Value(rest.value))) else (token, None)
  }

  lemma {:induction false} PartitionAt(token: string, rest: string)
    requires Plain(token)
    ensures Partition(token + "-" + rest, '-') == (token, Some(rest))
    decreases |token|
  {
    var s := token + "-" + rest;
    if token == "" {
      assert s[1..] == rest;
    } else {
      assert token[0] in token && token == [token[0]] + token[1..];
      assert s[0] == token[0] && s[1..] == token[1..] + "-" + rest;
      PartitionAt(token[1..], rest);
    }
  }

  // Reading back a minted UID gives its document and, for the ids Chrome gives
  // its nodes, the very node.
  lemma ParseMade(token: string, backend: int)
    requires Plain(token)
    ensures ParseUid(MakeUid(token, backend)) == (token, if backend >= 0 then Some(backend) else None)
  {
    PartitionAt(token, DecInt(backend));
    if backend >= 0 {
      DecReads(backend);
    } else {
      assert DecInt(backend)[0] == '-';
    }
  }

  lemma ParseOrdinal(token: string, ordinal: nat)
    requires Plain(token)
    ensures ParseUid(OrdinalUid(token, ordinal)) == (token, None)
  {
    var rest := "x" + Dec(ordinal);
    assert OrdinalUid(token, ordinal) == token + "-" + rest;
    PartitionAt(token, rest);
    assert rest[0] == 'x';
  }

  lemma MadeInjective(t: string, b: int, t': string, b': int)
    requires Plain(t) && Plain(t')
    ensures MakeUid(t, b) == MakeUid(t', b') ==> t == t' && b == b'
  {
    PartitionAt(t, DecInt(b));
    PartitionAt(t', DecInt(b'));
    DecIntInjective(b, b');
  }

  lemma OrdinalsApart(t: string, k: nat, t': string, k': nat, b: int)
    requires Plain(t) && Plain(t')
    ensures OrdinalUid(t, k) == OrdinalUid(t', k') ==> k == k'
    ensures OrdinalUid(t, k) != MakeUid(t', b)
  {
    var r, r' := "x" + Dec(k), "x" + Dec(k');
    assert OrdinalUid(t, k) == t + "-" + r && OrdinalUid(t', k') == t' + "-" + r';
    PartitionAt(t, r);
    PartitionAt(t', r');
    PartitionAt(t', DecInt(b));
    assert r[1..] == Dec(k) && r'[1..] == Dec(k');
    DecInjective(k, k');
    DecIntInjective(b, b);
    assert r[0] == 'x';
  }

  // ------------------------------------------------------------------- resolving

  datatype UidError = StaleDocument | NoDomNode

  // The backend node a UID names, checked against the documents that are live.
  function BackendFor(uid: string, live: set<string>): Result<nat, UidError> {
    var (token, backend) := ParseUid(uid);
    if token !in live then Err(StaleDocument)
    else match backend
      case None => Err(NoDomNode)
      case Some(b) => Ok(b)
  }

  // --------------------------------------------------------- minting along a walk

  // What minting needs to know of a node: its document and its DOM node, if any.
  datatype Origin = Origin(token: string, backend: Option<int>)

  // The UIDs minted so far, in order: a node takes the name of its DOM node
  // unless that name is taken, and its place in the walk otherwise.
  function Minted(origins: seq<Origin>): (uids: seq<string>)
    ensures |uids| == |origins|
    decreases |origins|
  {
    if origins == [] then []
    else
      var prev := Minted(origins[..|origins| - 1]);
      prev + [Mint(prev, origins[|origins| - 1])]
  }

  function Mint(prev: seq<string>, o: Origin): string {
    if o.backend.Some? && MakeUid(o.token, o.backend.value) !in prev then MakeUid(o.token, o.backend.value)
    else OrdinalUid(o.token, |prev| + 1)
  }

  ghost predicate AllPlain(origins: seq<Origin>) {
    forall i :: 0 <= i < |origins| ==> Plain(origins[i].token)
  }

  // No earlier node of the walk has the document and DOM node of the i-th.
  ghost predicate FirstOfItsNode(origins: seq<Origin>, i: nat)
    requires i < |origins|
  {
    origins[i].backend.Some? && forall j :: 0 <= j < i ==> origins[j] != origins[i]
  }

  lemma {:induction false} MintedPrefix(origins: seq<Origin>, n: nat)
    requires n <= |origins|
    ensures Minted(origins)[..n] == Minted(origins[..n])
    decreases |origins|
  {
    if n == |origins| {
      assert origins[..n] == origins;
    } else {
      var init := origins[..|origins| - 1];
      assert init[..n] == origins[..n];
      MintedPrefix(init, n);
    }
  }

  lemma MintedAt(origins: seq<Origin>, i: nat)
    requires i < |origins|
    ensures Minted(origins)[i] == Mint(Minted(origins[..i]), origins[i])
  {
    MintedPrefix(origins, i + 1);
    assert origins[..i + 1][..i] == origins[..i];
    assert Minted(origins)[i] == Minted(origins)[..i + 1][i];
  }

  // A node is named after its DOM node exactly when it is the first to claim it.
  lemma {:induction false} NamedIffFirst(origins: seq<Origin>, i: nat)
    requires AllPlain(origins) && i < |origins|
    ensures Minted(origins)[i] ==
            if FirstOfItsNode(origins, i) then MakeUid(origins[i].token, origins[i].backend.value)
            else OrdinalUid(origins[i].token, i + 1)
    decreases i
  {
    MintedAt(origins, i);
    var o, prev := origins[i], Minted(origins[..i]);
    MintedPrefix(origins, i);
    forall j | 0 <= j < i ensures prev[j] == Minted(origins)[j] {
      assert prev[j] == Minted(origins)[..i][j];
    }
    if o.backend.Some? {
      var name := MakeUid(o.token, o.backend.value);
      forall j | 0 <= j < i ensures prev[j] == name ==> origins[j] == o {
        NamedIffFirst(origins, j);
        MadeAgainst(origins, j, o);
      }
      if !FirstOfItsNode(origins, i) {
        var j := FirstClaim(origins, i);
        NamedIffFirst(origins, j);
        assert prev[j] == name;
      }
    }
  }

  lemma MadeAgainst(origins: seq<Origin>, j: nat, o: Origin)
    requires AllPlain(origins) && j < |origins| && Plain(o.token) && o.backend.Some?
    ensures MakeUid(o.token, o.backend.value) != OrdinalUid(origins[j].token, j + 1)
    ensures origins[j].backend.Some?
            && MakeUid(o.token, o.backend.value) == MakeUid(origins[j].token, origins[j].backend.value)
            ==> origins[j] == o
  {
    OrdinalsApart(origins[j].token, j + 1, o.token, 0, o.backend.value);
    if origins[j].backend.Some? {
      MadeInjective(o.token, o.backend.value, origins[j].token, origins[j].backend.value);
    }
  }

  lemma {:induction false} FirstClaim(origins: seq<Origin>, i: nat) returns (j: nat)
    requires i < |origins| && origins[i].backend.Some? && !FirstOfItsNode(origins, i)
    ensures j < i && origins[j] == origins[i] && FirstOfItsNode(origins, j)
    decreases i
  {
    j :| 0 <= j < i && origins[j] == origins[i];
    if !FirstOfItsNode(origins, j) {
      j := FirstClaim(origins, j);
    }
  }

  // No two nodes of a walk share a UID.
  lemma MintedDistinct(origins: seq<Origin>)
    requires AllPlain(origins)
    ensures Distinct(Minted(origins))
  {
    var uids := Minted(origins);
    forall i, j | 0 <= i < j < |uids| ensures uids[i] != uids[j] {
      NamedIffFirst(origins, i);
      NamedIffFirst(origins, j);
      var a, b := origins[i], origins[j];
      OrdinalsApart(a.token, i + 1, b.token, j + 1, b.backend.GetOr(0));
      OrdinalsApart(b.token, j + 1, a.token, i + 1, a.backend.GetOr(0));
      MadeInjective(a.token, a.backend.GetOr(0), b.token, b.backend.GetOr(0));
    }
  }

  // Resolving a minted UID with no tree answers with the node's own DOM node, and
  // only for the node that claimed it; a UID of a dead document is refused.
  lemma ResolvedWithoutTree(origins: seq<Origin>, i: nat, live: set<string>)
    requires AllPlain(origins) && i < |origins|
    ensures BackendFor(Minted(origins)[i], live) ==
            if origins[i].token !in live then Err(StaleDocument)
            else if FirstOfItsNode(origins, i) && origins[i].backend.value >= 0 then Ok(origins[i].backend.value)
            else Err(NoDomNode)
  {
    NamedIffFirst(origins, i);
    ParseOrdinal(origins[i].token, i + 1);
    ParseMade(origins[i].token, origins[i].backend.GetOr(0));
  }

  // Two nodes of one walk never resolve to the same DOM node of the same document.
  lemma AddressesApart(origins: seq<Origin>, i: nat, j: nat)
    requires AllPlain(origins) && i < j < |origins|
    ensures var a, b := ParseUid(Minted(origins)[i]), ParseUid(Minted(origins)[j]);
            a.1.Some? && b.1.Some? ==> a != b
  {
    AddressOf(origins, i);
    AddressOf(origins, j);
    hide Minted, ParseUid;
  }

  lemma AddressOf(origins: seq<Origin>, i: nat)
    requires AllPlain(origins) && i < |origins|
    ensures var a := ParseUid(Minted(origins)[i]);
            a.1.Some? ==> FirstOfItsNode(origins, i) && a == (origins[i].token, origins[i].backend)
  {
    NamedIffFirst(origins, i);
    ParseOrdinal(origins[i].token, i + 1);
    ParseMade(origins[i].token, origins[i].backend.GetOr(0));
    hide Minted, MakeUid, OrdinalUid, ParseUid;
  }

  // A second snapshot of the document renames nothing: a node that is first to
  // claim its DOM node in both has one UID in both.
  lemma SameUidAcrossTrees(a: seq<Origin>, i: nat, b: seq<Origin>, j: nat)
    requires AllPlain(a) && AllPlain(b) && i < |a| && j < |b| && a[i] == b[j]
    requires FirstOfItsNode(a, i) && FirstOfItsNode(b, j)
    ensures Minted(a)[i] == Minted(b)[j]
  {
    NamedIffFirst(a, i);
    NamedIffFirst(b, j);
  }
}

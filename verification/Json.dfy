// JSON texts as RFC 8259 writes them: a value with every byte of white space
// and every raw string kept, so that each text is the text of some tree.
module Json {
  import opened Prelude

  type Byte = b: int | 0 <= b < 256

  const QUOTE: Byte := 0x22
  const COMMA: Byte := 0x2C
  const COLON: Byte := 0x3A
  const LBRACKET: Byte := 0x5B
  const BACKSLASH: Byte := 0x5C
  const RBRACKET: Byte := 0x5D
  const LBRACE: Byte := 0x7B
  const RBRACE: Byte := 0x7D

  // Atom is a number or one of the three literal names; Str holds the raw bytes
  // between its quotes. An empty array or object keeps the space inside it.
  datatype Value =
    | Atom(token: seq<Byte>)
    | Str(body: seq<Byte>)
    | Arr(inside: seq<Byte>, items: Items)
    | Obj(inside: seq<Byte>, members: Members)

  datatype Items = NoItem | Item(before: seq<Byte>, value: Value, after: seq<Byte>, rest: Items)

  datatype Members =
    | NoMember
    | Member(before: seq<Byte>, key: seq<Byte>, pre: seq<Byte>, post: seq<Byte>, value: Value, after: seq<Byte>,
             rest: Members)

  // ------------------------------------------------------------------ grammar

  // Section 2: insignificant white space.
  predicate IsBlank(s: seq<Byte>) {
    forall b :: b in s ==> b == 0x20 || b == 0x09 || b == 0x0A || b == 0x0D
  }

  // Sections 3 and 6: the bytes of numbers and of true, false and null.
  predicate IsToken(s: seq<Byte>) {
    && s != []
    && forall b :: b in s ==> 0x30 <= b <= 0x39 || 0x61 <= b <= 0x7A || b == 0x45 || b == 0x2B || b == 0x2D || b == 0x2E
  }

  // Section 7: no bare quote, and a backslash always escapes a byte.
  predicate IsBody(s: seq<Byte>) {
    if s == [] then true
    else if s[0] == QUOTE then false
    else if s[0] == BACKSLASH then |s| >= 2 && IsBody(s[2..])
    else IsBody(s[1..])
  }

  predicate Wf(v: Value) {
    match v
    case Atom(t) => IsToken(t)
    case Str(b) => IsBody(b)
    case Arr(i, items) => IsBlank(i) && WfItems(items)
    case Obj(i, members) => IsBlank(i) && WfMembers(members)
  }

  predicate WfItems(items: Items) {
    match items
    case NoItem => true
    case Item(b, v, a, rest) => IsBlank(b) && Wf(v) && IsBlank(a) && WfItems(rest)
  }

  predicate WfMembers(members: Members) {
    match members
    case NoMember => true
    case Member(b, k, p, q, v, a, rest) =>
      IsBlank(b) && IsBody(k) && IsBlank(p) && IsBlank(q) && Wf(v) && IsBlank(a) && WfMembers(rest)
  }

  // --------------------------------------------------------------------- text

  function Quoted(body: seq<Byte>): seq<Byte> {
    [QUOTE] + body + [QUOTE]
  }

  function Text(v: Value): seq<Byte> {
    match v
    case Atom(t) => t
    case Str(b) => Quoted(b)
    case Arr(i, items) => [LBRACKET] + (if items.NoItem? then i else ItemsText(items)) + [RBRACKET]
    case Obj(i, members) => [LBRACE] + (if members.NoMember? then i else MembersText(members)) + [RBRACE]
  }

  function ItemsText(items: Items): seq<Byte> {
    match items
    case NoItem => []
    case Item(b, v, a, rest) => b + Text(v) + a + (if rest.NoItem? then [] else [COMMA] + ItemsText(rest))
  }

  function MembersText(members: Members): seq<Byte> {
    match members
    case NoMember => []
    case Member(b, k, p, q, v, a, rest) =>
      b + Quoted(k) + (p + [COLON] + q) + Text(v) + a + (if rest.NoMember? then [] else [COMMA] + MembersText(rest))
  }

  // ------------------------------------------------------------------ meaning

  // How many elements of an array are objects.
  function ObjectCount(items: Items): nat {
    match items
    case NoItem => 0
    case Item(_, v, _, rest) => (if v.Obj? then 1 else 0) + ObjectCount(rest)
  }

  // The first array of a value in document order, and how deep it is nested.
  function FirstArray(v: Value): Option<(nat, Items)> {
    match v
    case Atom(_) => None
    case Str(_) => None
    case Arr(_, items) => Some((0, items))
    case Obj(_, members) =>
      match FirstInMembers(members)
      case None => None
      case Some((k, items)) => Some((k + 1, items))
  }

  function FirstInMembers(members: Members): Option<(nat, Items)> {
    match members
    case NoMember => None
    case Member(_, _, _, _, v, _, rest) => if FirstArray(v).Some? then FirstArray(v) else FirstInMembers(rest)
  }
}

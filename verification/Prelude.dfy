// Small vocabulary shared by every model: optional values, results, and the
// few facts about sequences the proofs lean on.
module Prelude {

  datatype Option<+T> = None | Some(value: T) {
    function GetOr(default: T): T {
      match this
      case Some(v) => v
      case None => default
    }
  }

  datatype Result<+T, +E> = Ok(value: T) | Err(error: E)

  ghost predicate Distinct<T(!new)>(s: seq<T>) {
    forall i, j :: 0 <= i < j < |s| ==> s[i] != s[j]
  }

  // The elements of s, as a set.
  function Elems<T(==)>(s: seq<T>): set<T> {
    set x | x in s
  }

  lemma ElemsSnoc<T>(s: seq<T>, x: T)
    ensures Elems(s + [x]) == Elems(s) + {x}
  {
  }

  // s with every occurrence of x taken out, the rest in order.
  function Without<T(==,!new)>(s: seq<T>, x: T): (r: seq<T>)
    ensures forall y :: y in r <==> y in s && y != x
    ensures x !in s ==> r == s
  {
    if s == [] then []
    else if s[0] == x then Without(s[1..], x)
    else [s[0]] + Without(s[1..], x)
  }

  // s with every element of xs taken out, the rest in order.
  function WithoutAll<T(==,!new)>(s: seq<T>, xs: set<T>): (r: seq<T>)
    ensures forall y :: y in r <==> y in s && y !in xs
    ensures (forall y :: y in s ==> y !in xs) ==> r == s
  {
    if s == [] then []
    else if s[0] in xs then WithoutAll(s[1..], xs)
    else [s[0]] + WithoutAll(s[1..], xs)
  }

  // The elements of s that lie in keep, in order.
  function Keep<T(==,!new)>(s: seq<T>, keep: set<T>): (r: seq<T>)
    ensures forall y :: y in r <==> y in s && y in keep
    ensures (forall y :: y in s ==> y in keep) ==> r == s
    ensures (forall y :: y in s ==> y !in keep) ==> r == []
  {
    if s == [] then []
    else if s[0] in keep then [s[0]] + Keep(s[1..], keep)
    else Keep(s[1..], keep)
  }

  lemma KeepConcat<T(!new)>(a: seq<T>, b: seq<T>, keep: set<T>)
    ensures Keep(a + b, keep) == Keep(a, keep) + Keep(b, keep)
  {
    if a == [] {
      assert a + b == b;
    } else {
      assert (a + b)[1..] == a[1..] + b;
      KeepConcat(a[1..], b, keep);
    }
  }

  lemma WithoutDistinct<T(!new)>(s: seq<T>, x: T)
    requires Distinct(s)
    ensures Distinct(Without(s, x))
  {
    if s == [] {
      assert Without(s, x) == [];
    } else {
      WithoutDistinct(s[1..], x);
      assert s[0] !in s[1..];
    }
  }

  lemma WithoutAllDistinct<T(!new)>(s: seq<T>, xs: set<T>)
    requires Distinct(s)
    ensures Distinct(WithoutAll(s, xs))
  {
    if s == [] {
      assert WithoutAll(s, xs) == [];
    } else {
      WithoutAllDistinct(s[1..], xs);
      assert s[0] !in s[1..];
    }
  }

  lemma WithoutAllStep<T(!new)>(s: seq<T>, xs: set<T>, x: T)
    ensures Without(WithoutAll(s, xs), x) == WithoutAll(s, xs + {x})
  {
    if s == [] {
      assert Without(WithoutAll(s, xs), x) == [];
    } else {
      WithoutAllStep(s[1..], xs, x);
    }
  }

  lemma DistinctConcat<T(!new)>(a: seq<T>, b: seq<T>)
    requires Distinct(a) && Distinct(b)
    requires forall x :: x in a ==> x !in b
    ensures Distinct(a + b)
  {
    forall i, j | 0 <= i < j < |a + b| ensures (a + b)[i] != (a + b)[j] {
      if i < |a| && |a| <= j {
        assert a[i] in a && b[j - |a|] in b;
      }
    }
  }

  function Reverse<T>(s: seq<T>): (r: seq<T>)
    ensures |r| == |s|
    ensures forall i :: 0 <= i < |s| ==> r[i] == s[|s| - 1 - i]
  {
    if s == [] then [] else Reverse(s[1..]) + [s[0]]
  }

  // The chunks, one after the other.
  function Joined<T>(chunks: seq<seq<T>>): seq<T> {
    if chunks == [] then [] else chunks[0] + Joined(chunks[1..])
  }

  lemma {:induction false} JoinedSnoc<T>(chunks: seq<seq<T>>, last: seq<T>)
    ensures Joined(chunks + [last]) == Joined(chunks) + last
    decreases |chunks|
  {
    if chunks == [] {
      assert [] + [last] == [last] && [last][1..] == [];
    } else {
      assert (chunks + [last])[1..] == chunks[1..] + [last];
      JoinedSnoc(chunks[1..], last);
    }
  }

  // The text before the first separator, and the text after it if there is one.
  function Partition(s: string, separator: char): (string, Option<string>) {
    if s == "" then ("", None)
    else if s[0] == separator then ("", Some(s[1..]))
    else var (head, tail) := Partition(s[1..], separator); ([s[0]] + head, tail)
  }
}

// The run's deadline: what every later wait is given, and how far past the
// deadline a run that is unwinding can go.
module Deadlines {
  import opened Prelude

  const GRACE: real := 5.0
  const FLOOR: real := 0.25

  function Min(a: real, b: real): real { if a < b then a else b }

  function Max(a: real, b: real): real { if a < b then b else a }

  // The deadline, and the end of the one grace the first late call opens.
  datatype Bounds = Bounds(deadline: Option<real>, graceUntil: Option<real>)

  // What a call made at now is given, None being no bound, and the bounds after it.
  function Allowed(b: Bounds, timeout: Option<real>, now: real): (Bounds, Option<real>) {
    if b.deadline.None? then (b, timeout)
    else if b.deadline.value - now > 0.0 then
      (b, Some(if timeout.None? then b.deadline.value - now else Min(timeout.value, b.deadline.value - now)))
    else
      var until := b.graceUntil.GetOr(now + GRACE);
      (b.(graceUntil := Some(until)), Some(Max(Min(until - now, GRACE), FLOOR)))
  }

  class Runtime {
    var deadline: Option<real>
    var graceUntil: Option<real>

    constructor ()
      ensures Now() == Bounds(None, None)
    {
      deadline, graceUntil := None, None;
    }

    function Now(): Bounds
      reads this
    {
      Bounds(deadline, graceUntil)
    }

    method SetDeadline(deadline: Option<real>)
      modifies this
      ensures Now() == Bounds(deadline, None)
    {
      this.deadline := deadline;
      graceUntil := None;
    }

    method BoundedTimeout(timeout: Option<real>, now: real) returns (r: Option<real>)
      modifies this
      ensures (Now(), r) == Allowed(old(Now()), timeout, now)
      ensures deadline == old(deadline)
      ensures old(deadline).None? ==> r == timeout && graceUntil == old(graceUntil)
      ensures old(deadline).Some? && now < old(deadline).value ==>
                && r.Some? && r.value <= old(deadline).value - now && (timeout.Some? ==> r.value <= timeout.value)
                && (r.value == old(deadline).value - now || r == timeout) && graceUntil == old(graceUntil)
      ensures old(deadline).Some? && now >= old(deadline).value ==>
                && graceUntil == (if old(graceUntil).None? then Some(now + GRACE) else old(graceUntil))
                && r.Some? && FLOOR <= r.value <= GRACE
                && (FLOOR <= graceUntil.value - now <= GRACE ==> r.value == graceUntil.value - now)
    {
      if deadline.None? {
        return timeout;
      }
      var remaining := deadline.value - now;
      if remaining > 0.0 {
        return Some(if timeout.None? then remaining else Min(timeout.value, remaining));
      }
      if graceUntil.None? {
        graceUntil := Some(now + GRACE);
      }
      var left := Min(graceUntil.value - now, GRACE);
      r := Some(Max(left, FLOOR));
    }
  }

  // ------------------------------------------------------ calls back to back

  // One call: the timeout it asks for and the time it takes.
  datatype Call = Call(timeout: Option<real>, taken: real)

  // Each call starts where the one before it ended, and takes no longer than it is
  // given.
  ghost predicate BackToBack(b: Bounds, now: real, calls: seq<Call>)
    decreases |calls|
  {
    calls != [] ==>
      && (var given := Allowed(b, calls[0].timeout, now).1;
          calls[0].taken >= 0.0 && (given.Some? ==> calls[0].taken <= given.value))
      && BackToBack(Allowed(b, calls[0].timeout, now).0, now + calls[0].taken, calls[1..])
  }

  // When the i-th call starts; for i the number of calls, when the last one ends.
  function StartOf(now: real, calls: seq<Call>, i: nat): real
    requires i <= |calls|
    decreases i
  {
    if i == 0 then now else StartOf(now + calls[0].taken, calls[1..], i - 1)
  }

  // The bounds under which the i-th call is made.
  function BoundsAt(b: Bounds, now: real, calls: seq<Call>, i: nat): Bounds
    requires i <= |calls|
    decreases i
  {
    if i == 0 then b else BoundsAt(Allowed(b, calls[0].timeout, now).0, now + calls[0].taken, calls[1..], i - 1)
  }

  lemma {:induction false} CallAt(b: Bounds, now: real, calls: seq<Call>, i: nat)
    requires BackToBack(b, now, calls) && i < |calls|
    ensures var given := Allowed(BoundsAt(b, now, calls, i), calls[i].timeout, StartOf(now, calls, i)).1;
            && calls[i].taken >= 0.0 && (given.Some? ==> calls[i].taken <= given.value)
    ensures StartOf(now, calls, i + 1) == StartOf(now, calls, i) + calls[i].taken
    ensures BoundsAt(b, now, calls, i + 1) ==
            Allowed(BoundsAt(b, now, calls, i), calls[i].timeout, StartOf(now, calls, i)).0
    decreases i
  {
    if i > 0 {
      CallAt(Allowed(b, calls[0].timeout, now).0, now + calls[0].taken, calls[1..], i - 1);
    }
  }

  lemma {:induction false} DeadlineStays(b: Bounds, now: real, calls: seq<Call>, i: nat)
    requires BackToBack(b, now, calls) && i <= |calls|
    ensures BoundsAt(b, now, calls, i).deadline == b.deadline
    ensures StartOf(now, calls, i) >= now
    ensures b.deadline.Some? && b.graceUntil.None?
            && (forall j :: 0 <= j < i ==> StartOf(now, calls, j) < b.deadline.value) ==>
              BoundsAt(b, now, calls, i).graceUntil.None?
    decreases i
  {
    if i > 0 {
      DeadlineStays(b, now, calls, i - 1);
      CallAt(b, now, calls, i - 1);
    }
  }

  // A call that starts before the deadline ends by it, whatever it asks for.
  lemma EndsByTheDeadline(deadline: real, now: real, calls: seq<Call>, i: nat)
    requires BackToBack(Bounds(Some(deadline), None), now, calls) && i < |calls|
    requires StartOf(now, calls, i) < deadline
    ensures StartOf(now, calls, i + 1) <= deadline
  {
    var b := Bounds(Some(deadline), None);
    CallAt(b, now, calls, i);
    DeadlineStays(b, now, calls, i);
  }

  // The late calls, counted from the first of them, share the one grace: the n-th
  // ends by its start plus the grace and a floor for each call after it.
  lemma {:induction false} LateCallsEnd(deadline: real, now: real, calls: seq<Call>, first: nat, i: nat)
    requires BackToBack(Bounds(Some(deadline), None), now, calls) && first <= i < |calls|
    requires StartOf(now, calls, first) >= deadline
    requires forall j :: 0 <= j < first ==> StartOf(now, calls, j) < deadline
    ensures var t0 := StartOf(now, calls, first);
            && StartOf(now, calls, i + 1) <= t0 + GRACE + FLOOR * (i - first) as real
            && StartOf(now, calls, i + 1) >= t0
            && BoundsAt(Bounds(Some(deadline), None), now, calls, i + 1).graceUntil == Some(t0 + GRACE)
    decreases i
  {
    var b := Bounds(Some(deadline), None);
    CallAt(b, now, calls, i);
    DeadlineStays(b, now, calls, i);
    if i > first {
      LateCallsEnd(deadline, now, calls, first, i - 1);
      assert FLOOR * (i - first) as real == FLOOR * (i - 1 - first) as real + FLOOR;
    } else {
      DeadlineStays(b, now, calls, first);
    }
  }

  // Put together: however many calls a run makes, and however late it was when it
  // was given the deadline, the n-th call past it ends within the grace, and n - 1
  // floors, of the later of the deadline and that moment.
  lemma RunEnds(deadline: real, now: real, calls: seq<Call>, first: nat, i: nat)
    requires BackToBack(Bounds(Some(deadline), None), now, calls) && first <= i < |calls|
    requires StartOf(now, calls, first) >= deadline
    requires forall j :: 0 <= j < first ==> StartOf(now, calls, j) < deadline
    ensures StartOf(now, calls, i + 1) <= Max(now, deadline) + GRACE + FLOOR * (i - first) as real
  {
    LateCallsEnd(deadline, now, calls, first, i);
    if first > 0 {
      EndsByTheDeadline(deadline, now, calls, first - 1);
    }
  }

  // n calls that each take all they are given, the first of them starting late.
  function Greedy(n: nat): seq<Call>
  {
    if n == 0 then [] else [Call(None, GRACE)] + Floors(n - 1)
  }

  function Floors(n: nat): (r: seq<Call>)
    ensures |r| == n
  {
    if n == 0 then [] else [Call(None, FLOOR)] + Floors(n - 1)
  }

  lemma {:induction false} FloorsRun(deadline: real, until: real, now: real, n: nat)
    requires now >= deadline && now >= until
    ensures BackToBack(Bounds(Some(deadline), Some(until)), now, Floors(n))
    ensures StartOf(now, Floors(n), n) == now + FLOOR * n as real
    decreases n
  {
    if n > 0 {
      FloorsRun(deadline, until, now + FLOOR, n - 1);
      assert Floors(n)[1..] == Floors(n - 1);
      assert FLOOR * n as real == FLOOR * (n - 1) as real + FLOOR;
    }
  }

  // The bound is met: such calls end exactly there, so no smaller one holds.
  lemma TheBoundIsMet(deadline: real, now: real, n: nat)
    requires now >= deadline && n > 0
    ensures BackToBack(Bounds(Some(deadline), None), now, Greedy(n)) && |Greedy(n)| == n
    ensures StartOf(now, Greedy(n), n) == now + GRACE + FLOOR * (n - 1) as real
  {
    FloorsRun(deadline, now + GRACE, now + GRACE, n - 1);
    assert Greedy(n)[1..] == Floors(n - 1);
  }
}

// Domain bracketing: a step turns on the domains it needs and gives back the ones
// it turned on, on a session that outlives it and that the caller also writes to.
module Domains {
  import opened Prelude

  type Domain = string

  const RUN_OWNED: set<Domain> := {"Page", "Runtime", "Network"}

  // One command of the session. raw marks the caller's own.
  datatype Command = Enable(domain: Domain, raw: bool) | Disable(domain: Domain, raw: bool)

  // Done; refused by the browser; an answer lost to a dropped connection or a
  // timeout; or a wait cut short by cancellation. Of the last two nobody knows
  // whether the browser acted.
  datatype Reply = Done | Refused | Lost(applied: bool) | Cut(applied: bool)
  {
    predicate TookEffect() {
      Done? || ((Lost? || Cut?) && applied)
    }
  }

  // What the browser answers to the n-th command.
  type Answers = (nat, Command) -> Reply

  // The enabled domains of one session, and every command it was sent.
  datatype World = World(on: set<Domain>, sent: seq<Command>)

  function Sent(w: World, c: Command, answers: Answers): World {
    World(if !answers(|w.sent|, c).TookEffect() then w.on
          else if c.Enable? then w.on + {c.domain} else w.on - {c.domain},
          w.sent + [c])
  }

  // ------------------------------------------------------------- one bracket

  // s without repeats, each element where it first stands.
  function Unique(s: seq<Domain>): (r: seq<Domain>)
    ensures Distinct(r) && forall d :: d in r <==> d in s
    decreases |s|
  {
    if s == [] then []
    else
      var r := Unique(s[..|s| - 1]);
      assert s == s[..|s| - 1] + [s[|s| - 1]];
      if s[|s| - 1] in r then r else r + [s[|s| - 1]]
  }

  // What enabling leads to: the session, the domains to give back, and whether a
  // failure other than a refusal stopped it.
  datatype Opened = Opened(world: World, turnedOn: seq<Domain>, raised: bool)

  function EnableAll(o: Opened, ds: seq<Domain>, mine: set<Domain>, answers: Answers): Opened
    decreases |ds|
  {
    if o.raised || ds == [] then o
    else
      var c := Enable(ds[0], false);
      var reply := answers(|o.world.sent|, c);
      EnableAll(Opened(Sent(o.world, c, answers),
                       if reply.Done? && ds[0] !in mine then o.turnedOn + [ds[0]] else o.turnedOn,
                       reply.Lost? || reply.Cut?),
                ds[1..], mine, answers)
  }

  function DisableAll(w: World, ds: seq<Domain>, answers: Answers): World
    decreases |ds|
  {
    if ds == [] then w
    else
      var c := Disable(ds[0], false);
      if answers(|w.sent|, c).Cut? then Sent(w, c, answers)
      else DisableAll(Sent(w, c, answers), ds[1..], answers)
  }

  function Bracketed(w: World, domains: seq<Domain>, keep: set<Domain>, answers: Answers): World {
    var o := EnableAll(Opened(w, [], false), Unique(domains), RUN_OWNED + keep, answers);
    DisableAll(o.world, Reverse(o.turnedOn), answers)
  }

  // The session, and the bracket as it runs.
  class Session {
    var on: set<Domain>
    var sent: seq<Command>
    const answers: Answers

    constructor (answers: Answers)
      ensures Now() == World({}, []) && this.answers == answers
    {
      on, sent := {}, [];
      this.answers := answers;
    }

    function Now(): World
      reads this
    {
      World(on, sent)
    }

    method Send(c: Command) returns (reply: Reply)
      modifies this
      ensures reply == answers(|old(sent)|, c) && Now() == Sent(old(Now()), c, answers)
    {
      reply := answers(|sent|, c);
      if reply.TookEffect() {
        on := if c.Enable? then on + {c.domain} else on - {c.domain};
      }
      sent := sent + [c];
    }

    // The body runs between the two loops; it sends no enable or disable itself.
    method DomainsEnabled(domains: seq<Domain>, keep: set<Domain>)
      modifies this
      ensures Now() == Bracketed(old(Now()), domains, keep, answers)
    {
      var mineToUndo := RUN_OWNED + keep;
      var turnedOn: seq<Domain> := [];
      var raised := false;
      var unique := FromKeys(domains);
      ghost var start := Opened(Now(), [], false);
      var i := 0;
      while i < |unique| && !raised
        invariant 0 <= i <= |unique|
        invariant EnableAll(Opened(Now(), turnedOn, raised), unique[i..], mineToUndo, answers) ==
                  EnableAll(start, unique, mineToUndo, answers)
      {
        assert unique[i..][1..] == unique[i + 1..];
        var reply := Send(Enable(unique[i], false));
        if reply.Done? && unique[i] !in mineToUndo {
          turnedOn := turnedOn + [unique[i]];
        }
        raised := reply.Lost? || reply.Cut?;
        i := i + 1;
      }
      var undo := Reverse(turnedOn);
      ghost var w := Now();
      var cut := false;
      var j := 0;
      while j < |undo| && !cut
        invariant 0 <= j <= |undo|
        invariant (if cut then Now() else DisableAll(Now(), undo[j..], answers)) == DisableAll(w, undo, answers)
      {
        assert undo[j..][1..] == undo[j + 1..];
        var reply := Send(Disable(undo[j], false));
        cut := reply.Cut?;
        j := j + 1;
      }
    }

    method FromKeys(domains: seq<Domain>) returns (unique: seq<Domain>)
      ensures unique == Unique(domains)
    {
      unique := [];
      for i := 0 to |domains|
        invariant unique == Unique(domains[..i])
      {
        assert domains[..i + 1][..i] == domains[..i];
        if domains[i] !in unique {
          unique := unique + [domains[i]];
        }
      }
      assert domains[..|domains|] == domains;
    }
  }

  // ------------------------------------------------------------------- a run

  datatype Act = Raw(call: string) | Step(domains: seq<Domain>)

  // caller is what the caller's own steps have turned on by name.
  datatype Run = Run(world: World, caller: set<Domain>)

  function Recorded(caller: set<Domain>, call: string): set<Domain> {
    var (domain, verb) := Partition(call, '.');
    if verb == Some("enable") && domain != "" then caller + {domain} else caller
  }

  // A raw step is recorded before it is sent; one that would turn off a domain of
  // the run is refused and not sent.
  function Acted(r: Run, a: Act, answers: Answers): Run {
    match a
    case Raw(call) =>
      var (domain, verb) := Partition(call, '.');
      var caller := Recorded(r.caller, call);
      if verb == Some("enable") && domain != "" then Run(Sent(r.world, Enable(domain, true), answers), caller)
      else if verb == Some("disable") && domain !in RUN_OWNED then
        Run(Sent(r.world, Disable(domain, true), answers), caller)
      else Run(r.world, caller)
    case Step(domains) => Run(Bracketed(r.world, domains, r.caller, answers), r.caller)
  }

  function ActedAll(r: Run, acts: seq<Act>, answers: Answers): Run
    decreases |acts|
  {
    if acts == [] then r else ActedAll(Acted(r, acts[0], answers), acts[1..], answers)
  }

  const START: Run := Run(World({}, []), {})

  // ------------------------------------------- nothing of the caller's is undone

  // No command of w after n is the caller's; every disable among them is of a
  // domain outside mine that was turned on among them.
  ghost predicate BracketTail(sent: seq<Command>, n: nat, mine: set<Domain>) {
    && n <= |sent|
    && forall i :: n <= i < |sent| ==>
         && !sent[i].raw
         && (sent[i].Disable? ==> sent[i].domain !in mine && TurnedOn(sent, n, i, sent[i].domain))
  }

  ghost predicate TurnedOn(sent: seq<Command>, n: nat, i: nat, d: Domain) {
    exists j :: n <= j < i && j < |sent| && sent[j] == Enable(d, false)
  }

  lemma TurnedOnMore(sent: seq<Command>, more: seq<Command>, n: nat, i: nat, i': nat, d: Domain)
    requires TurnedOn(sent, n, i, d) && i <= i'
    ensures TurnedOn(sent + more, n, i', d)
  {
    var j :| n <= j < i && j < |sent| && sent[j] == Enable(d, false);
    assert (sent + more)[j] == sent[j];
  }

  lemma {:induction false} EnableTail(o: Opened, ds: seq<Domain>, mine: set<Domain>, answers: Answers, n: nat)
    requires BracketTail(o.world.sent, n, mine)
    requires forall d :: d in o.turnedOn ==> d !in mine && TurnedOn(o.world.sent, n, |o.world.sent|, d)
    ensures var r := EnableAll(o, ds, mine, answers);
            && BracketTail(r.world.sent, n, mine)
            && o.world.sent <= r.world.sent
            && forall d :: d in r.turnedOn ==> d !in mine && TurnedOn(r.world.sent, n, |r.world.sent|, d)
    decreases |ds|
  {
    if !o.raised && ds != [] {
      var c := Enable(ds[0], false);
      var sent := o.world.sent + [c];
      TailMore(o.world.sent, c, n, mine);
      forall d | d in o.turnedOn ensures TurnedOn(sent, n, |sent|, d) {
        TurnedOnMore(o.world.sent, [c], n, |o.world.sent|, |sent|, d);
      }
      assert TurnedOn(sent, n, |sent|, ds[0]) by { assert sent[|o.world.sent|] == c; }
      var reply := answers(|o.world.sent|, c);
      EnableTail(Opened(Sent(o.world, c, answers),
                        if reply.Done? && ds[0] !in mine then o.turnedOn + [ds[0]] else o.turnedOn,
                        reply.Lost? || reply.Cut?),
                 ds[1..], mine, answers, n);
    }
  }

  lemma TailMore(sent: seq<Command>, c: Command, n: nat, mine: set<Domain>)
    requires BracketTail(sent, n, mine) && !c.raw
    requires c.Disable? ==> c.domain !in mine && TurnedOn(sent, n, |sent|, c.domain)
    ensures BracketTail(sent + [c], n, mine)
  {
    var all := sent + [c];
    forall i | n <= i < |all| && all[i].Disable? ensures TurnedOn(all, n, i, all[i].domain) {
      TurnedOnMore(sent, [c], n, i, i, all[i].domain);
    }
  }

  lemma {:induction false} DisableTail(w: World, ds: seq<Domain>, mine: set<Domain>, answers: Answers, n: nat)
    requires BracketTail(w.sent, n, mine)
    requires forall d :: d in ds ==> d !in mine && TurnedOn(w.sent, n, |w.sent|, d)
    ensures BracketTail(DisableAll(w, ds, answers).sent, n, mine) && w.sent <= DisableAll(w, ds, answers).sent
    decreases |ds|
  {
    if ds != [] {
      var c := Disable(ds[0], false);
      TailMore(w.sent, c, n, mine);
      var w' := Sent(w, c, answers);
      assert w'.sent == w.sent + [c];
      forall d | d in ds[1..] ensures d !in mine && TurnedOn(w'.sent, n, |w'.sent|, d) {
        assert d in ds;
        TurnedOnMore(w.sent, [c], n, |w.sent|, |w'.sent|, d);
      }
      DisableTail(w', ds[1..], mine, answers, n);
    }
  }

  lemma BracketTails(w: World, domains: seq<Domain>, keep: set<Domain>, answers: Answers)
    ensures var r := Bracketed(w, domains, keep, answers);
            w.sent <= r.sent && BracketTail(r.sent, |w.sent|, RUN_OWNED + keep)
  {
    var o := EnableAll(Opened(w, [], false), Unique(domains), RUN_OWNED + keep, answers);
    EnableTail(Opened(w, [], false), Unique(domains), RUN_OWNED + keep, answers, |w.sent|);
    DisableTail(o.world, Reverse(o.turnedOn), RUN_OWNED + keep, answers, |w.sent|);
  }

  // The caller's own enables are all recorded, and no bracket has undone one, nor
  // anything the run owns, nor anything it had not itself turned on since the
  // caller last wrote to the session.
  ghost predicate Respectful(sent: seq<Command>, caller: set<Domain>) {
    && (forall k :: 0 <= k < |sent| && sent[k].raw && sent[k].Enable? ==> sent[k].domain in caller)
    && (forall i :: 0 <= i < |sent| && !sent[i].raw && sent[i].Disable? ==> Rightful(sent, i))
  }

  ghost predicate Rightful(sent: seq<Command>, i: nat)
    requires i < |sent|
  {
    && sent[i].domain !in RUN_OWNED
    && (forall k :: 0 <= k < i ==> sent[k] != Enable(sent[i].domain, true))
    && exists j :: 0 <= j < i && sent[j] == Enable(sent[i].domain, false) && forall k :: j <= k <= i ==> !sent[k].raw
  }

  lemma RightfulMore(sent: seq<Command>, all: seq<Command>, i: nat)
    requires sent <= all && i < |sent| && Rightful(sent, i)
    ensures Rightful(all, i)
  {
    var j :| 0 <= j < i && sent[j] == Enable(sent[i].domain, false) && forall k :: j <= k <= i ==> !sent[k].raw;
    assert all[j] == sent[j] && forall k :: j <= k <= i ==> all[k] == sent[k];
  }

  lemma StepRespects(r: Run, domains: seq<Domain>, answers: Answers)
    requires Respectful(r.world.sent, r.caller)
    ensures Respectful(Acted(r, Step(domains), answers).world.sent, r.caller)
  {
    hide Bracketed, Rightful;
    var sent, all := r.world.sent, Bracketed(r.world, domains, r.caller, answers).sent;
    BracketTails(r.world, domains, r.caller, answers);
    forall i | 0 <= i < |all| && !all[i].raw && all[i].Disable? ensures Rightful(all, i) {
      if i < |sent| {
        RightfulMore(sent, all, i);
      } else {
        TailRightful(sent, all, i, r.caller);
      }
    }
  }

  lemma TailRightful(sent: seq<Command>, all: seq<Command>, i: nat, caller: set<Domain>)
    requires Respectful(sent, caller) && sent <= all && BracketTail(all, |sent|, RUN_OWNED + caller)
    requires |sent| <= i < |all| && all[i].Disable?
    ensures Rightful(all, i)
  {
    var j :| |sent| <= j < i && j < |all| && all[j] == Enable(all[i].domain, false);
    forall k | 0 <= k < i ensures all[k] != Enable(all[i].domain, true) {
      if k < |sent| { assert all[k] == sent[k]; }
    }
  }

  lemma RawRespects(r: Run, call: string, answers: Answers)
    requires Respectful(r.world.sent, r.caller)
    ensures var r' := Acted(r, Raw(call), answers); Respectful(r'.world.sent, r'.caller)
  {
    hide Rightful;
    var r' := Acted(r, Raw(call), answers);
    forall i | 0 <= i < |r'.world.sent| && !r'.world.sent[i].raw && r'.world.sent[i].Disable?
      ensures Rightful(r'.world.sent, i)
    {
      RightfulMore(r.world.sent, r'.world.sent, i);
    }
  }

  lemma {:induction false} RunRespects(r: Run, acts: seq<Act>, answers: Answers)
    requires Respectful(r.world.sent, r.caller)
    ensures var r' := ActedAll(r, acts, answers); Respectful(r'.world.sent, r'.caller)
    decreases |acts|
  {
    if acts != [] {
      match acts[0] {
        case Raw(call) => RawRespects(r, call, answers);
        case Step(domains) => StepRespects(r, domains, answers);
      }
      RunRespects(Acted(r, acts[0], answers), acts[1..], answers);
    }
  }

  // Over every run, whatever the browser answers: no disable a bracket sends is of
  // a domain the run owns or the caller has turned on.
  lemma NeverUndoesTheCaller(acts: seq<Act>, answers: Answers, i: nat, k: nat)
    requires var sent := ActedAll(START, acts, answers).world.sent;
             k < i < |sent| && sent[i].Disable? && !sent[i].raw
    ensures var sent := ActedAll(START, acts, answers).world.sent;
            sent[i].domain !in RUN_OWNED && sent[k] != Enable(sent[i].domain, true)
  {
    RunRespects(START, acts, answers);
    assert Rightful(ActedAll(START, acts, answers).world.sent, i);
  }

  // ---------------------------------------------------------- off between steps

  // The n-th command turned a domain outside mine on without saying so: its answer
  // was lost, or the wait for it cut, after the browser had acted.
  predicate Unnoticed(sent: seq<Command>, n: nat, mine: set<Domain>, answers: Answers)
    requires n < |sent|
  {
    var c, reply := sent[n], answers(n, sent[n]);
    c.Enable? && !c.raw && c.domain !in mine && reply.TookEffect() && !reply.Done?
  }

  predicate NothingUnnoticed(sent: seq<Command>, from: nat, mine: set<Domain>, answers: Answers) {
    forall n :: from <= n < |sent| ==> !Unnoticed(sent, n, mine, answers)
  }

  // Every disable sent from then on took effect and said so.
  predicate DisablesWork(sent: seq<Command>, from: nat, answers: Answers) {
    forall n :: from <= n < |sent| && sent[n].Disable? && !sent[n].raw ==> answers(n, sent[n]).Done?
  }

  // Enabling leaves on, beyond mine and the list to give back, exactly a domain
  // whose enable went unnoticed; and nothing else is done after that one.
  lemma {:induction false} EnableUnnoticed(o: Opened, ds: seq<Domain>, mine: set<Domain>, answers: Answers)
    requires Distinct(ds) && forall d :: d in ds ==> d !in o.turnedOn
    requires !o.raised && o.world.on <= mine + Elems(o.turnedOn)
    ensures var r := EnableAll(o, ds, mine, answers);
            && o.world.sent <= r.world.sent
            && (forall n :: |o.world.sent| <= n < |r.world.sent| ==> r.world.sent[n].Enable?)
            && (r.world.on <= mine + Elems(r.turnedOn)
                <==> NothingUnnoticed(r.world.sent, |o.world.sent|, mine, answers))
    decreases |ds|
  {
    if ds == [] {
    } else {
      var c := Enable(ds[0], false);
      var reply := answers(|o.world.sent|, c);
      var next := Opened(Sent(o.world, c, answers),
                         if reply.Done? && ds[0] !in mine then o.turnedOn + [ds[0]] else o.turnedOn,
                         reply.Lost? || reply.Cut?);
      var r := EnableAll(next, ds[1..], mine, answers);
      assert r == EnableAll(o, ds, mine, answers);
      if next.raised {
        assert r == next && r.world.sent == o.world.sent + [c];
        assert Unnoticed(r.world.sent, |o.world.sent|, mine, answers) <==> reply.TookEffect() && ds[0] !in mine;
      } else {
        assert ds[0] !in ds[1..];
        EnableUnnoticed(next, ds[1..], mine, answers);
        assert next.world.sent == o.world.sent + [c];
        assert r.world.sent[|o.world.sent|] == c;
        assert !Unnoticed(r.world.sent, |o.world.sent|, mine, answers);
      }
    }
  }

  lemma {:induction false} DisableClears(w: World, ds: seq<Domain>, answers: Answers)
    ensures var r := DisableAll(w, ds, answers);
            && w.sent <= r.sent
            && (forall n :: |w.sent| <= n < |r.sent| ==> r.sent[n].Disable? && !r.sent[n].raw)
            && (DisablesWork(r.sent, |w.sent|, answers) ==> r.on == w.on - Elems(ds))
    decreases |ds|
  {
    if ds == [] {
    } else {
      var c := Disable(ds[0], false);
      var w', r := Sent(w, c, answers), DisableAll(w, ds, answers);
      assert w'.sent == w.sent + [c];
      if !answers(|w.sent|, c).Cut? {
        DisableClears(w', ds[1..], answers);
      }
      assert r.sent[|w.sent|] == c;
    }
  }

  // One bracket, begun with nothing on that is not the run's or the caller's, whose
  // disables work: it ends that way if and only if none of its enables went
  // unnoticed.
  lemma BracketTidyIff(w: World, domains: seq<Domain>, keep: set<Domain>, answers: Answers)
    requires w.on <= RUN_OWNED + keep
    requires DisablesWork(Bracketed(w, domains, keep, answers).sent, |w.sent|, answers)
    ensures var r := Bracketed(w, domains, keep, answers);
            r.on <= RUN_OWNED + keep <==> NothingUnnoticed(r.sent, |w.sent|, RUN_OWNED + keep, answers)
  {
    var mine := RUN_OWNED + keep;
    var start := Opened(w, [], false);
    var o := EnableAll(start, Unique(domains), mine, answers);
    EnableUnnoticed(start, Unique(domains), mine, answers);
    EnableTail(start, Unique(domains), mine, answers, |w.sent|);
    var undo := Reverse(o.turnedOn);
    DisableClears(o.world, undo, answers);
    ReverseElems(o.turnedOn);
    var r := DisableAll(o.world, undo, answers);
    assert r.on == o.world.on - Elems(o.turnedOn);
    forall n | |w.sent| <= n < |r.sent| ensures Unnoticed(r.sent, n, mine, answers) <==>
        n < |o.world.sent| && Unnoticed(o.world.sent, n, mine, answers) {
      if n < |o.world.sent| { assert r.sent[n] == o.world.sent[n]; }
    }
  }

  lemma ReverseElems(s: seq<Domain>)
    ensures Elems(Reverse(s)) == Elems(s)
  {
    forall d | d in s ensures d in Reverse(s) {
      var i :| 0 <= i < |s| && s[i] == d;
      assert Reverse(s)[|s| - 1 - i] == d;
    }
  }

  // ------------------------------------------------------------- over runs

  // Only what the run owns and what the caller turned on is on.
  predicate Tidy(r: Run) { r.world.on <= RUN_OWNED + r.caller }

  // After each step of the run.
  predicate AlwaysTidy(r: Run, acts: seq<Act>, answers: Answers)
    decreases |acts|
  {
    Tidy(r) && (acts != [] ==> AlwaysTidy(Acted(r, acts[0], answers), acts[1..], answers))
  }

  predicate NoneUnnoticed(r: Run, acts: seq<Act>, answers: Answers)
    decreases |acts|
  {
    acts != [] ==>
      var r' := Acted(r, acts[0], answers);
      && (acts[0].Step? ==> NothingUnnoticed(r'.world.sent, |r.world.sent|, RUN_OWNED + r.caller, answers))
      && NoneUnnoticed(r', acts[1..], answers)
  }

  predicate AllDisablesWork(r: Run, acts: seq<Act>, answers: Answers)
    decreases |acts|
  {
    acts != [] ==>
      var r' := Acted(r, acts[0], answers);
      && (acts[0].Step? ==> DisablesWork(r'.world.sent, |r.world.sent|, answers))
      && AllDisablesWork(r', acts[1..], answers)
  }

  lemma {:induction false} RunTidyIff(r: Run, acts: seq<Act>, answers: Answers)
    requires Tidy(r) && AllDisablesWork(r, acts, answers)
    ensures AlwaysTidy(r, acts, answers) <==> NoneUnnoticed(r, acts, answers)
    decreases |acts|
  {
    if acts == [] {
      assert AlwaysTidy(r, acts, answers);
    } else {
      var r' := Acted(r, acts[0], answers);
      if acts[0].Step? {
        BracketTidyIff(r.world, acts[0].domains, r.caller, answers);
      }
      if Tidy(r') {
        RunTidyIff(r', acts[1..], answers);
      } else {
        assert !AlwaysTidy(r', acts[1..], answers);
      }
    }
  }

  // Over a run whose disables all work: every step finds every domain off that is
  // neither the run's nor the caller's, so that its enable is a first enable, if
  // and only if no enable of an earlier step went unnoticed. Working disables alone
  // do not give it.
  lemma EveryEnableIsFirst(acts: seq<Act>, answers: Answers)
    requires AllDisablesWork(START, acts, answers)
    ensures AlwaysTidy(START, acts, answers) <==> NoneUnnoticed(START, acts, answers)
  {
    RunTidyIff(START, acts, answers);
  }

  // An enable that goes unnoticed leaves its domain on behind the bracket, whatever
  // was sent before, and no disable of that bracket names it.
  lemma LostEnableStaysOn(r: Run, domains: seq<Domain>, answers: Answers, n: nat)
    requires Tidy(r)
    requires var r' := Acted(r, Step(domains), answers);
             && DisablesWork(r'.world.sent, |r.world.sent|, answers)
             && |r.world.sent| <= n < |r'.world.sent|
             && Unnoticed(r'.world.sent, n, RUN_OWNED + r.caller, answers)
    ensures !Tidy(Acted(r, Step(domains), answers))
  {
    BracketTidyIff(r.world, domains, r.caller, answers);
  }

  lemma LogBracket(answers: Answers)
    requires answers(0, Enable("Log", false)) == Lost(true)
    ensures Bracketed(START.world, ["Log"], {}, answers) == World({"Log"}, [Enable("Log", false)])
  {
    UniqueOne("Log");
    EnableLost(World({}, []), "Log", RUN_OWNED + {}, answers);
    hide EnableAll, Unique;
    assert Reverse<Domain>([]) == [];
  }

  lemma UniqueOne(d: Domain)
    ensures Unique([d]) == [d]
  {
    assert [d][..0] == [];
    assert Unique([]) == [];
  }

  lemma EnableLost(w: World, d: Domain, mine: set<Domain>, answers: Answers)
    requires answers(|w.sent|, Enable(d, false)) == Lost(true)
    ensures EnableAll(Opened(w, [], false), [d], mine, answers) ==
            Opened(World(w.on + {d}, w.sent + [Enable(d, false)]), [], true)
  {
    assert [d][1..] == [];
  }

  // Such a run: one step, every disable there is working, and Log left on.
  lemma LostLogStaysOn(answers: Answers)
    requires answers(0, Enable("Log", false)) == Lost(true)
    ensures AllDisablesWork(START, [Step(["Log"])], answers)
    ensures "Log" in ActedAll(START, [Step(["Log"])], answers).world.on
  {
    hide Bracketed;
    LogBracket(answers);
    var acts := [Step(["Log"])];
    assert acts[1..] == [];
    assert Acted(START, acts[0], answers).world == World({"Log"}, [Enable("Log", false)]);
    assert ActedAll(START, acts, answers) == ActedAll(Acted(START, acts[0], answers), [], answers);
  }

  // ------------------------------------------------------------ what is asked for

  // An enable from the n-th command on was lost or cut short, which stops a bracket.
  predicate Halted(sent: seq<Command>, n: nat, answers: Answers) {
    exists i :: n <= i < |sent| && sent[i].Enable? && (answers(i, sent[i]).Lost? || answers(i, sent[i]).Cut?)
  }

  // A disable was cut short, which stops the giving back.
  predicate Severed(sent: seq<Command>, n: nat, answers: Answers) {
    exists i :: n <= i < |sent| && sent[i].Disable? && answers(i, sent[i]).Cut?
  }

  ghost predicate GivenBack(sent: seq<Command>, j: nat, d: Domain) {
    exists i :: j < i < |sent| && sent[i] == Disable(d, false)
  }

  lemma HaltedMore(sent: seq<Command>, all: seq<Command>, n: nat, answers: Answers)
    requires sent <= all && Halted(sent, n, answers)
    ensures Halted(all, n, answers)
  {
    var i :| n <= i < |sent| && sent[i].Enable? && (answers(i, sent[i]).Lost? || answers(i, sent[i]).Cut?);
    assert all[i] == sent[i];
  }

  lemma AskedMore(sent: seq<Command>, all: seq<Command>, n: nat, d: Domain)
    requires sent <= all && TurnedOn(sent, n, |sent|, d)
    ensures TurnedOn(all, n, |all|, d)
  {
    assert all == sent + all[|sent|..];
    TurnedOnMore(sent, all[|sent|..], n, |sent|, |all|, d);
  }

  // The enabling loop asks for each of its domains until one is lost or cut short, and
  // will give back each that it was told it turned on, its own to undo.
  lemma {:induction false} EnableAsks(o: Opened, ds: seq<Domain>, mine: set<Domain>, answers: Answers, n: nat)
    requires n <= |o.world.sent| && (o.raised ==> Halted(o.world.sent, n, answers))
    requires forall j :: n <= j < |o.world.sent| ==> ToGiveBack(o, j, mine, answers)
    ensures var r := EnableAll(o, ds, mine, answers);
            && o.world.sent <= r.world.sent
            && (forall d :: d in ds ==>
                  TurnedOn(r.world.sent, n, |r.world.sent|, d) || Halted(r.world.sent, n, answers))
            && (forall j :: n <= j < |r.world.sent| ==> ToGiveBack(r, j, mine, answers))
    decreases |ds|
  {
    if o.raised || ds == [] {
      assert EnableAll(o, ds, mine, answers) == o;
    } else {
      var c, here := Enable(ds[0], false), |o.world.sent|;
      var reply := answers(here, c);
      var next := Opened(Sent(o.world, c, answers),
                         if reply.Done? && ds[0] !in mine then o.turnedOn + [ds[0]] else o.turnedOn,
                         reply.Lost? || reply.Cut?);
      assert next.world.sent == o.world.sent + [c] && next.world.sent[here] == c;
      forall j | n <= j < |next.world.sent| ensures ToGiveBack(next, j, mine, answers) {
        if j < here { assert ToGiveBack(o, j, mine, answers); }
      }
      EnableAsks(next, ds[1..], mine, answers, n);
      var r := EnableAll(next, ds[1..], mine, answers);
      assert TurnedOn(next.world.sent, n, |next.world.sent|, ds[0]);
      AskedMore(next.world.sent, r.world.sent, n, ds[0]);
      assert forall d :: d in ds ==> d == ds[0] || d in ds[1..];
    }
  }

  // The j-th command is an enable that was answered, of a domain that is the
  // bracket's to undo.
  predicate ToUndo(sent: seq<Command>, j: nat, mine: set<Domain>, answers: Answers)
    requires j < |sent|
  {
    sent[j].Enable? && answers(j, sent[j]).Done? && sent[j].domain !in mine
  }

  // The domain of such a command is on the list of what the bracket will give back.
  ghost predicate ToGiveBack(o: Opened, j: nat, mine: set<Domain>, answers: Answers)
    requires j < |o.world.sent|
  {
    ToUndo(o.world.sent, j, mine, answers) ==> o.world.sent[j].domain in o.turnedOn
  }

  lemma {:induction false} DisableGives(w: World, ds: seq<Domain>, answers: Answers, n: nat, j: nat)
    requires n <= |w.sent| && j < |w.sent|
    ensures var r := DisableAll(w, ds, answers);
            && w.sent <= r.sent
            && (forall i :: |w.sent| <= i < |r.sent| ==> r.sent[i].Disable?)
            && (forall d :: d in ds ==> GivenBack(r.sent, j, d) || Severed(r.sent, n, answers))
    decreases |ds|
  {
    if ds == [] {
      assert DisableAll(w, ds, answers) == w;
    } else {
      var c, here := Disable(ds[0], false), |w.sent|;
      var w' := Sent(w, c, answers);
      assert w'.sent == w.sent + [c] && w'.sent[here] == c;
      if !answers(here, c).Cut? {
        DisableGives(w', ds[1..], answers, n, j);
        var r := DisableAll(w', ds[1..], answers);
        assert r.sent[here] == c;
        assert GivenBack(r.sent, j, ds[0]);
        assert forall d :: d in ds ==> d == ds[0] || d in ds[1..];
      } else {
        assert Severed(w'.sent, n, answers);
      }
    }
  }

  // One bracket, whatever is answered. Every domain asked for is sent an enable,
  // unless one that was lost or cut short stopped it; and every enable that was
  // answered, of a domain neither the run's nor the caller's, is followed by the
  // disable of it, unless a disable that was cut short stopped that.
  lemma BracketAsksAndGivesBack(w: World, domains: seq<Domain>, keep: set<Domain>, answers: Answers)
    ensures var r, n := Bracketed(w, domains, keep, answers), |w.sent|;
            && (forall d :: d in domains ==> TurnedOn(r.sent, n, |r.sent|, d) || Halted(r.sent, n, answers))
            && (forall j :: n <= j < |r.sent| && ToUndo(r.sent, j, RUN_OWNED + keep, answers) ==>
                  GivenBack(r.sent, j, r.sent[j].domain) || Severed(r.sent, n, answers))
  {
    var mine, n := RUN_OWNED + keep, |w.sent|;
    var o := EnableAll(Opened(w, [], false), Unique(domains), mine, answers);
    var r := Bracketed(w, domains, keep, answers);
    EnableAsks(Opened(w, [], false), Unique(domains), mine, answers, n);
    hide EnableAll, DisableAll, TurnedOn, Halted, Severed, GivenBack;
    SentGrows(o.world, Reverse(o.turnedOn), answers);
    forall d | d in domains ensures TurnedOn(r.sent, n, |r.sent|, d) || Halted(r.sent, n, answers) {
      if Halted(o.world.sent, n, answers) {
        HaltedMore(o.world.sent, r.sent, n, answers);
      } else {
        AskedMore(o.world.sent, r.sent, n, d);
      }
    }
    forall j | n <= j < |r.sent| && ToUndo(r.sent, j, mine, answers)
      ensures GivenBack(r.sent, j, r.sent[j].domain) || Severed(r.sent, n, answers)
    {
      assert j < |o.world.sent| && r.sent[j] == o.world.sent[j];
      assert ToGiveBack(o, j, mine, answers);
      assert r.sent[j].domain in o.turnedOn;
      var k :| 0 <= k < |o.turnedOn| && o.turnedOn[k] == r.sent[j].domain;
      assert Reverse(o.turnedOn)[|o.turnedOn| - 1 - k] == o.turnedOn[k];
      DisableGives(o.world, Reverse(o.turnedOn), answers, n, j);
    }
  }

  lemma {:induction false} SentGrows(w: World, ds: seq<Domain>, answers: Answers)
    ensures var r := DisableAll(w, ds, answers);
            w.sent <= r.sent && forall i :: |w.sent| <= i < |r.sent| ==> r.sent[i].Disable?
    decreases |ds|
  {
    if ds == [] {
      assert DisableAll(w, ds, answers) == w;
    } else {
      var w' := Sent(w, Disable(ds[0], false), answers);
      assert w'.sent == w.sent + [Disable(ds[0], false)];
      if !answers(|w.sent|, Disable(ds[0], false)).Cut? { SentGrows(w', ds[1..], answers); }
    }
  }

  // ------------------------------------------------------------ in which order

  // Where d first stands in s.
  function FirstAt(s: seq<Domain>, d: Domain): (i: nat)
    ensures i <= |s| && (i < |s| ==> s[i] == d) && forall j :: 0 <= j < i ==> s[j] != d
  {
    if s == [] || s[0] == d then 0 else 1 + FirstAt(s[1..], d)
  }

  ghost predicate Before(all: seq<Domain>, a: Domain, b: Domain) {
    FirstAt(all, a) < FirstAt(all, b)
  }

  ghost predicate Rising(all: seq<Domain>, s: seq<Domain>) {
    forall i, j :: 0 <= i < j < |s| ==> Before(all, s[i], s[j])
  }

  // From n on: the enables in the order in which the domains were named, each once,
  // and the disables in the opposite order.
  ghost predicate InOrder(all: seq<Domain>, sent: seq<Command>, n: nat) {
    && (forall i, j :: n <= i < j < |sent| && sent[i].Enable? && sent[j].Enable? ==>
          Before(all, sent[i].domain, sent[j].domain))
    && (forall i, j :: n <= i < j < |sent| && sent[i].Disable? && sent[j].Disable? ==>
          Before(all, sent[j].domain, sent[i].domain))
  }

  lemma FirstStays(s: seq<Domain>, more: seq<Domain>, d: Domain)
    ensures d in s ==> FirstAt(s + more, d) == FirstAt(s, d) < |s|
    ensures d !in s ==> FirstAt(s + more, d) >= |s|
  {
    if d in s {
      var i := FirstAt(s, d);
      assert i < |s| && (s + more)[i] == d;
      assert forall j :: 0 <= j < i ==> (s + more)[j] == s[j];
    } else {
      assert forall j :: 0 <= j < |s| ==> (s + more)[j] == s[j];
    }
  }

  lemma {:induction false} UniqueRises(s: seq<Domain>)
    ensures Rising(s, Unique(s))
    decreases |s|
  {
    if s != [] {
      var init, last := s[..|s| - 1], s[|s| - 1];
      assert s == init + [last];
      UniqueRises(init);
      var u := Unique(init);
      forall i, j | 0 <= i < j < |Unique(s)| ensures Before(s, Unique(s)[i], Unique(s)[j]) {
        FirstStays(init, [last], Unique(s)[i]);
        FirstStays(init, [last], Unique(s)[j]);
        if j < |u| { assert Before(init, u[i], u[j]); }
      }
    }
  }

  // The enabling loop, its commands from n on and what is left of it in order.
  ghost predicate Enabling(all: seq<Domain>, o: Opened, ds: seq<Domain>, n: nat) {
    && (forall i :: n <= i < |o.world.sent| ==> o.world.sent[i].Enable?)
    && InOrder(all, o.world.sent, n)
    && Rising(all, o.turnedOn + ds)
    && (forall i, j :: n <= i < |o.world.sent| && 0 <= j < |ds| ==> Before(all, o.world.sent[i].domain, ds[j]))
  }

  lemma EnablingStep(all: seq<Domain>, o: Opened, ds: seq<Domain>, n: nat, next: Opened)
    requires Enabling(all, o, ds, n) && ds != []
    requires next.world.sent == o.world.sent + [Enable(ds[0], false)]
    requires next.turnedOn == o.turnedOn + [ds[0]] || next.turnedOn == o.turnedOn
    ensures Enabling(all, next, ds[1..], n)
  {
    var rest, was := next.turnedOn + ds[1..], o.turnedOn + ds;
    forall k | 0 <= k < |ds[1..]| ensures ds[1..][k] == ds[k + 1] && Before(all, ds[0], ds[k + 1]) {
      assert was[|o.turnedOn|] == ds[0] && was[|o.turnedOn| + k + 1] == ds[k + 1];
    }
    forall i, j | 0 <= i < j < |rest| ensures Before(all, rest[i], rest[j]) {
      var shift := if next.turnedOn == o.turnedOn then 1 else 0;
      var i', j' := if i < |next.turnedOn| then i else i + shift, if j < |next.turnedOn| then j else j + shift;
      assert was[i'] == rest[i] && was[j'] == rest[j];
    }
  }

  lemma {:induction false} EnablesInOrder(all: seq<Domain>, o: Opened, ds: seq<Domain>, mine: set<Domain>,
                                          answers: Answers, n: nat)
    requires Enabling(all, o, ds, n)
    ensures Enabling(all, EnableAll(o, ds, mine, answers), [], n)
    decreases |ds|
  {
    if o.raised || ds == [] {
      assert EnableAll(o, ds, mine, answers) == o;
      forall i, j | 0 <= i < j < |o.turnedOn + []| ensures Before(all, (o.turnedOn + [])[i], (o.turnedOn + [])[j]) {
        assert (o.turnedOn + ds)[i] == o.turnedOn[i] && (o.turnedOn + ds)[j] == o.turnedOn[j];
      }
    } else {
      hide Enabling;
      var c := Enable(ds[0], false);
      var reply := answers(|o.world.sent|, c);
      var next := Opened(Sent(o.world, c, answers),
                         if reply.Done? && ds[0] !in mine then o.turnedOn + [ds[0]] else o.turnedOn,
                         reply.Lost? || reply.Cut?);
      EnablingStep(all, o, ds, n, next);
      EnablesInOrder(all, next, ds[1..], mine, answers, n);
    }
  }

  // The giving back: what is left of it comes before all that was given back so far.
  ghost predicate Returning(all: seq<Domain>, sent: seq<Command>, ds: seq<Domain>, n: nat) {
    && InOrder(all, sent, n)
    && (forall i, j :: 0 <= i < j < |ds| ==> Before(all, ds[j], ds[i]))
    && (forall i, j :: n <= i < |sent| && sent[i].Disable? && 0 <= j < |ds| ==> Before(all, ds[j], sent[i].domain))
  }

  lemma ReturningStep(all: seq<Domain>, sent: seq<Command>, ds: seq<Domain>, n: nat)
    requires Returning(all, sent, ds, n) && ds != []
    ensures Returning(all, sent + [Disable(ds[0], false)], ds[1..], n)
  {
    assert forall k :: 0 <= k < |ds[1..]| ==> ds[1..][k] == ds[k + 1];
  }

  lemma {:induction false} DisablesInOrder(all: seq<Domain>, w: World, ds: seq<Domain>, answers: Answers, n: nat)
    requires Returning(all, w.sent, ds, n)
    ensures InOrder(all, DisableAll(w, ds, answers).sent, n)
    decreases |ds|
  {
    if ds != [] {
      ReturningStep(all, w.sent, ds, n);
      hide Returning, InOrder;
      var next := Sent(w, Disable(ds[0], false), answers);
      assert next.sent == w.sent + [Disable(ds[0], false)];
      if answers(|w.sent|, Disable(ds[0], false)).Cut? {
        ReturnedInOrder(all, next.sent, ds[1..], n);
      } else {
        DisablesInOrder(all, next, ds[1..], answers, n);
      }
    }
  }

  lemma ReturnedInOrder(all: seq<Domain>, sent: seq<Command>, ds: seq<Domain>, n: nat)
    requires Returning(all, sent, ds, n)
    ensures InOrder(all, sent, n)
  {
  }

  // Whatever is answered, a bracket asks for each domain once, in the order in which
  // they were named, and gives them back in the opposite order.
  lemma BracketIsNested(w: World, domains: seq<Domain>, keep: set<Domain>, answers: Answers)
    ensures InOrder(domains, Bracketed(w, domains, keep, answers).sent, |w.sent|)
  {
    var mine := RUN_OWNED + keep;
    var start := Opened(w, [], false);
    var o := EnableAll(start, Unique(domains), mine, answers);
    UniqueRises(domains);
    assert start.turnedOn + Unique(domains) == Unique(domains);
    EnablesInOrder(domains, start, Unique(domains), mine, answers, |w.sent|);
    hide EnableAll;
    assert o.turnedOn + [] == o.turnedOn;
    assert Returning(domains, o.world.sent, Reverse(o.turnedOn), |w.sent|);
    DisablesInOrder(domains, o.world, Reverse(o.turnedOn), answers, |w.sent|);
  }

  // ---------------------------------------------------------------- the caller's own

  lemma {:induction false} DotAt(d: Domain, verb: string)
    requires '.' !in d
    ensures Partition(d + "." + verb, '.') == (d, Some(verb))
    decreases |d|
  {
    var s := d + "." + verb;
    if d == "" {
      assert s[1..] == verb;
    } else {
      assert d[0] in d && d == [d[0]] + d[1..];
      assert s[0] == d[0] && s[1..] == d[1..] + "." + verb;
      DotAt(d[1..], verb);
    }
  }

  // A raw step that turns a domain on is sent, and recorded as the caller's; one that
  // turns a domain off is sent unless the run needs the domain; no other touches one.
  lemma RawStepIsSent(r: Run, d: Domain, verb: string, answers: Answers)
    requires '.' !in d
    ensures var after := Acted(r, Raw(d + "." + verb), answers);
            && (verb == "enable" && d != "" ==>
                  after.world.sent == r.world.sent + [Enable(d, true)] && after.caller == r.caller + {d})
            && (verb == "disable" && d !in RUN_OWNED ==>
                  after.world.sent == r.world.sent + [Disable(d, true)] && after.caller == r.caller)
            && (verb == "disable" && d in RUN_OWNED ==> after == r)
            && (verb != "enable" && verb != "disable" ==> after == r)
  {
    DotAt(d, verb);
  }
}

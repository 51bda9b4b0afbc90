// The sessions below the page session as a value: what every message and every
// answer awaited by a setup task does to them and to the frame tree.
module Desks {
  import opened Prelude
  import opened Forest
  import opened Frames
  import opened FrameLaws

  const MAX_DEPTH := 10
  const MAX_SESSIONS := 32
  const MAX_CONCURRENT_SETUP := 8

  // One attached target. The serial tells apart two sessions that were given the
  // same id one after the other.
  datatype Session = Session(serial: nat, target: Id, url: string, held: Option<FrameTree>, ready: bool)

  // Which answer a setup task is waiting for.
  datatype Stage = Queued | Reading | Enabling | Attaching

  // A setup task, filed under the serial of its session.
  datatype Task = Task(sid: Sid, target: Id, url: string, stage: Stage)

  // order is the order in which the sessions were taken on.
  datatype Desk = Desk(tree: State, sessions: map<Sid, Session>, order: seq<Sid>, unreachable: map<Id, string>,
                       tasks: map<nat, Task>, born: nat)
  {
    predicate HasTarget(target: Id) {
      exists k :: k in sessions && sessions[k].target == target
    }

    predicate IsLive(sid: Sid, serial: nat) {
      sid in sessions && sessions[sid].serial == serial
    }

    predicate IsStale(serial: nat)
      requires serial in tasks
    {
      !IsLive(tasks[serial].sid, serial)
    }
  }

  // ---------------------------------------------------------------- teardown

  // The frame that other's target names was answered for by a session that has
  // just gone, and nothing answers for it now.
  ghost predicate IsOrphan(s: Desk, other: Sid, orphaned: set<Id>) {
    other in s.sessions
    && var x := s.sessions[other].target;
       x in orphaned && (x in s.tree.frames ==> s.tree.frames[x].data.session.None?)
  }

  ghost function Dropped(s: Desk, sid: Sid, matches: Matcher): (r: Desk)
    ensures r.sessions.Keys <= s.sessions.Keys - {sid}
    decreases |s.sessions|, 1, 0
  {
    if sid !in s.sessions then s
    else
      var left := s.(sessions := s.sessions - {sid}, order := Without(s.order, sid),
                     tree := Apply(s.tree, SessionGone(sid), matches));
      assert left.sessions.Keys < s.sessions.Keys;
      KeysCount(left.sessions, s.sessions);
      var r := DroppedOrphans(left, left.order, Answering(s.tree.frames, sid), matches);
      r.(unreachable := r.unreachable - {s.sessions[sid].target})
  }

  ghost function DroppedOrphans(s: Desk, others: seq<Sid>, orphaned: set<Id>, matches: Matcher): (r: Desk)
    ensures r.sessions.Keys <= s.sessions.Keys
    decreases |s.sessions|, 2, |others|
  {
    if others == [] then s
    else
      var s' := if IsOrphan(s, others[0], orphaned) then Dropped(s, others[0], matches) else s;
      KeysCount(s'.sessions, s.sessions);
      DroppedOrphans(s', others[1..], orphaned, matches)
  }

  lemma KeysCount<V>(a: map<Sid, V>, b: map<Sid, V>)
    requires a.Keys <= b.Keys
    ensures |a| <= |b|
    ensures a.Keys != b.Keys ==> |a| < |b|
  {
    KeysCountSet(a.Keys, b.Keys);
    assert |a| == |a.Keys| && |b| == |b.Keys|;
  }

  lemma KeysCountSet(a: set<Sid>, b: set<Sid>)
    requires a <= b
    ensures |a| <= |b|
    ensures a != b ==> |a| < |b|
  {
    assert b == a + (b - a);
    assert |b| == |a| + |b - a|;
    if a != b {
      var x :| x in b - a;
      assert |b - a| > 0;
    }
  }

  ghost function Abandoned(s: Desk, sid: Sid, target: Id, url: string, matches: Matcher): Desk {
    var r := Dropped(s, sid, matches);
    r.(unreachable := r.unreachable[target := url])
  }

  // ------------------------------------------------------------------- setup

  function TakenOn(s: Desk, sid: Sid, target: Id, url: string): Desk {
    s.(sessions := s.sessions[sid := Session(s.born, target, url, None, false)],
       order := s.order + [sid],
       tasks := s.tasks[s.born := Task(sid, target, url, Queued)],
       born := s.born + 1)
  }

  function Admitted(s: Desk, sid: Sid, target: Id, url: string): Desk {
    if sid == "" || target == "" || sid in s.sessions || s.HasTarget(target) then s
    else if |s.sessions| >= MAX_SESSIONS then s.(unreachable := s.unreachable[target := url])
    else TakenOn(s, sid, target, url)
  }

  function At(s: Desk, serial: nat, stage: Stage): Desk
    requires serial in s.tasks
  {
    s.(tasks := s.tasks[serial := s.tasks[serial].(stage := stage)])
  }

  function Done(s: Desk, serial: nat): Desk {
    s.(tasks := s.tasks - {serial})
  }

  // How many setup tasks have a slot.
  function Running(s: Desk): set<nat> {
    set n | n in s.tasks && s.tasks[n].stage != Queued
  }

  function Hold(s: Desk, sid: Sid, held: Option<FrameTree>): Desk
    requires sid in s.sessions
  {
    s.(sessions := s.sessions[sid := s.sessions[sid].(held := held)])
  }

  ghost function Undone(s: Desk, sid: Sid, target: Id, url: string, t: FrameTree, matches: Matcher): Desk {
    var r := Abandoned(s, sid, target, url, matches);
    r.(unreachable := r.unreachable[target := if t.url != "" then t.url else url])
  }

  // A live session's tree: spliced, held until its parent shows, or past the
  // depth bound and taken out again.
  ghost function Installed(s: Desk, serial: nat, t: FrameTree, matches: Matcher): Desk
    requires serial in s.tasks && !s.IsStale(serial)
  {
    var task := s.tasks[serial];
    if !CanSplice(s.tree.frames, t) then At(Hold(s, task.sid, Some(t)), serial, Enabling)
    else
      var spliced := s.(tree := Apply(s.tree, Spliced(t, task.sid), matches));
      if DepthWalk(spliced.tree.frames, t.Name(), {}) <= MAX_DEPTH then At(spliced, serial, Enabling)
      else
        Done(Undone(spliced, task.sid, task.target, task.url, t, matches), serial)
  }

  // ------------------------------------------------------------- held trees

  // One turn of a pass over the sessions.
  ghost function Tried(s: Desk, sid: Sid, matches: Matcher): (r: Desk)
    ensures r.sessions.Keys == s.sessions.Keys
    ensures r == s || Holding(r) == Holding(s) - {sid} < Holding(s)
  {
    if sid in s.sessions && s.sessions[sid].held.Some? && CanSplice(s.tree.frames, s.sessions[sid].held.value) then
      Hold(s.(tree := Apply(s.tree, Spliced(s.sessions[sid].held.value, sid), matches)), sid, None)
    else s
  }

  ghost function Pass(s: Desk, todo: seq<Sid>, matches: Matcher): (r: Desk)
    ensures r.sessions.Keys == s.sessions.Keys
    ensures Holding(r) <= Holding(s)
    ensures r != s ==> Holding(r) < Holding(s)
    decreases |todo|
  {
    if todo == [] then s else Pass(Tried(s, todo[0], matches), todo[1..], matches)
  }

  function Holding(s: Desk): set<Sid> {
    set k | k in s.sessions && s.sessions[k].held.Some?
  }

  // Passes repeat until one splices nothing.
  ghost function Respliced(s: Desk, matches: Matcher): Desk
    decreases Holding(s)
  {
    var r := Pass(s, s.order, matches);
    if r == s then s else Respliced(r, matches)
  }

  // ---------------------------------------------------------------- the steps

  datatype Step =
    | PageEvent(event: Event)
    | TargetAttached(sid: Sid, target: Id, url: string, supported: bool)
    | TargetDetached(sid: Sid)
    | SlotGiven(serial: nat)
    | TreeAnswered(serial: nat, reply: Option<FrameTree>)
    | EnableAnswered(serial: nat)
    | SetupFinished(serial: nat)
    | SetupFailed(serial: nat)
    | Resplice

  // The steps that can happen. Splices and departures are this module's own
  // doing; a task is answered only what it waits for.
  ghost predicate CanHappen(s: Desk, a: Step) {
    match a
    case PageEvent(e) => !e.Spliced? && !e.SessionGone?
    case SlotGiven(n) => n in s.tasks && s.tasks[n].stage == Queued && |Running(s)| < MAX_CONCURRENT_SETUP
    case TreeAnswered(n, _) => n in s.tasks && s.tasks[n].stage == Reading
    case EnableAnswered(n) => n in s.tasks && s.tasks[n].stage == Enabling
    case SetupFinished(n) => n in s.tasks && s.tasks[n].stage == Attaching
    case SetupFailed(n) => n in s.tasks && s.tasks[n].stage != Queued
    case _ => true
  }

  ghost function After(s: Desk, a: Step, matches: Matcher): Desk
    requires CanHappen(s, a)
  {
    match a
    case PageEvent(e) => s.(tree := Apply(s.tree, e, matches))
    case TargetAttached(sid, target, url, supported) => if supported then Admitted(s, sid, target, url) else s
    case TargetDetached(sid) => if sid == "" then s else Dropped(s, sid, matches)
    case SlotGiven(n) => At(s, n, Reading)
    case TreeAnswered(n, reply) =>
      if s.IsStale(n) then Done(s, n)
      else if reply.None? then At(s, n, Enabling)
      else Installed(s, n, reply.value, matches)
    case EnableAnswered(n) => if s.IsStale(n) then Done(s, n) else At(s, n, Attaching)
    case SetupFinished(n) =>
      var r := Done(s, n);
      if s.IsStale(n) then r
      else r.(sessions := r.sessions[s.tasks[n].sid := r.sessions[s.tasks[n].sid].(ready := true)])
    case SetupFailed(n) =>
      var task := s.tasks[n];
      Done(Abandoned(s, task.sid, task.target, task.url, matches), n)
    case Resplice => Respliced(s, matches)
  }
}

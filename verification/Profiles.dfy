// Profile exclusivity: launches, stops, retirements and clean-ups by processes that
// share one registry file, each a load, an edit and a save under its lock.
module Profiles {
  import opened Prelude

  type Name = string
  type Profile = string

  // A registry entry: its browser, and the profile once it has been annotated.
  datatype Entry = Entry(browser: nat, profile: Option<Profile>)

  type Registry = map<Name, Entry>

  // An edit of the registry that is one process's whole business: a supervisor
  // retires a name, having seen its own browser gone before it takes the lock;
  // a cleanup removes an entry whose browser it sees gone under the lock; a
  // supervisor is recorded, which touches nothing kept here.
  datatype Edit = Retire(name: Name, browser: nat) | Clean(name: Name) | Supervise(name: Name)

  function Edited(r: Registry, live: map<nat, Profile>, e: Edit): Registry {
    match e
    case Retire(name, _) => r - {name}
    case Clean(name) => if name in r && r[name].browser !in live then r - {name} else r
    case Supervise(_) => r
  }

  function Annotated(r: Registry, name: Name, profile: Option<Profile>): Registry {
    if name in r then r[name := r[name].(profile := profile)] else r
  }

  // Where a process stands. A launch holds the registry's lock throughout and
  // enters it a second time to annotate; a stop holds it while it verifies the exit
  // and enters it a second time to remove the entry. nested says that an entry of
  // the lock found it already held by this process.
  datatype Proc =
    | Wants(profile: Profile)
    | HasRegistry(profile: Profile)
    | HasBoth(profile: Profile)
    | Clear(profile: Profile)
    | Spawned(profile: Profile, browser: nat)
    | Registering(profile: Profile, browser: nat, copy: Registry)
    | Registered(profile: Profile, browser: nat, name: Name)
    | Entered(profile: Profile, browser: nat, name: Name, nested: bool)
    | Annotating(profile: Profile, browser: nat, name: Name, nested: bool, copy: Registry)
    | Saved(profile: Profile, browser: nat, name: Name, nested: bool)
    | Leaving(profile: Profile)
    | LeavingRegistry
    | StopWants(name: Name)
    | StopHas(name: Name)
    | Stopped(name: Name, browser: nat)
    | StopEntered(name: Name, browser: nat, nested: bool)
    | StopLoaded(name: Name, browser: nat, nested: bool, copy: Registry)
    | StopSaved(nested: bool)
    | EditWants(edit: Edit)
    | EditHas(edit: Edit)
    | EditLoaded(edit: Edit, copy: Registry)
    | EditSaved
    | Over

  // live: the browsers that run, each with the profile it was started on. flock
  // and held are the two halves of the registry lock: the file lock, and what each
  // process remembers to hold. born counts the browsers ever started.
  datatype World = World(registry: Registry, live: map<nat, Profile>, flock: Option<nat>, held: set<nat>,
                         busy: map<Profile, nat>, procs: map<nat, Proc>, born: nat)

  // ------------------------------------------------------------------ the lock

  // Entering passes straight through for a process that holds the lock already.
  predicate CanEnter(w: World, i: nat) { i in w.held || w.flock.None? }

  function Enter(w: World, i: nat): (World, bool)
  {
    if i in w.held then (w, true) else (w.(flock := Some(i), held := w.held + {i}), false)
  }

  function Exit(w: World, i: nat, nested: bool): World {
    if nested then w else w.(flock := None, held := w.held - {i})
  }

  // ----------------------------------------------------------------- the steps

  // A live instance that holds the profile, as the registry tells.
  predicate IsHolder(w: World, profile: Profile, name: Name) {
    name in w.registry && w.registry[name].profile == Some(profile) && w.registry[name].browser in w.live
  }

  predicate IsHeld(w: World, profile: Profile) {
    exists name :: name in w.registry && IsHolder(w, profile, name)
  }

  datatype Step =
    | Arrive(i: nat, proc: Proc)                // a new process, wanting the lock
    | Go(i: nat)                                // the next thing process i does
    | Fail(i: nat)                              // a lock that times out, a launch that fails
    | RegisterAs(i: nat, name: Name)
    | Exits(browser: nat)                       // a browser is closed, killed or crashes

  function At(w: World, i: nat, p: Proc): World { w.(procs := w.procs[i := p]) }

  ghost predicate CanStep(w: World, a: Step) {
    match a
    case Arrive(i, proc) =>
      i !in w.procs && (proc.Wants? || proc.StopWants? || (proc.EditWants? && DecidedFor(w, proc.edit)))
    case RegisterAs(i, name) => i in w.procs && w.procs[i].Registering? && name !in w.procs[i].copy
    case Exits(b) => b in w.live
    case Fail(i) => i in w.procs && CanFail(w.procs[i])
    case Go(i) =>
      i in w.procs && match w.procs[i]
        case Wants(_) => CanEnter(w, i)
        case StopWants(_) => CanEnter(w, i)
        case EditWants(_) => CanEnter(w, i)
        case HasRegistry(profile) => profile !in w.busy
        case Registering(_, _, _) => false
        case StopHas(name) => name in w.registry && w.registry[name].browser !in w.live
        case Over => false
        case _ => true
  }

  predicate CanFail(p: Proc) {
    p.Wants? || p.HasRegistry? || p.HasBoth? || p.Clear? || p.StopWants? || p.StopHas? || p.EditWants? || p.EditHas?
  }

  // A retirement is for a browser that was seen gone; a gone browser stays gone.
  predicate DecidedFor(w: World, e: Edit) {
    e.Retire? ==> e.browser < w.born && e.browser !in w.live
  }

  // What the name stands for now is gone.
  predicate GoneOnly(w: World, name: Name) {
    name in w.registry ==> w.registry[name].browser !in w.live
  }

  // The next thing a launch does.
  function LaunchGoes(w: World, i: nat, p: Proc): World {
    match p
    case Wants(profile) => At(Enter(w, i).0, i, HasRegistry(profile))
    case HasRegistry(profile) => At(w.(busy := w.busy[profile := i]), i, HasBoth(profile))
    case HasBoth(profile) => At(w, i, if IsHeld(w, profile) then Leaving(profile) else Clear(profile))
    case Clear(profile) => At(w.(live := w.live[w.born := profile], born := w.born + 1), i, Spawned(profile, w.born))
    case Spawned(profile, b) => At(w, i, Registering(profile, b, w.registry))
    case Registered(profile, b, name) => At(Enter(w, i).0, i, Entered(profile, b, name, Enter(w, i).1))
    case Entered(profile, b, name, nested) => At(w, i, Annotating(profile, b, name, nested, w.registry))
    case Annotating(profile, b, name, nested, copy) =>
      At(w.(registry := Annotated(copy, name, Some(profile))), i, Saved(profile, b, name, nested))
    case Saved(profile, b, name, nested) => At(Exit(w, i, nested), i, Leaving(profile))
    case Leaving(profile) => At(w.(busy := w.busy - {profile}), i, LeavingRegistry)
    case LeavingRegistry => At(Exit(w, i, false), i, Over)
    case _ => w
  }

  // The next thing a stop does.
  function StopGoes(w: World, i: nat, p: Proc): World
    requires p.StopHas? ==> p.name in w.registry
  {
    match p
    case StopWants(name) => At(Enter(w, i).0, i, StopHas(name))
    case StopHas(name) => At(w, i, Stopped(name, w.registry[name].browser))
    case Stopped(name, b) => At(Enter(w, i).0, i, StopEntered(name, b, Enter(w, i).1))
    case StopEntered(name, b, nested) => At(w, i, StopLoaded(name, b, nested, w.registry))
    case StopLoaded(name, _, nested, copy) => At(w.(registry := copy - {name}), i, StopSaved(nested))
    case StopSaved(nested) => At(Exit(w, i, nested), i, EditSaved)
    case _ => w
  }

  // The next thing an edit does.
  function EditGoes(w: World, i: nat, p: Proc): World {
    match p
    case EditWants(edit) => At(Enter(w, i).0, i, EditHas(edit))
    case EditHas(edit) => At(w, i, EditLoaded(edit, w.registry))
    case EditLoaded(edit, copy) => At(w.(registry := Edited(copy, w.live, edit)), i, EditSaved)
    case EditSaved => At(Exit(w, i, false), i, Over)
    case _ => w
  }

  predicate IsStop(p: Proc) {
    p.StopWants? || p.StopHas? || p.Stopped? || p.StopEntered? || p.StopLoaded? || p.StopSaved?
  }

  predicate IsEdit(p: Proc) { p.EditWants? || p.EditHas? || p.EditLoaded? || p.EditSaved? }

  function Failed(w: World, i: nat, p: Proc): World {
    match p
    case HasRegistry(_) => At(w, i, LeavingRegistry)
    case HasBoth(profile) => At(w, i, Leaving(profile))
    case Clear(profile) => At(w, i, Leaving(profile))
    case StopHas(_) => At(w, i, EditSaved)
    case EditHas(_) => At(w, i, EditSaved)
    case _ => At(w, i, Over)
  }

  function After(w: World, a: Step): World
    requires CanStep(w, a)
  {
    match a
    case Arrive(i, proc) => At(w, i, proc)
    case Exits(b) => w.(live := w.live - {b})
    case RegisterAs(i, name) =>
      var p := w.procs[i];
      At(w.(registry := p.copy[name := Entry(p.browser, None)]), i, Registered(p.profile, p.browser, name))
    case Fail(i) => Failed(w, i, w.procs[i])
    case Go(i) =>
      var p := w.procs[i];
      if IsStop(p) then StopGoes(w, i, p) else if IsEdit(p) then EditGoes(w, i, p) else LaunchGoes(w, i, p)
  }

  // ------------------------------------------------------------- what is kept

  predicate Inside(p: Proc) {
    !p.Wants? && !p.StopWants? && !p.EditWants? && !p.Over?
  }

  predicate Launching(p: Proc) {
    p.Spawned? || p.Registering? || p.Registered? || p.Entered? || p.Annotating?
  }

  // The browser a launch has started and not yet annotated.
  predicate Owns(p: Proc, b: nat, profile: Profile) {
    Launching(p) && p.browser == b && p.profile == profile
  }

  // While it runs, it runs on the profile it was started on.
  predicate Started(w: World, b: nat, profile: Profile) {
    b in w.live ==> w.live[b] == profile
  }

  predicate Unregistered(w: World, b: nat) {
    b < w.born && forall x :: x in w.registry ==> w.registry[x].browser != b
  }

  predicate RegisteredAs(w: World, b: nat, name: Name) {
    name in w.registry && w.registry[name].browser == b
  }

  // What a process can rely on: a retirement it carries is for a browser that is
  // gone; and inside the lock, that the lock is its own, a second
  // entry did not take it again, and what it loaded is what the file still says.
  ghost predicate Relies(w: World, i: nat, p: Proc) {
    && (p.EditWants? || p.EditHas? || p.EditLoaded? ==> DecidedFor(w, p.edit))
    && (Inside(p) ==> w.flock == Some(i) && ReliesInside(w, p))
  }

  ghost predicate ReliesInside(w: World, p: Proc) {
    match p
    case Clear(profile) => forall b :: b in w.live ==> w.live[b] != profile
    case Spawned(profile, b) => Started(w, b, profile) && Unregistered(w, b)
    case Registering(profile, b, copy) => Started(w, b, profile) && Unregistered(w, b) && copy == w.registry
    case Registered(profile, b, name) => Started(w, b, profile) && RegisteredAs(w, b, name)
    case Entered(profile, b, name, nested) => Started(w, b, profile) && RegisteredAs(w, b, name) && nested
    case Annotating(profile, b, name, nested, copy) =>
      Started(w, b, profile) && RegisteredAs(w, b, name) && nested && copy == w.registry
    case Saved(_, _, _, nested) => nested
    case Stopped(name, b) => RegisteredAs(w, b, name) && b !in w.live
    case StopEntered(name, b, nested) => RegisteredAs(w, b, name) && b !in w.live && nested
    case StopLoaded(name, b, nested, copy) =>
      RegisteredAs(w, b, name) && b !in w.live && nested && copy == w.registry
    case StopSaved(nested) => nested
    case EditLoaded(_, copy) => copy == w.registry
    case _ => true
  }

  ghost predicate Locked(w: World) {
    && w.held == (if w.flock.Some? then {w.flock.value} else {})
    && (w.flock.Some? ==> w.flock.value in w.procs && Inside(w.procs[w.flock.value]))
  }

  // Each browser is registered once, was started before now, and runs on the
  // profile its entry names.
  ghost predicate Single(w: World) {
    && (forall x, y :: x in w.registry && y in w.registry && w.registry[x].browser == w.registry[y].browser ==> x == y)
    && (forall x :: x in w.registry ==> w.registry[x].browser < w.born)
    && (forall b :: b in w.live ==> b < w.born)
    && (forall x :: x in w.registry && w.registry[x].profile.Some? ==>
          Started(w, w.registry[x].browser, w.registry[x].profile.value))
  }

  ghost predicate IsAnnotated(w: World, b: nat)
    requires b in w.live
  {
    exists x :: x in w.registry && w.registry[x] == Entry(b, Some(w.live[b]))
  }

  // Every live browser is annotated with its profile, or the launch that holds the
  // lock is about to annotate it.
  ghost predicate Accounted(w: World) {
    forall b :: b in w.live ==> IsAnnotated(w, b) || Pending(w, b)
  }

  ghost predicate Pending(w: World, b: nat)
    requires b in w.live
  {
    w.flock.Some? && w.flock.value in w.procs && Owns(w.procs[w.flock.value], b, w.live[b])
  }

  ghost predicate Exclusive(w: World) {
    forall a, b :: a in w.live && b in w.live && w.live[a] == w.live[b] ==> a == b
  }

  ghost predicate Sound(w: World) {
    && Locked(w) && Single(w) && Accounted(w) && Exclusive(w)
    && forall i :: i in w.procs ==> Relies(w, i, w.procs[i])
  }

  // The edit saved now, if it is a retirement, removes no live browser's entry.
  predicate Timely(w: World, a: Step) {
    a.Go? && a.i in w.procs && w.procs[a.i].EditLoaded? && w.procs[a.i].edit.Retire? ==>
      GoneOnly(w, w.procs[a.i].edit.name)
  }

  // A step of process i leaves every other process what it relies on, as only one
  // process is inside.
  lemma OthersRely(w: World, i: nat, r: World)
    requires Sound(w) && i in w.procs && (Inside(w.procs[i]) || w.flock.None?)
    requires r.procs.Keys == w.procs.Keys && forall j :: j in w.procs && j != i ==> r.procs[j] == w.procs[j]
    requires w.born <= r.born && forall b :: b in r.live ==> b in w.live || b >= w.born
    ensures forall j :: j in r.procs && j != i ==> Relies(r, j, r.procs[j])
  {
    forall j | j in r.procs && j != i ensures Relies(r, j, r.procs[j]) {
      assert Relies(w, i, w.procs[i]) && Relies(w, j, w.procs[j]);
      assert !Inside(r.procs[j]);
    }
  }

  // A change of nothing but the lock and the acting process.
  lemma MovesOn(w: World, i: nat, r: World)
    requires Sound(w) && i in w.procs && i in r.procs && r.procs == w.procs[i := r.procs[i]]
    requires r.registry == w.registry && r.live == w.live && r.born == w.born
    requires forall b, profile :: Owns(w.procs[i], b, profile) ==> Owns(r.procs[i], b, profile) && r.flock == w.flock
    requires w.flock.Some? && w.flock != Some(i) ==> r.flock == w.flock
    ensures Single(r) && Accounted(r) && Exclusive(r)
  {
    forall b | b in r.live ensures IsAnnotated(r, b) || Pending(r, b) {
      if IsAnnotated(w, b) {
        var x :| x in w.registry && w.registry[x] == Entry(b, Some(w.live[b]));
        assert r.registry[x] == Entry(b, Some(r.live[b]));
      } else {
        assert Pending(w, b);
      }
    }
  }

  // The world and the acting process, taken apart and put together again.
  lemma Apart(w: World, i: nat)
    requires Sound(w) && i in w.procs
    ensures Locked(w) && Single(w) && Accounted(w) && Exclusive(w) && Relies(w, i, w.procs[i])
  {
  }

  lemma Together(w: World, i: nat)
    requires Locked(w) && Single(w) && Accounted(w) && Exclusive(w)
    requires i in w.procs && Relies(w, i, w.procs[i]) && forall j :: j in w.procs && j != i ==> Relies(w, j, w.procs[j])
    ensures Sound(w)
  {
  }

  lemma EnterStep(w: World, i: nat)
    requires Sound(w) && CanStep(w, Go(i)) && (w.procs[i].Wants? || w.procs[i].StopWants? || w.procs[i].EditWants?)
    ensures Sound(After(w, Go(i)))
  {
    hide Sound, Accounted, Single, Exclusive;
    Apart(w, i);
    var r := After(w, Go(i));
    assert w.flock.None?;
    OthersRely(w, i, r);
    MovesOn(w, i, r);
    Together(r, i);
  }

  lemma EnterAgain(w: World, i: nat)
    requires Sound(w) && CanStep(w, Go(i)) && (w.procs[i].Registered? || w.procs[i].Stopped?)
    ensures Sound(After(w, Go(i))) && After(w, Go(i)).flock == Some(i)
  {
    hide Sound, Single, Accounted, Exclusive, EditGoes, Failed;
    Apart(w, i);
    OnlyMoves(w, i, After(w, Go(i)));
  }

  lemma LeaveAgain(w: World, i: nat)
    requires Sound(w) && CanStep(w, Go(i)) && (w.procs[i].Saved? || w.procs[i].StopSaved?)
    ensures Sound(After(w, Go(i))) && After(w, Go(i)).flock == Some(i)
  {
    hide Sound, Single, Accounted, Exclusive, EditGoes, Failed;
    Apart(w, i);
    OnlyMoves(w, i, After(w, Go(i)));
  }

  // The two lock entries of a launch, and of a stop: the first takes it, the second
  // finds it held, so the exit that belongs to the second does not release it.
  lemma NestedStep(w: World, i: nat)
    requires Sound(w) && CanStep(w, Go(i))
    requires var p := w.procs[i]; p.Registered? || p.Saved? || p.Stopped? || p.StopSaved?
    ensures Sound(After(w, Go(i))) && After(w, Go(i)).flock == Some(i)
  {
    hide Sound, After;
    if w.procs[i].Registered? || w.procs[i].Stopped? { EnterAgain(w, i); } else { LeaveAgain(w, i); }
  }

  // A step that changes only where the process stands, on the same side of the lock.
  lemma OnlyMoves(w: World, i: nat, r: World)
    requires Sound(w) && i in w.procs && i in r.procs && r.procs == w.procs[i := r.procs[i]]
    requires r.registry == w.registry && r.live == w.live && r.born == w.born
    requires r.flock == w.flock && r.held == w.held
    requires Inside(r.procs[i]) == Inside(w.procs[i]) && Relies(r, i, r.procs[i])
    requires forall b, profile :: Owns(w.procs[i], b, profile) ==> Owns(r.procs[i], b, profile)
    ensures Sound(r)
  {
    forall j | j in r.procs && j != i ensures Relies(r, j, r.procs[j]) {
      RelySame(w, r, j, r.procs[j]);
    }
    MovesOn(w, i, r);
    hide Relies, Single, Accounted, Exclusive;
  }

  lemma RelySame(w: World, r: World, j: nat, p: Proc)
    requires Relies(w, j, p)
    requires r.registry == w.registry && r.live == w.live && r.born == w.born && r.flock == w.flock
    ensures Relies(r, j, p)
  {
  }

  lemma QuietStep(w: World, i: nat)
    requires Sound(w) && CanStep(w, Go(i)) && (w.procs[i].HasRegistry? || w.procs[i].Leaving?)
    ensures Sound(After(w, Go(i)))
  {
    hide Sound, Single, Accounted, Exclusive, StopGoes, EditGoes, Failed;
    Apart(w, i);
    OnlyMoves(w, i, After(w, Go(i)));
  }

  lemma SeenGoneStep(w: World, i: nat)
    requires Sound(w) && CanStep(w, Go(i)) && w.procs[i].StopHas?
    ensures Sound(After(w, Go(i)))
  {
    hide Sound, Single, Accounted, Exclusive, LaunchGoes, EditGoes, Failed;
    Apart(w, i);
    OnlyMoves(w, i, After(w, Go(i)));
  }

  lemma LoadStep(w: World, i: nat)
    requires Sound(w) && CanStep(w, Go(i)) && (w.procs[i].Spawned? || w.procs[i].Entered?)
    ensures Sound(After(w, Go(i)))
  {
    hide Sound, Single, Accounted, Exclusive, StopGoes, EditGoes, Failed;
    Apart(w, i);
    OnlyMoves(w, i, After(w, Go(i)));
  }

  lemma EditLoadStep(w: World, i: nat)
    requires Sound(w) && CanStep(w, Go(i)) && (w.procs[i].EditHas? || w.procs[i].StopEntered?)
    ensures Sound(After(w, Go(i)))
  {
    hide Sound, Single, Accounted, Exclusive, LaunchGoes, Failed;
    Apart(w, i);
    OnlyMoves(w, i, After(w, Go(i)));
  }

  lemma LeaveStep(w: World, i: nat)
    requires Sound(w) && CanStep(w, Go(i)) && (w.procs[i].LeavingRegistry? || w.procs[i].EditSaved?)
    ensures Sound(After(w, Go(i)))
  {
    hide Sound;
    Apart(w, i);
    var r := After(w, Go(i));
    OthersRely(w, i, r);
    MovesOn(w, i, r);
    Together(r, i);
  }

  // No holder under the lock means no live browser on the profile at all.
  lemma FreeIsClear(w: World, i: nat)
    requires Sound(w) && i in w.procs && w.procs[i].HasBoth? && !IsHeld(w, w.procs[i].profile)
    ensures forall b :: b in w.live ==> w.live[b] != w.procs[i].profile
  {
    var profile := w.procs[i].profile;
    assert Relies(w, i, w.procs[i]);
    forall b | b in w.live ensures w.live[b] != profile {
      assert !Pending(w, b);
      var x :| x in w.registry && w.registry[x] == Entry(b, Some(w.live[b]));
      assert !IsHolder(w, profile, x);
    }
  }

  lemma CheckStep(w: World, i: nat)
    requires Sound(w) && CanStep(w, Go(i)) && w.procs[i].HasBoth?
    ensures Sound(After(w, Go(i)))
  {
    hide Sound, StopGoes, EditGoes, Failed;
    Apart(w, i);
    var r := After(w, Go(i));
    if !IsHeld(w, w.procs[i].profile) { FreeIsClear(w, i); }
    OthersRely(w, i, r);
    MovesOn(w, i, r);
    Together(r, i);
  }

  lemma SpawnKeeps(w: World, i: nat, r: World)
    requires Locked(w) && Single(w) && Accounted(w) && Exclusive(w) && i in w.procs && w.flock == Some(i)
    requires w.procs[i].Clear? && forall b :: b in w.live ==> w.live[b] != w.procs[i].profile
    requires r.registry == w.registry && r.flock == w.flock && r.born == w.born + 1
    requires r.live == w.live[w.born := w.procs[i].profile] && i in r.procs
    requires r.procs[i] == Spawned(w.procs[i].profile, w.born)
    ensures Single(r) && Accounted(r) && Exclusive(r)
  {
    forall b | b in r.live ensures IsAnnotated(r, b) || Pending(r, b) {
      if b != w.born {
        assert !Pending(w, b);
        var x :| x in w.registry && w.registry[x] == Entry(b, Some(w.live[b]));
        assert r.registry[x] == Entry(b, Some(r.live[b]));
      }
    }
  }

  lemma SpawnStep(w: World, i: nat)
    requires Sound(w) && CanStep(w, Go(i)) && w.procs[i].Clear?
    ensures Sound(After(w, Go(i)))
  {
    hide Sound, StopGoes, EditGoes, Failed, Accounted, Exclusive;
    Apart(w, i);
    var r := After(w, Go(i));
    OthersRely(w, i, r);
    SpawnKeeps(w, i, r);
    Together(r, i);
  }

  lemma RegisterKeeps(w: World, i: nat, name: Name, r: World)
    requires Locked(w) && Single(w) && Accounted(w) && Exclusive(w) && i in w.procs && w.flock == Some(i)
    requires w.procs[i].Registering? && name !in w.registry && i in r.procs
    requires var p := w.procs[i]; Started(w, p.browser, p.profile) && Unregistered(w, p.browser)
    requires var p := w.procs[i];
             && r.registry == w.registry[name := Entry(p.browser, None)]
             && r.procs[i] == Registered(p.profile, p.browser, name)
    requires r.live == w.live && r.born == w.born && r.flock == w.flock
    ensures Single(r) && Accounted(r) && Exclusive(r)
  {
    forall b | b in r.live ensures IsAnnotated(r, b) || Pending(r, b) {
      if IsAnnotated(w, b) {
        var x :| x in w.registry && w.registry[x] == Entry(b, Some(w.live[b]));
        assert r.registry[x] == Entry(b, Some(r.live[b]));
      } else {
        assert Pending(w, b);
      }
    }
  }

  lemma RegisterStep(w: World, i: nat, name: Name)
    requires Sound(w) && CanStep(w, RegisterAs(i, name))
    ensures Sound(After(w, RegisterAs(i, name)))
  {
    hide Sound, StopGoes, EditGoes, LaunchGoes, Failed, Single, Accounted, Exclusive;
    Apart(w, i);
    var r := After(w, RegisterAs(i, name));
    OthersRely(w, i, r);
    RegisterKeeps(w, i, name, r);
    Together(r, i);
  }

  // Every live browser has its entry once the one that was pending is annotated.
  lemma AnnotateKeeps(w: World, i: nat, r: World)
    requires Locked(w) && Single(w) && Accounted(w) && Exclusive(w) && i in w.procs && w.flock == Some(i)
    requires w.procs[i].Annotating?
    requires var p := w.procs[i]; RegisteredAs(w, p.browser, p.name) && Started(w, p.browser, p.profile)
    requires var p := w.procs[i]; r.registry == Annotated(w.registry, p.name, Some(p.profile))
    requires r.live == w.live && r.born == w.born
    ensures Single(r) && Accounted(r) && Exclusive(r)
  {
    var p := w.procs[i];
    forall b | b in r.live ensures IsAnnotated(r, b) {
      if b == p.browser {
        assert r.registry[p.name] == Entry(b, Some(r.live[b]));
      } else {
        assert !Pending(w, b);
        var x :| x in w.registry && w.registry[x] == Entry(b, Some(w.live[b]));
        assert r.registry[x] == Entry(b, Some(r.live[b]));
      }
    }
  }

  lemma AnnotateStep(w: World, i: nat)
    requires Sound(w) && CanStep(w, Go(i)) && w.procs[i].Annotating?
    ensures Sound(After(w, Go(i)))
  {
    hide Sound, StopGoes, EditGoes, Failed, Single, Accounted, Exclusive;
    Apart(w, i);
    var r := After(w, Go(i));
    OthersRely(w, i, r);
    AnnotateKeeps(w, i, r);
    Together(r, i);
  }

  // What is left of the registry when the entries removed were of browsers gone.
  lemma RemovedOnly(w: World, i: nat, r: World)
    requires Locked(w) && Single(w) && Accounted(w) && Exclusive(w) && i in w.procs && w.flock == Some(i)
    requires (w.procs[i].EditLoaded? || w.procs[i].StopLoaded?) && !Launching(w.procs[i])
    requires r.live == w.live && r.born == w.born && r.flock == w.flock
    requires r.registry.Keys <= w.registry.Keys && forall x :: x in r.registry ==> r.registry[x] == w.registry[x]
    requires forall x :: x in w.registry && x !in r.registry ==> w.registry[x].browser !in w.live
    ensures Single(r) && Accounted(r) && Exclusive(r)
  {
    forall b | b in r.live ensures IsAnnotated(r, b) {
      assert !Pending(w, b);
      var x :| x in w.registry && w.registry[x] == Entry(b, Some(w.live[b]));
      assert r.registry[x] == Entry(b, Some(r.live[b]));
    }
  }

  lemma EditStep(w: World, i: nat)
    requires Sound(w) && CanStep(w, Go(i)) && w.procs[i].EditLoaded? && Timely(w, Go(i))
    ensures Sound(After(w, Go(i)))
  {
    hide Sound, StopGoes, LaunchGoes, Failed;
    Apart(w, i);
    var r := After(w, Go(i));
    OthersRely(w, i, r);
    RemovedOnly(w, i, r);
    Together(r, i);
  }

  // A stop removes an entry whose browser it has seen exit while it held the lock:
  // that is always timely.
  lemma StopStep(w: World, i: nat)
    requires Sound(w) && CanStep(w, Go(i)) && w.procs[i].StopLoaded?
    ensures Sound(After(w, Go(i)))
  {
    hide Sound, EditGoes, LaunchGoes, Failed;
    Apart(w, i);
    var r := After(w, Go(i));
    OthersRely(w, i, r);
    RemovedOnly(w, i, r);
    Together(r, i);
  }

  lemma FailOutside(w: World, i: nat)
    requires Sound(w) && CanStep(w, Fail(i)) && !Inside(w.procs[i])
    ensures Sound(After(w, Fail(i)))
  {
    hide Sound, ReliesInside;
    Apart(w, i);
    OnlyMoves(w, i, After(w, Fail(i)));
  }

  lemma FailInside(w: World, i: nat)
    requires Sound(w) && CanStep(w, Fail(i)) && Inside(w.procs[i])
    ensures Sound(After(w, Fail(i)))
  {
    hide Sound, Single, Accounted, Exclusive, LaunchGoes, StopGoes, EditGoes;
    Apart(w, i);
    OnlyMoves(w, i, After(w, Fail(i)));
  }

  lemma ArriveStep(w: World, i: nat, proc: Proc)
    requires Sound(w) && CanStep(w, Arrive(i, proc))
    ensures Sound(After(w, Arrive(i, proc)))
  {
    var r := After(w, Arrive(i, proc));
    forall j | j in r.procs ensures Relies(r, j, r.procs[j]) {
      if j != i { assert Relies(w, j, w.procs[j]); }
    }
    forall b | b in r.live ensures IsAnnotated(r, b) || Pending(r, b) {
      assert IsAnnotated(w, b) || Pending(w, b);
    }
  }

  // A browser may be gone at any moment, whatever anyone is doing.
  lemma ExitStep(w: World, b: nat)
    requires Sound(w) && CanStep(w, Exits(b))
    ensures Sound(After(w, Exits(b)))
  {
    var r := After(w, Exits(b));
    forall j | j in r.procs ensures Relies(r, j, r.procs[j]) {
      assert Relies(w, j, w.procs[j]);
    }
    forall c | c in r.live ensures IsAnnotated(r, c) || Pending(r, c) {
      assert IsAnnotated(w, c) || Pending(w, c);
    }
  }

  lemma StepSound(w: World, a: Step)
    requires Sound(w) && CanStep(w, a) && Timely(w, a)
    ensures Sound(After(w, a))
  {
    hide Sound, After;
    match a
    case Arrive(i, proc) => ArriveStep(w, i, proc);
    case Exits(b) => ExitStep(w, b);
    case Fail(i) => if Inside(w.procs[i]) { FailInside(w, i); } else { FailOutside(w, i); }
    case RegisterAs(i, name) => RegisterStep(w, i, name);
    case Go(i) =>
      match w.procs[i]
      case Wants(_) => EnterStep(w, i);
      case StopWants(_) => EnterStep(w, i);
      case EditWants(_) => EnterStep(w, i);
      case Registered(_, _, _) => NestedStep(w, i);
      case Saved(_, _, _, _) => NestedStep(w, i);
      case StopHas(_) => SeenGoneStep(w, i);
      case Stopped(_, _) => NestedStep(w, i);
      case StopSaved(_) => NestedStep(w, i);
      case HasBoth(_) => CheckStep(w, i);
      case Clear(_) => SpawnStep(w, i);
      case Annotating(_, _, _, _, _) => AnnotateStep(w, i);
      case EditLoaded(_, _) => EditStep(w, i);
      case StopLoaded(_, _, _, _) => StopStep(w, i);
      case LeavingRegistry => LeaveStep(w, i);
      case EditSaved => LeaveStep(w, i);
      case Spawned(_, _) => LoadStep(w, i);
      case Entered(_, _, _, _) => LoadStep(w, i);
      case EditHas(_) => EditLoadStep(w, i);
      case StopEntered(_, _, _) => EditLoadStep(w, i);
      case _ => QuietStep(w, i);
  }

  // -------------------------------------------------------------------- runs

  const EMPTY: World := World(map[], map[], None, {}, map[], map[], 0)

  ghost predicate CanRun(w: World, run: seq<Step>)
    decreases |run|
  {
    run != [] ==> CanStep(w, run[0]) && CanRun(After(w, run[0]), run[1..])
  }

  ghost function AfterAll(w: World, run: seq<Step>): World
    requires CanRun(w, run)
    decreases |run|
  {
    if run == [] then w else AfterAll(After(w, run[0]), run[1..])
  }

  // Every retirement saved in the run is timely when it is saved.
  ghost predicate TimelyRun(w: World, run: seq<Step>)
    requires CanRun(w, run)
    decreases |run|
  {
    run != [] ==> Timely(w, run[0]) && TimelyRun(After(w, run[0]), run[1..])
  }

  // Every live browser is accounted for at every point of the run.
  ghost predicate AlwaysAccounted(w: World, run: seq<Step>)
    requires CanRun(w, run)
    decreases |run|
  {
    Accounted(w) && (run != [] ==> AlwaysAccounted(After(w, run[0]), run[1..]))
  }

  lemma {:induction false} RunSound(w: World, run: seq<Step>)
    requires Sound(w) && CanRun(w, run) && TimelyRun(w, run)
    ensures Sound(AfterAll(w, run))
    decreases |run|
  {
    if run == [] {
      assert AfterAll(w, run) == w;
    } else {
      hide Sound, After, CanStep, Timely;
      StepSound(w, run[0]);
      RunSound(After(w, run[0]), run[1..]);
    }
  }

  // Over every interleaving: no profile has two live browsers; every live browser
  // has its annotated entry, except the one whose launch is still under way and
  // holds the lock; and nobody but the holder is ever inside the lock.
  lemma ProfilesAreExclusive(run: seq<Step>, b: nat)
    requires CanRun(EMPTY, run) && TimelyRun(EMPTY, run)
    ensures var w := AfterAll(EMPTY, run);
            && (forall a, c :: a in w.live && c in w.live && w.live[a] == w.live[c] ==> a == c)
            && (b in w.live && w.flock.None? ==> IsAnnotated(w, b))
            && (b in w.live ==> IsAnnotated(w, b) || Pending(w, b))
            && (forall i, j :: i in w.procs && j in w.procs && Inside(w.procs[i]) && Inside(w.procs[j]) ==> i == j)
  {
    RunSound(EMPTY, run);
    var w := AfterAll(EMPTY, run);
    forall i, j | i in w.procs && j in w.procs && Inside(w.procs[i]) && Inside(w.procs[j]) ensures i == j {
      assert Relies(w, i, w.procs[i]) && Relies(w, j, w.procs[j]);
    }
  }

  // A second launch of a profile is refused exactly while a live browser has it.
  lemma RefusedIffHeld(run: seq<Step>, i: nat)
    requires CanRun(EMPTY, run) && TimelyRun(EMPTY, run)
    requires var w := AfterAll(EMPTY, run); i in w.procs && w.procs[i].HasBoth?
    ensures var w := AfterAll(EMPTY, run);
            After(w, Go(i)).procs[i].Leaving? <==> exists b :: b in w.live && w.live[b] == w.procs[i].profile
  {
    hide IsHeld;
    RunSound(EMPTY, run);
    hide Sound;
    HeldIffLive(AfterAll(EMPTY, run), i);
  }

  lemma HeldIffLive(w: World, i: nat)
    requires Sound(w) && i in w.procs && w.procs[i].HasBoth?
    ensures IsHeld(w, w.procs[i].profile) <==> exists b :: b in w.live && w.live[b] == w.procs[i].profile
  {
    var profile := w.procs[i].profile;
    if !IsHeld(w, profile) {
      FreeIsClear(w, i);
    } else {
      var name :| name in w.registry && IsHolder(w, profile, name);
      assert Single(w) && w.live[w.registry[name].browser] == profile;
    }
  }

  // ------------------------------------------------------- retirement by name

  // A retirement removes whatever entry has the name by then: the live browsers
  // stay accounted for exactly when what the name stands for by then is gone.
  lemma RetireIff(w: World, i: nat)
    requires Sound(w) && i in w.procs && w.procs[i].EditLoaded? && w.procs[i].edit.Retire?
    ensures Accounted(After(w, Go(i))) <==> GoneOnly(w, w.procs[i].edit.name)
  {
    var name, r := w.procs[i].edit.name, After(w, Go(i));
    assert Relies(w, i, w.procs[i]);
    if GoneOnly(w, name) {
      EditStep(w, i);
    } else {
      var b := w.registry[name].browser;
      assert !IsAnnotated(r, b) && !Pending(r, b);
    }
  }

  // It is timely whenever the name is gone, or still the retired browser's own.
  lemma RetireOfOwnEntry(w: World, i: nat)
    requires Sound(w) && i in w.procs && w.procs[i].EditLoaded? && w.procs[i].edit.Retire?
    requires var edit := w.procs[i].edit;
             edit.name in w.registry ==> w.registry[edit.name].browser == edit.browser
    ensures Timely(w, Go(i)) && Sound(After(w, Go(i)))
  {
    assert Relies(w, i, w.procs[i]);
    EditStep(w, i);
  }

  // Over whole runs: no live browser is ever unaccounted for exactly when every
  // retirement is timely.
  lemma {:induction false} AccountedIff(w: World, run: seq<Step>)
    requires Sound(w) && CanRun(w, run)
    ensures AlwaysAccounted(w, run) <==> TimelyRun(w, run)
    decreases |run|
  {
    assert Accounted(w);
    if run == [] {
      assert TimelyRun(w, run);
    } else {
      hide Sound, After, CanStep, Accounted;
      if Timely(w, run[0]) {
        StepSound(w, run[0]);
        AccountedIff(After(w, run[0]), run[1..]);
      } else {
        RetireIff(w, run[0].i);
      }
    }
  }

  // ------------------------------------- a retirement of a name given away since

  ghost predicate Goes(w: World, a: Step, r: World) { CanStep(w, a) && After(w, a) == r }

  lemma OneMore(w: World, a: Step, r: World, run: seq<Step>)
    requires Goes(w, a, r) && CanRun(r, run)
    ensures CanRun(w, [a] + run) && AfterAll(w, [a] + run) == AfterAll(r, run)
  {
    assert ([a] + run)[1..] == run;
  }

  lemma {:induction false} RunBoth(w: World, one: seq<Step>, two: seq<Step>)
    requires CanRun(w, one) && CanRun(AfterAll(w, one), two)
    ensures CanRun(w, one + two) && AfterAll(w, one + two) == AfterAll(AfterAll(w, one), two)
    decreases |one|
  {
    hide After, CanStep;
    if one == [] {
      assert one + two == two;
    } else {
      RunBoth(After(w, one[0]), one[1..], two);
      assert (one + two)[1..] == one[1..] + two;
    }
  }

  lemma Again<K, V>(m: map<K, V>, k: K, u: V, v: V)
    ensures m[k := u][k := v] == m[k := v]
  {
  }

  // Nobody is inside the lock.
  predicate Idle(w: World) { w.flock.None? && w.held == {} }

  // What a launch alone comes to: its browser is live and annotated.
  function Launched(w: World, i: nat, profile: Profile, name: Name): World {
    At(w.(registry := w.registry[name := Entry(w.born, Some(profile))], live := w.live[w.born := profile],
          born := w.born + 1), i, Over)
  }

  // A launch whose browser has just started.
  function Bare(w: World, i: nat, profile: Profile): World {
    At(w.(flock := Some(i), held := {i}, busy := w.busy[profile := i],
          live := w.live[w.born := profile], born := w.born + 1), i, Registering(profile, w.born, w.registry))
  }

  lemma SameHolders(w: World, r: World, profile: Profile)
    requires r.registry == w.registry && r.live == w.live && !IsHeld(w, profile)
    ensures !IsHeld(r, profile)
  {
    forall name | name in r.registry ensures !IsHolder(r, profile, name) {
      assert !IsHolder(w, profile, name);
    }
  }

  lemma LaunchTakes(w: World, i: nat, profile: Profile)
    requires Idle(w)
    ensures var locked := w.(flock := Some(i), held := {i});
            var taken := locked.(busy := w.busy[profile := i]);
            && LaunchGoes(At(w, i, Wants(profile)), i, Wants(profile)) == At(locked, i, HasRegistry(profile))
            && LaunchGoes(At(locked, i, HasRegistry(profile)), i, HasRegistry(profile))
               == At(taken, i, HasBoth(profile))
  {
    Again(w.procs, i, Wants(profile), HasRegistry(profile));
    Again(w.procs, i, HasRegistry(profile), HasBoth(profile));
    assert {} + {i} == {i};
  }

  lemma LaunchSpawns(w: World, i: nat, profile: Profile)
    requires !IsHeld(w, profile)
    ensures var born := w.(live := w.live[w.born := profile], born := w.born + 1);
            && LaunchGoes(At(w, i, HasBoth(profile)), i, HasBoth(profile)) == At(w, i, Clear(profile))
            && LaunchGoes(At(w, i, Clear(profile)), i, Clear(profile)) == At(born, i, Spawned(profile, w.born))
            && LaunchGoes(At(born, i, Spawned(profile, w.born)), i, Spawned(profile, w.born))
               == At(born, i, Registering(profile, w.born, w.registry))
  {
    hide IsHeld;
    Again(w.procs, i, HasBoth(profile), Clear(profile));
    Again(w.procs, i, Clear(profile), Spawned(profile, w.born));
    Again(w.procs, i, Spawned(profile, w.born), Registering(profile, w.born, w.registry));
    SameHolders(w, At(w, i, HasBoth(profile)), profile);
  }

  lemma LaunchAnnotates(w: World, i: nat, profile: Profile, name: Name, b: nat)
    requires w.held == {i}
    ensures var bare := w.(registry := w.registry[name := Entry(b, None)]);
            var full := w.(registry := w.registry[name := Entry(b, Some(profile))]);
            var p7, p8 := Registered(profile, b, name), Entered(profile, b, name, true);
            var p9, p10 := Annotating(profile, b, name, true, bare.registry), Saved(profile, b, name, true);
            && LaunchGoes(At(bare, i, p7), i, p7) == At(bare, i, p8)
            && LaunchGoes(At(bare, i, p8), i, p8) == At(bare, i, p9)
            && LaunchGoes(At(bare, i, p9), i, p9) == At(full, i, p10)
  {
    var copy := w.registry[name := Entry(b, None)];
    Again(w.procs, i, Registered(profile, b, name), Entered(profile, b, name, true));
    Again(w.procs, i, Entered(profile, b, name, true), Annotating(profile, b, name, true, copy));
    Again(w.procs, i, Annotating(profile, b, name, true, copy), Saved(profile, b, name, true));
    Again(w.registry, name, Entry(b, None), Entry(b, Some(profile)));
  }

  lemma LaunchLeaves(w: World, i: nat, profile: Profile, p: Proc)
    requires w.held == {i} && p.Saved? && p.nested && p.profile == profile
    ensures var free := w.(busy := w.busy - {profile});
            && LaunchGoes(At(w, i, p), i, p) == At(w, i, Leaving(profile))
            && LaunchGoes(At(w, i, Leaving(profile)), i, Leaving(profile)) == At(free, i, LeavingRegistry)
            && LaunchGoes(At(free, i, LeavingRegistry), i, LeavingRegistry)
               == At(free.(flock := None, held := {}), i, Over)
  {
    Again(w.procs, i, p, Leaving(profile));
    Again(w.procs, i, Leaving(profile), LeavingRegistry);
    Again(w.procs, i, LeavingRegistry, Over);
    assert {i} - {i} == {};
  }

  lemma EditMoves(w: World, i: nat, edit: Edit)
    requires Idle(w)
    ensures var locked, done := w.(flock := Some(i), held := {i}), Edited(w.registry, w.live, edit);
            var p2 := EditLoaded(edit, w.registry);
            && EditGoes(At(w, i, EditWants(edit)), i, EditWants(edit)) == At(locked, i, EditHas(edit))
            && EditGoes(At(locked, i, EditHas(edit)), i, EditHas(edit)) == At(locked, i, p2)
            && EditGoes(At(locked, i, p2), i, p2) == At(locked.(registry := done), i, EditSaved)
            && EditGoes(At(locked.(registry := done), i, EditSaved), i, EditSaved) == At(w.(registry := done), i, Over)
  {
    hide Edited;
    Again(w.procs, i, EditWants(edit), EditHas(edit));
    Again(w.procs, i, EditHas(edit), EditLoaded(edit, w.registry));
    Again(w.procs, i, EditLoaded(edit, w.registry), EditSaved);
    Again(w.procs, i, EditSaved, Over);
    assert {} + {i} == {i} && {i} - {i} == {};
  }

  lemma LaunchGo(w: World, i: nat, run: seq<Step>)
    requires i in w.procs && !IsStop(w.procs[i]) && !IsEdit(w.procs[i]) && CanStep(w, Go(i))
    requires CanRun(LaunchGoes(w, i, w.procs[i]), run)
    ensures CanRun(w, [Go(i)] + run) && AfterAll(w, [Go(i)] + run) == AfterAll(LaunchGoes(w, i, w.procs[i]), run)
  {
    hide LaunchGoes, CanStep;
    assert ([Go(i)] + run)[1..] == run;
  }

  lemma EditGo(w: World, i: nat, run: seq<Step>)
    requires i in w.procs && IsEdit(w.procs[i]) && CanStep(w, Go(i)) && CanRun(EditGoes(w, i, w.procs[i]), run)
    ensures CanRun(w, [Go(i)] + run) && AfterAll(w, [Go(i)] + run) == AfterAll(EditGoes(w, i, w.procs[i]), run)
  {
    hide EditGoes, CanStep;
    assert ([Go(i)] + run)[1..] == run;
  }

  // An edit alone, from the moment it asks for the lock.
  lemma EditRuns(w: World, i: nat, edit: Edit)
    requires Idle(w)
    ensures var before, run := At(w, i, EditWants(edit)), [Go(i)] + ([Go(i)] + ([Go(i)] + ([Go(i)] + [])));
            && CanRun(before, run)
            && AfterAll(before, run) == At(w.(registry := Edited(w.registry, w.live, edit)), i, Over)
  {
    hide EditGoes, Edited;
    EditMoves(w, i, edit);
    var locked, done := w.(flock := Some(i), held := {i}), Edited(w.registry, w.live, edit);
    EditGo(At(locked.(registry := done), i, EditSaved), i, []);
    EditGo(At(locked, i, EditLoaded(edit, w.registry)), i, [Go(i)] + []);
    EditGo(At(locked, i, EditHas(edit)), i, [Go(i)] + ([Go(i)] + []));
    EditGo(At(w, i, EditWants(edit)), i, [Go(i)] + ([Go(i)] + ([Go(i)] + [])));
  }

  // A launch alone, in four stretches: until it holds both locks, until its
  // browser runs, until the entry is annotated, until the locks are left.
  lemma TakeRuns(w: World, i: nat, profile: Profile) returns (run: seq<Step>)
    requires Idle(w) && i !in w.procs && profile !in w.busy
    ensures CanRun(w, run)
    ensures AfterAll(w, run)
            == At(w.(flock := Some(i), held := {i}, busy := w.busy[profile := i]), i, HasBoth(profile))
  {
    hide LaunchGoes;
    LaunchTakes(w, i, profile);
    run := [];
    LaunchGo(At(w.(flock := Some(i), held := {i}), i, HasRegistry(profile)), i, run);
    run := [Go(i)] + run;
    LaunchGo(At(w, i, Wants(profile)), i, run);
    run := [Go(i)] + run;
    OneMore(w, Arrive(i, Wants(profile)), At(w, i, Wants(profile)), run);
    run := [Arrive(i, Wants(profile))] + run;
  }

  lemma SpawnRuns(w: World, i: nat, profile: Profile) returns (run: seq<Step>)
    requires !IsHeld(w, profile)
    ensures CanRun(At(w, i, HasBoth(profile)), run)
    ensures AfterAll(At(w, i, HasBoth(profile)), run)
            == At(w.(live := w.live[w.born := profile], born := w.born + 1), i,
                  Registering(profile, w.born, w.registry))
  {
    hide LaunchGoes, IsHeld;
    LaunchSpawns(w, i, profile);
    var born := w.(live := w.live[w.born := profile], born := w.born + 1);
    run := [];
    LaunchGo(At(born, i, Spawned(profile, w.born)), i, run);
    run := [Go(i)] + run;
    LaunchGo(At(w, i, Clear(profile)), i, run);
    run := [Go(i)] + run;
    LaunchGo(At(w, i, HasBoth(profile)), i, run);
    run := [Go(i)] + run;
  }

  lemma AnnotateRuns(w: World, i: nat, name: Name) returns (run: seq<Step>)
    requires i in w.procs && w.procs[i].Registering? && w.procs[i].copy == w.registry && name !in w.registry
    requires w.flock == Some(i) && w.held == {i}
    ensures CanRun(w, run)
    ensures var profile, b := w.procs[i].profile, w.procs[i].browser;
            AfterAll(w, run) == At(w.(registry := w.registry[name := Entry(b, Some(profile))]), i,
                                   Saved(profile, b, name, true))
  {
    hide LaunchGoes, IsHeld;
    var profile, b := w.procs[i].profile, w.procs[i].browser;
    LaunchAnnotates(w, i, profile, name, b);
    var bare := w.(registry := w.registry[name := Entry(b, None)]);
    run := [];
    LaunchGo(At(bare, i, Annotating(profile, b, name, true, bare.registry)), i, run);
    run := [Go(i)] + run;
    LaunchGo(At(bare, i, Entered(profile, b, name, true)), i, run);
    run := [Go(i)] + run;
    LaunchGo(At(bare, i, Registered(profile, b, name)), i, run);
    run := [Go(i)] + run;
    OneMore(w, RegisterAs(i, name), At(bare, i, Registered(profile, b, name)), run);
    run := [RegisterAs(i, name)] + run;
  }

  lemma LeaveRuns(w: World, i: nat, p: Proc) returns (run: seq<Step>)
    requires p.Saved? && p.nested && w.held == {i}
    ensures CanRun(At(w, i, p), run)
    ensures AfterAll(At(w, i, p), run) == At(w.(busy := w.busy - {p.profile}, flock := None, held := {}), i, Over)
  {
    hide LaunchGoes, IsHeld;
    LaunchLeaves(w, i, p.profile, p);
    var free := w.(busy := w.busy - {p.profile});
    run := [];
    LaunchGo(At(free, i, LeavingRegistry), i, run);
    run := [Go(i)] + run;
    LaunchGo(At(w, i, Leaving(p.profile)), i, run);
    run := [Go(i)] + run;
    LaunchGo(At(w, i, p), i, run);
    run := [Go(i)] + run;
  }

  // A launch up to the moment its browser runs.
  lemma StartRuns(w: World, i: nat, profile: Profile) returns (run: seq<Step>)
    requires Idle(w) && i !in w.procs && profile !in w.busy && !IsHeld(w, profile)
    ensures CanRun(w, run) && AfterAll(w, run) == Bare(w, i, profile)
  {
    hide CanStep, After, IsHeld;
    var taken := w.(flock := Some(i), held := {i}, busy := w.busy[profile := i]);
    SameHolders(w, taken, profile);
    var one := TakeRuns(w, i, profile);
    var two := SpawnRuns(taken, i, profile);
    RunBoth(w, one, two);
    run := one + two;
  }

  lemma LaunchRuns(w: World, i: nat, profile: Profile, name: Name) returns (run: seq<Step>)
    requires Idle(w) && i !in w.procs && profile !in w.busy && !IsHeld(w, profile) && name !in w.registry
    ensures CanRun(w, run) && AfterAll(w, run) == Launched(w, i, profile, name)
  {
    hide CanStep, After, IsHeld;
    var one := StartRuns(w, i, profile);
    var bare := Bare(w, i, profile);
    var two := AnnotateRuns(bare, i, name);
    var full := bare.(registry := w.registry[name := Entry(w.born, Some(profile))]);
    var three := LeaveRuns(full, i, Saved(profile, w.born, name, true));
    RunBoth(bare, two, three);
    RunBoth(w, one, two + three);
    run := one + (two + three);
    Again(w.procs, i, Registering(profile, w.born, w.registry), Over);
    assert w.busy[profile := i] - {profile} == w.busy;
  }

  // Browser 0 is launched under the name and exits, and a supervisor sets out to
  // retire it.
  lemma RetireDecided(profile: Profile, name: Name) returns (run: seq<Step>)
    ensures CanRun(EMPTY, run)
    ensures AfterAll(EMPTY, run) == World(map[name := Entry(0, Some(profile))], map[], None, {}, map[],
                                          map[0 := Over, 1 := EditWants(Retire(name, 0))], 1)
  {
    NobodyHolds(EMPTY, profile);
    run := LaunchRuns(EMPTY, 0, profile, name);
    var launched := World(map[name := Entry(0, Some(profile))], map[0 := profile], None, {}, map[], map[0 := Over], 1);
    assert AfterAll(EMPTY, run) == launched;
    var gone := launched.(live := map[]);
    var retire := EditWants(Retire(name, 0));
    assert Goes(launched, Exits(0), gone);
    assert Goes(gone, Arrive(1, retire), gone.(procs := map[0 := Over, 1 := retire]));
    OneMore(gone, Arrive(1, retire), gone.(procs := map[0 := Over, 1 := retire]), []);
    OneMore(launched, Exits(0), gone, [Arrive(1, retire)] + []);
    RunBoth(EMPTY, run, [Exits(0)] + ([Arrive(1, retire)] + []));
    run := run + ([Exits(0)] + ([Arrive(1, retire)] + []));
  }

  // Before it gets the lock, a cleanup removes the entry and the name is given to
  // a second launch.
  lemma GivenAway(w: World, profile: Profile, name: Name) returns (run: seq<Step>)
    requires w == World(map[name := Entry(0, Some(profile))], map[], None, {}, map[],
                        map[0 := Over, 1 := EditWants(Retire(name, 0))], 1)
    ensures CanRun(w, run)
    ensures AfterAll(w, run) == World(map[name := Entry(1, Some(profile))], map[1 := profile], None, {}, map[],
                                      map[0 := Over, 1 := EditWants(Retire(name, 0)), 2 := Over, 3 := Over], 2)
  {
    var clean := Clean(name);
    assert Goes(w, Arrive(2, EditWants(clean)), At(w, 2, EditWants(clean)));
    EditRuns(w, 2, clean);
    var four := [Go(2)] + ([Go(2)] + ([Go(2)] + ([Go(2)] + [])));
    OneMore(w, Arrive(2, EditWants(clean)), At(w, 2, EditWants(clean)), four);
    var cleaned := At(w.(registry := map[]), 2, Over);
    assert Edited(w.registry, w.live, clean) == map[];
    NobodyHolds(cleaned, profile);
    var two := LaunchRuns(cleaned, 3, profile, name);
    RunBoth(w, [Arrive(2, EditWants(clean))] + four, two);
    run := [Arrive(2, EditWants(clean))] + four + two;
  }

  // Then the retirement is saved: browser 1 runs and has no entry, so the next
  // launch of the profile goes ahead and there are two of it.
  lemma StaleRetirement(profile: Profile, name: Name) returns (run: seq<Step>, later: seq<Step>)
    ensures CanRun(EMPTY, run) && !TimelyRun(EMPTY, run)
    ensures var w := AfterAll(EMPTY, run);
            && w.live == map[1 := profile] && w.registry == map[]
            && CanRun(w, later) && AfterAll(w, later).live == map[1 := profile, 2 := profile]
  {
    hide CanStep, After, IsHeld;
    var one := RetireDecided(profile, name);
    var decided := AfterAll(EMPTY, one);
    var two := GivenAway(decided, profile, name);
    RunBoth(EMPTY, one, two);
    var given := AfterAll(decided, two);
    assert At(given, 1, EditWants(Retire(name, 0))) == given;
    EditRuns(given, 1, Retire(name, 0));
    var four := [Go(1)] + ([Go(1)] + ([Go(1)] + ([Go(1)] + [])));
    RunBoth(EMPTY, one + two, four);
    run := one + two + four;
    var w := AfterAll(EMPTY, run);
    if TimelyRun(EMPTY, run) {
      ProfilesAreExclusive(run, 1);
    }
    NobodyHolds(w, profile);
    later := StartRuns(w, 4, profile);
  }

  lemma NobodyHolds(w: World, profile: Profile)
    requires w.registry == map[]
    ensures !IsHeld(w, profile)
  {
  }

  // ---------------------------------------------------------- no update is lost

  // What a save leaves in the file is what the file said when it was saved, with that
  // process's own change and no other: an entry registered or annotated, one retired
  // or stopped gone, and of a clean-up, one whose browser is gone.
  lemma NoUpdateIsLost(w: World, i: nat)
    requires Sound(w) && i in w.procs && CanStep(w, Go(i))
    ensures var p, r := w.procs[i], After(w, Go(i)).registry;
            && (p.Annotating? ==> r == w.registry[p.name := Entry(p.browser, Some(p.profile))])
            && (p.StopLoaded? ==> r == w.registry - {p.name})
            && (p.EditLoaded? && p.edit.Retire? ==> r == w.registry - {p.edit.name})
            && (p.EditLoaded? && p.edit.Clean? ==>
                 var name := p.edit.name;
                 if name in w.registry && w.registry[name].browser !in w.live then r == w.registry - {name}
                 else r == w.registry)
            && (p.EditLoaded? && p.edit.Supervise? ==> r == w.registry)
            && (!p.Annotating? && !p.StopLoaded? && !p.EditLoaded? ==> r == w.registry)
  {
    var p := w.procs[i];
    assert Relies(w, i, p);
    if Inside(p) {
      hide Sound;
      if IsStop(p) {
        StopWrites(w, i, p);
      } else if !IsEdit(p) {
        LaunchWrites(w, i, p);
      }
    }
  }

  lemma LaunchWrites(w: World, i: nat, p: Proc)
    requires !IsStop(p) && !IsEdit(p) && ReliesInside(w, p)
    ensures LaunchGoes(w, i, p).registry ==
            if p.Annotating? then w.registry[p.name := Entry(p.browser, Some(p.profile))] else w.registry
  {
  }

  lemma StopWrites(w: World, i: nat, p: Proc)
    requires IsStop(p) && ReliesInside(w, p) && (p.StopHas? ==> p.name in w.registry)
    ensures StopGoes(w, i, p).registry == if p.StopLoaded? then w.registry - {p.name} else w.registry
  {
  }

  // A launch's first entry goes in under a name that nobody has.
  lemma RegistrationIsExact(w: World, i: nat, name: Name)
    requires Sound(w) && CanStep(w, RegisterAs(i, name))
    ensures name !in w.registry
    ensures After(w, RegisterAs(i, name)).registry == w.registry[name := Entry(w.procs[i].browser, None)]
  {
    assert Relies(w, i, w.procs[i]);
    hide Single, Accounted, Exclusive;
  }
}

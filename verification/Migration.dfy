// Moving a profile between two roots so that the login in it survives a crash at
// any moment, and moving all of them.
module Migration {
  import opened Prelude

  type Path = string
  type Bytes = seq<bv8>

  datatype Entry = File(bytes: Bytes) | Link(target: string)

  // A directory tree, by relative path.
  type Dir = map<Path, Entry>

  // The two roots. A staging directory is a child of the destination root whose
  // name is no profile's.
  datatype Roots = Roots(source: map<string, Dir>, destination: map<string, Dir>)

  const LOGIN_BEARING: set<Path> := {"Default/Cookies", "Default/Network/Cookies", "Default/Login Data"}
  const SINGLETON: set<Path> := {"SingletonLock", "SingletonCookie", "SingletonSocket"}
  const STAGING_PREFIX := ".migrating-"

  predicate IsProfileName(name: string) {
    name != "" && name[0] != '.'
  }

  function Staging(name: string, pid: string): string {
    STAGING_PREFIX + name + "-" + pid
  }

  // --------------------------------------------------------------- what is kept

  // A login-bearing file of d, byte for byte, in e.
  predicate Holds(d: Dir, e: map<string, Dir>, name: string, f: Path) {
    f in d && d[f].File? ==> name in e && f in e[name] && e[name][f] == d[f]
  }

  // Every login of the profile is at one root or the other.
  predicate LoginKept(d: Dir, r: Roots, name: string) {
    forall f :: f in LOGIN_BEARING ==> Holds(d, r.source, name, f) || Holds(d, r.destination, name, f)
  }

  // Nothing but this profile and its staging directory has changed, a profile that
  // was at the destination is as it was, and the login is somewhere.
  predicate Within(before: Roots, r: Roots, name: string, staging: string) {
    && name in before.source
    && LoginKept(before.source[name], r, name)
    && r.source - {name} == before.source - {name}
    && r.destination - {name, staging} == before.destination - {name, staging}
    && (name in before.destination ==> name in r.destination && r.destination[name] == before.destination[name])
  }

  // The regular files that links lead to while a transfer is verified, by what the
  // link says: followed from the source, and followed from the copy.
  datatype Follow = Follow(source: map<string, Bytes>, copy: map<string, Bytes>)

  // What opening a path for reading gives: links are followed, and a path that
  // leads to no regular file gives nothing.
  function Read(d: Dir, p: Path, follow: map<string, Bytes>): Option<Bytes> {
    if p !in d then None
    else match d[p]
      case File(bytes) => Some(bytes)
      case Link(target) => if target in follow then Some(follow[target]) else None
  }

  // c holds every regular file of d with its size, and each login that can be read
  // reads the same, byte for byte.
  predicate Verified(d: Dir, c: Dir, links: Follow) {
    && (forall p :: p in d && d[p].File? ==> p in c && c[p].File? && |c[p].bytes| == |d[p].bytes|)
    && (forall p :: p in LOGIN_BEARING && Read(d, p, links.source).Some? ==>
          Read(c, p, links.copy) == Read(d, p, links.source))
  }

  // What the operating system does with one transfer: how far each removal gets,
  // what each copied file turns out to hold, and which calls fail.
  datatype Script = Script(
    unlocked: set<Path>,               // the stale lock files that could be removed
    leftover: seq<Path>,               // what clearing an old staging directory removes
    copied: seq<(Path, Entry)>,        // what the copy writes, in order
    copyRaises: bool,
    readRaises: bool,
    renameRaises: bool,
    links: Follow,                     // what links lead to while the copy is verified
    undone: seq<Path>,                 // what clearing the staging directory removes after a failure
    cleared: seq<Path>)                // what clearing the source removes

  datatype Outcome = Moved | Refused

  // What a copy that wrote these entries, in order, has left.
  function Laid(script: seq<(Path, Entry)>): Dir
    decreases |script|
  {
    if script == [] then map[]
    else Laid(script[..|script| - 1])[script[|script| - 1].0 := script[|script| - 1].1]
  }

  // The source once its stale lock files are gone.
  function Cleaned(before: Roots, name: string, script: Script): Dir
    requires name in before.source
  {
    before.source[name] - script.unlocked * SINGLETON
  }

  // The copy gets into place: no old staging directory stays in the way, neither
  // the copy nor the reading of it fails, it holds what the source holds, and the
  // rename goes through.
  predicate PutInPlace(before: Roots, name: string, pid: string, script: Script)
    requires name in before.source
  {
    var staging := Staging(name, pid);
    && (staging in before.destination ==> before.destination[staging] - Elems(script.leftover) == map[])
    && Proven(Cleaned(before, name, script), script)
  }

  // How one transfer ends, whatever the operating system does with it: not begun,
  // as the name is taken; nothing but stale lock files gone; or the copy in place,
  // and the source gone or, when clearing it failed, what the clearing left of it.
  ghost predicate Ended(before: Roots, after: Roots, name: string, pid: string, script: Script, r: Outcome)
    requires name in before.source
  {
    if name in before.destination then r == Refused && after == before
    else Landed(PutInPlace(before, name, pid, script), Cleaned(before, name, script), after, name, script, r)
  }

  // d is the source once its stale lock files are gone.
  ghost predicate Landed(inPlace: bool, d: Dir, after: Roots, name: string, script: Script, r: Outcome) {
    var left := d - Elems(script.cleared);
    if !inPlace then r == Refused && name !in after.destination && name in after.source && after.source[name] == d
    else
      && name in after.destination && after.destination[name] == Laid(script.copied)
      && if left == map[] then r == Moved && name !in after.source
         else r == Refused && name in after.source && after.source[name] == left
  }

  // With the way clear, what it takes for the copy to get into place.
  predicate Proven(d: Dir, script: Script) {
    !script.copyRaises && !script.readRaises && !script.renameRaises && Verified(d, Laid(script.copied), script.links)
  }

  // Every name is on exactly one of the two lists, and nothing else is.
  ghost predicate Sorted(names: seq<string>, migrated: seq<string>, refused: seq<string>) {
    && (forall x :: x in names <==> x in migrated || x in refused)
    && (forall x :: x in migrated ==> x !in refused)
    && |migrated| + |refused| == |names|
  }

  ghost predicate AllKept(names: seq<string>, before: Roots, r: Roots) {
    forall x :: x in names ==> x in before.source && LoginKept(before.source[x], r, x)
  }

  predicate Untouched(before: Roots, r: Roots, x: string) {
    && x in before.source && x in r.source && r.source[x] == before.source[x]
    && (x in r.destination <==> x in before.destination)
    && (x in before.destination ==> r.destination[x] == before.destination[x])
  }

  predicate MovedWhole(before: Roots, r: Roots, x: string, scripts: string -> Script) {
    && x in before.source && x !in r.source && x in r.destination
    && Verified(before.source[x] - scripts(x).unlocked * SINGLETON, r.destination[x], scripts(x).links)
  }

  // What one profile's turn comes to.
  ghost predicate Decided(a: Roots, b: Roots, name: string, isHeld: bool, dryRun: bool, pid: string, script: Script,
                          moved: bool)
    requires name in a.source
  {
    if isHeld || name in a.destination || dryRun then b == a && (moved <==> !isHeld && name !in a.destination)
    else Ended(a, b, name, pid, script, if moved then Moved else Refused)
  }

  // What has become of one profile at both roots, and whether it counts as migrated,
  // told from the roots as they were before any was moved: held, taken or looked at
  // only, it is as it was; else the file system decided how its transfer ended.
  ghost predicate Fate(before: Roots, r: Roots, x: string, isHeld: bool, dryRun: bool, pid: string, script: Script,
                       moved: bool)
  {
    x in before.source
    && if isHeld || x in before.destination || dryRun then
         Untouched(before, r, x) && (moved <==> !isHeld && x !in before.destination)
       else
         Landed(PutInPlace(before, x, pid, script), Cleaned(before, x, script), r, x, script,
                if moved then Moved else Refused)
  }

  // The staging directory of a profile is as it was.
  predicate StagingSame(before: Roots, r: Roots, x: string, pid: string) {
    var staging := Staging(x, pid);
    && (staging in r.destination <==> staging in before.destination)
    && (staging in before.destination ==> r.destination[staging] == before.destination[staging])
  }

  // The fate of the first i profiles is decided, and the way of the others is as it was.
  ghost predicate Fates(names: seq<string>, i: nat, before: Roots, r: Roots, held: set<string>, dryRun: bool,
                        pid: string, scripts: string -> Script, migrated: seq<string>)
  {
    && i <= |names|
    && (forall x :: x in names[..i] ==> Fate(before, r, x, x in held, dryRun, pid, scripts(x), x in migrated))
    && forall x :: x in names[i..] ==> Untouched(before, r, x) && StagingSame(before, r, x, pid)
  }

  // Where the migration stands after the first i profiles.
  ghost predicate Progress(names: seq<string>, i: nat, before: Roots, r: Roots, held: set<string>, dryRun: bool,
                           scripts: string -> Script, migrated: seq<string>, refused: seq<string>)
  {
    && i <= |names|
    && Sorted(names[..i], migrated, refused)
    && AllKept(names, before, r)
    && (dryRun ==> r == before)
    && (forall x :: x in names[i..] ==> Untouched(before, r, x))
    && (forall x :: x in names[..i] && (x in held || x in before.destination) ==>
          x in refused && Untouched(before, r, x))
    && (forall x :: x in migrated && !dryRun ==> MovedWhole(before, r, x, scripts))
  }

  class Disk {
    var source: map<string, Dir>
    var destination: map<string, Dir>
    ghost var past: seq<Roots>  // every state the disk has been in since, oldest first

    constructor (source: map<string, Dir>, destination: map<string, Dir>)
      ensures Now() == Roots(source, destination) && past == []
    {
      this.source := source;
      this.destination := destination;
      past := [];
    }

    function Now(): Roots
      reads this`source, this`destination
    {
      Roots(source, destination)
    }

    // From the n-th state on, the disk has always been within bounds.
    ghost predicate Steady(n: nat, before: Roots, name: string, staging: string)
      reads this
    {
      && n <= |past|
      && Within(before, Now(), name, staging)
      && forall i :: n <= i < |past| ==> Within(before, past[i], name, staging)
    }

    // One change the file system makes at once.
    method Change(newSource: map<string, Dir>, newDestination: map<string, Dir>)
      modifies this
      ensures source == newSource && destination == newDestination
      ensures past == old(past) + [Roots(newSource, newDestination)]
    {
      source := newSource;
      destination := newDestination;
      past := past + [Now()];
    }

    // One change to the staging directory.
    method ChangeStaging(staging: string, newDestination: map<string, Dir>, ghost n: nat, ghost before: Roots,
                         ghost name: string)
      requires Steady(n, before, name, staging) && staging != name
      requires newDestination - {staging} == destination - {staging}
      modifies this
      ensures Steady(n, before, name, staging) && old(past) <= past
      ensures source == old(source) && destination == newDestination
    {
      StagingIsFree(before, Now(), newDestination, name, staging);
      Change(source, newDestination);
    }

    // Remove a directory of the destination root, entry by entry; it is gone once
    // it is empty.
    method RemoveStaging(staging: string, script: seq<Path>, ghost n: nat, ghost before: Roots, ghost name: string)
      returns (ok: bool)
      requires Steady(n, before, name, staging) && staging != name && staging in destination
      modifies this
      ensures Steady(n, before, name, staging) && old(past) <= past && source == old(source)
      ensures destination - {staging} == old(destination) - {staging}
      ensures ok <==> staging !in destination
      ensures ok <==> old(destination)[staging] - Elems(script) == map[]
    {
      hide Within;
      var i := 0;
      while i < |script|
        invariant 0 <= i <= |script| && Steady(n, before, name, staging) && old(past) <= past && staging in destination
        invariant source == old(source) && destination - {staging} == old(destination) - {staging}
        invariant destination[staging] == old(destination)[staging] - Elems(script[..i])
      {
        TakenMore(old(destination)[staging], script, i);
        ChangeStaging(staging, destination[staging := destination[staging] - {script[i]}], n, before, name);
        i := i + 1;
      }
      assert script[..|script|] == script;
      ok := destination[staging] == map[];
      if ok {
        ChangeStaging(staging, destination - {staging}, n, before, name);
      }
    }

    method CopyTree(staging: string, script: seq<(Path, Entry)>, ghost n: nat, ghost before: Roots, ghost name: string)
      requires Steady(n, before, name, staging) && staging != name && staging !in destination
      modifies this
      ensures Steady(n, before, name, staging) && old(past) <= past && source == old(source)
      ensures staging in destination && destination - {staging} == old(destination) - {staging}
      ensures destination[staging] == Laid(script)
    {
      hide Within;
      ChangeStaging(staging, destination[staging := map[]], n, before, name);
      var i := 0;
      while i < |script|
        invariant 0 <= i <= |script| && Steady(n, before, name, staging) && old(past) <= past && staging in destination
        invariant source == old(source) && destination - {staging} == old(destination) - {staging}
        invariant destination[staging] == Laid(script[..i])
      {
        assert script[..i + 1][..i] == script[..i];
        ChangeStaging(staging, destination[staging := destination[staging][script[i].0 := script[i].1]], n, before, name);
        i := i + 1;
      }
      assert script[..|script|] == script;
    }

    method RemoveSource(name: string, script: seq<Path>, ghost n: nat, ghost before: Roots, ghost staging: string)
      returns (ok: bool)
      requires Steady(n, before, name, staging) && name in source
      requires forall f :: f in LOGIN_BEARING ==> Holds(before.source[name], destination, name, f)
      modifies this
      ensures Steady(n, before, name, staging) && old(past) <= past && destination == old(destination)
      ensures var left := old(source)[name] - Elems(script);
              ok == (left == map[]) && if ok then name !in source else name in source && source[name] == left
    {
      var i := 0;
      while i < |script|
        invariant 0 <= i <= |script| && Steady(n, before, name, staging) && old(past) <= past && name in source
        invariant destination == old(destination) && source[name] == old(source)[name] - Elems(script[..i])
      {
        TakenMore(old(source)[name], script, i);
        Change(source[name := source[name] - {script[i]}], destination);
        i := i + 1;
      }
      assert script[..|script|] == script;
      ok := source[name] == map[];
      if ok {
        Change(source - {name}, destination);
      }
    }

    // Copy to a staging directory, verify, rename into place, then remove the
    // source.
    method TransferProfile(name: string, pid: string, script: Script) returns (r: Outcome)
      requires IsProfileName(name) && name in source
      modifies this
      ensures old(past) <= past && Steady(|old(past)|, old(Now()), name, Staging(name, pid))
      ensures Ended(old(Now()), Now(), name, pid, script, r)
      ensures var before, moved := old(Now()), PutInPlace(old(Now()), name, pid, script);
              var cleared := Cleaned(before, name, script) - Elems(script.cleared) == map[];
              name !in before.destination ==>
                && (r == Moved <==> moved && cleared)
                && (r == Refused && name in destination <==> moved && !cleared)
    {
      hide Verified;
      var staging := Staging(name, pid);
      StagingApart(name, pid);
      ghost var before, n := Now(), |past|;
      if name in destination {
        return Refused;
      }
      Change(source[name := source[name] - script.unlocked * SINGLETON], destination);
      if staging in destination {
        var gone := RemoveStaging(staging, script.leftover, n, before, name);
        assert name !in destination - {staging};
        if !gone {
          return Refused;
        }
      }
      r := Deliver(name, staging, script, n, before);
    }

    // With nothing in the staging directory's place: copy, verify, commit.
    method Deliver(name: string, staging: string, script: Script, ghost n: nat, ghost before: Roots)
      returns (r: Outcome)
      requires Steady(n, before, name, staging) && staging != name && staging !in destination && name in source
      requires name !in destination
      requires name in before.source && forall f :: f in LOGIN_BEARING && f in before.source[name] ==>
                 f in source[name] && source[name][f] == before.source[name][f]
      modifies this
      ensures Steady(n, before, name, staging) && old(past) <= past
      ensures Landed(Proven(old(source)[name], script), old(source)[name], Now(), name, script, r)
    {
      hide Verified, Within;
      var proven := Stage(name, staging, script, n, before);
      if !proven {
        var _ := RemoveStaging(staging, script.undone, n, before, name);
        assert name !in destination - {staging};
        return Refused;
      }
      assert name !in destination - {staging};
      var cleared := Commit(name, staging, script.cleared, script.links, n, before);
      r := if cleared then Moved else Refused;
    }

    // Rename the verified copy into place, then clear the source.
    method Commit(name: string, staging: string, cleared: seq<Path>, ghost links: Follow, ghost n: nat,
                  ghost before: Roots) returns (ok: bool)
      requires Steady(n, before, name, staging) && staging != name && staging in destination && name in source
      requires name !in destination && Verified(source[name], destination[staging], links)
      requires name in before.source && forall f :: f in LOGIN_BEARING && f in before.source[name] ==>
                 f in source[name] && source[name][f] == before.source[name][f]
      modifies this
      ensures Steady(n, before, name, staging) && old(past) <= past
      ensures name in destination && destination[name] == old(destination)[staging]
      ensures var left := old(source)[name] - Elems(cleared);
              ok == (left == map[]) && if ok then name !in source else name in source && source[name] == left
    {
      Change(source, destination[name := destination[staging]] - {staging});
      ok := RemoveSource(name, cleared, n, before, staging);
    }

    // Every profile in turn: refused while held, refused where the name is taken,
    // moved otherwise.
    method MigrateProfiles(names: seq<string>, held: set<string>, dryRun: bool, pid: string, scripts: string -> Script)
      returns (migrated: seq<string>, refused: seq<string>)
      requires Distinct(names) && forall x :: x in names ==> IsProfileName(x) && x in source
      modifies this
      ensures Sorted(names, migrated, refused)
      ensures old(past) <= past && AllKept(names, old(Now()), Now())
      ensures forall i :: |old(past)| <= i < |past| ==> AllKept(names, old(Now()), past[i])
      ensures dryRun ==> Now() == old(Now()) && past == old(past)
      ensures forall x :: x in names && (x in held || x in old(destination)) ==>
                x in refused && Untouched(old(Now()), Now(), x)
      ensures forall x :: x in migrated && !dryRun ==> MovedWhole(old(Now()), Now(), x, scripts)
      ensures forall x :: x in names ==>
                Fate(old(Now()), Now(), x, x in held, dryRun, pid, scripts(x), x in migrated)
      ensures forall x :: x in names ==>
                (x in migrated <==>
                   && x !in held && x !in old(destination)
                   && (dryRun || (PutInPlace(old(Now()), x, pid, scripts(x))
                                  && Cleaned(old(Now()), x, scripts(x)) - Elems(scripts(x).cleared) == map[])))
    {
      hide Progress, AllKept, Within, Fates;
      migrated, refused := [], [];
      ghost var before, n := Now(), |past|;
      KeptAtFirst(names, before, held, dryRun, scripts);
      FatesAtFirst(names, before, held, dryRun, pid, scripts);
      var i := 0;
      while i < |names|
        invariant 0 <= i <= |names|
        invariant old(past) <= past && Progress(names, i, before, Now(), held, dryRun, scripts, migrated, refused)
        invariant Fates(names, i, before, Now(), held, dryRun, pid, scripts, migrated)
        invariant forall k :: n <= k < |past| ==> AllKept(names, before, past[k])
        invariant dryRun ==> past == old(past)
      {
        var name := names[i];
        ghost var a, mid := Now(), |past|;
        NextHere(names, i, before, a, held, dryRun, scripts, migrated, refused);
        var moved := MigrateOne(name, name in held, dryRun, pid, scripts(name));
        forall k | mid <= k < |past| ensures AllKept(names, before, past[k]) {
          KeptStep(names, before, a, past[k], name, pid);
        }
        ProgressStep(names, i, before, a, Now(), held, dryRun, pid, scripts, migrated, refused, moved);
        MigratedSoFar(names, i, before, a, held, dryRun, scripts, migrated, refused);
        FatesStep(names, i, before, a, Now(), held, dryRun, pid, scripts, migrated, moved);
        if moved {
          migrated := migrated + [name];
        } else {
          refused := refused + [name];
        }
        i := i + 1;
      }
      ProgressDone(names, before, Now(), held, dryRun, scripts, migrated, refused);
      FatesDone(names, before, Now(), held, dryRun, pid, scripts, migrated);
    }

    // One turn: the holder and the destination are looked at first.
    method MigrateOne(name: string, isHeld: bool, dryRun: bool, pid: string, script: Script) returns (moved: bool)
      requires IsProfileName(name) && name in source
      modifies this
      ensures old(past) <= past && Steady(|old(past)|, old(Now()), name, Staging(name, pid))
      ensures Decided(old(Now()), Now(), name, isHeld, dryRun, pid, script, moved)
      ensures dryRun ==> past == old(past)
    {
      hide Verified;
      if isHeld || name in destination {
        return false;
      }
      if dryRun {
        return true;
      }
      var r := TransferProfile(name, pid, script);
      moved := r == Moved;
    }

    // The copy, its verification, and whether the rename would go through.
    method Stage(name: string, staging: string, script: Script, ghost n: nat, ghost before: Roots) returns (proven: bool)
      requires Steady(n, before, name, staging) && staging != name && staging !in destination && name in source
      modifies this
      ensures Steady(n, before, name, staging) && old(past) <= past && source == old(source)
      ensures staging in destination && destination - {staging} == old(destination) - {staging}
      ensures destination[staging] == Laid(script.copied)
      ensures proven <==> !script.copyRaises && !script.readRaises && !script.renameRaises
                          && Verified(source[name], destination[staging], script.links)
    {
      CopyTree(staging, script.copied, n, before, name);
      if script.copyRaises || script.readRaises {
        return false;
      }
      proven := VerifyTransfer(source[name], destination[staging], script.links);
      proven := proven && !script.renameRaises;
    }
  }

  // Compare the sizes of every regular file, then the logins byte for byte.
  method VerifyTransfer(original: Dir, copy: Dir, links: Follow) returns (ok: bool)
    ensures ok <==> Verified(original, copy, links)
  {
    var files := set p | p in original && original[p].File?;
    while files != {}
      invariant files <= set p | p in original && original[p].File?
      invariant forall p :: p in original && original[p].File? && p !in files ==>
                  p in copy && copy[p].File? && |copy[p].bytes| == |original[p].bytes|
      decreases |files|
    {
      var p :| p in files;
      if p !in copy || !copy[p].File? || |copy[p].bytes| != |original[p].bytes| {
        return false;
      }
      files := files - {p};
    }
    ok := forall p :: p in LOGIN_BEARING ==>
            (Read(original, p, links.source).Some? ==> Read(copy, p, links.copy) == Read(original, p, links.source));
  }

  lemma TakenMore(d: Dir, script: seq<Path>, i: nat)
    requires i < |script|
    ensures d - Elems(script[..i]) - {script[i]} == d - Elems(script[..i + 1])
  {
    assert script[..i + 1] == script[..i] + [script[i]];
    ElemsSnoc(script[..i], script[i]);
  }

  lemma StagingIsFree(before: Roots, r: Roots, destination: map<string, Dir>, name: string, staging: string)
    requires Within(before, r, name, staging) && staging != name && destination - {staging} == r.destination - {staging}
    ensures Within(before, r.(destination := destination), name, staging)
  {
    assert name in destination <==> name in destination - {staging};
    assert name in r.destination <==> name in r.destination - {staging};
    assert name in destination ==> (destination - {staging})[name] == (r.destination - {staging})[name];
    assert destination - {name, staging} == (destination - {staging}) - {name};
    assert r.destination - {name, staging} == (r.destination - {staging}) - {name};
  }

  lemma StagingApart(name: string, pid: string)
    requires IsProfileName(name)
    ensures Staging(name, pid) != name
  {
    assert Staging(name, pid)[0] == '.';
  }

  // ------------------------------------------------------- one after another

  predicate SameAt(a: Roots, b: Roots, x: string) {
    && (x in b.source <==> x in a.source) && (x in a.source ==> b.source[x] == a.source[x])
    && (x in b.destination <==> x in a.destination) && (x in a.destination ==> b.destination[x] == a.destination[x])
  }

  // The transfer of one profile touches no other.
  lemma OthersSame(a: Roots, b: Roots, name: string, pid: string, staging: string, x: string)
    requires Within(a, b, name, staging) && staging == Staging(name, pid) && IsProfileName(x) && x != name
    ensures SameAt(a, b, x)
  {
    assert staging[0] == '.';
    assert x in b.source - {name} <==> x in a.source - {name};
    assert x in b.destination - {name, staging} <==> x in a.destination - {name, staging};
    assert x in a.source ==> (b.source - {name})[x] == (a.source - {name})[x];
    assert x in a.destination ==> (b.destination - {name, staging})[x] == (a.destination - {name, staging})[x];
  }

  lemma KeptAtFirst(names: seq<string>, before: Roots, held: set<string>, dryRun: bool, scripts: string -> Script)
    requires forall x :: x in names ==> x in before.source
    ensures Progress(names, 0, before, before, held, dryRun, scripts, [], [])
    ensures AllKept(names, before, before)
  {
  }

  lemma NextHere(names: seq<string>, i: nat, before: Roots, r: Roots, held: set<string>, dryRun: bool,
                 scripts: string -> Script, migrated: seq<string>, refused: seq<string>)
    requires i < |names| && Progress(names, i, before, r, held, dryRun, scripts, migrated, refused)
    ensures names[i] in r.source && Untouched(before, r, names[i]) && AllKept(names, before, r)
  {
    assert names[i] in names[i..] by { assert names[i..][0] == names[i]; }
  }

  lemma ProgressDone(names: seq<string>, before: Roots, r: Roots, held: set<string>, dryRun: bool,
                     scripts: string -> Script, migrated: seq<string>, refused: seq<string>)
    requires Progress(names, |names|, before, r, held, dryRun, scripts, migrated, refused)
    ensures Sorted(names, migrated, refused) && AllKept(names, before, r) && (dryRun ==> r == before)
    ensures forall x :: x in names && (x in held || x in before.destination) ==> x in refused && Untouched(before, r, x)
    ensures forall x :: x in migrated && !dryRun ==> MovedWhole(before, r, x, scripts)
  {
    assert names[..|names|] == names;
  }

  lemma ProgressStep(names: seq<string>, i: nat, before: Roots, a: Roots, b: Roots, held: set<string>, dryRun: bool,
                     pid: string, scripts: string -> Script, migrated: seq<string>, refused: seq<string>, moved: bool)
    requires i < |names| && Progress(names, i, before, a, held, dryRun, scripts, migrated, refused)
    requires Distinct(names) && forall x :: x in names ==> IsProfileName(x)
    requires names[i] in a.source && Within(a, b, names[i], Staging(names[i], pid))
    requires Decided(a, b, names[i], names[i] in held, dryRun, pid, scripts(names[i]), moved)
    ensures Progress(names, i + 1, before, b, held, dryRun, scripts,
                     if moved then migrated + [names[i]] else migrated, if moved then refused else refused + [names[i]])
  {
    hide AllKept, Within, Verified, Sorted;
    var name := names[i];
    SplitAt(names, i);
    assert AllKept(names, before, a) && Sorted(names[..i], migrated, refused);
    SortedMore(names[..i], migrated, refused, name);
    KeptStep(names, before, a, b, name, pid);
    RestStep(names, before, a, b, name, pid, scripts);
    SortedIn(names[..i], migrated, refused);
    if moved && !dryRun {
      WholeStep(before, a, b, name, pid, scripts);
    }
  }

  lemma SortedIn(names: seq<string>, migrated: seq<string>, refused: seq<string>)
    requires Sorted(names, migrated, refused)
    ensures forall x :: x in migrated ==> x in names
  {
  }

  lemma SplitAt(names: seq<string>, i: nat)
    requires i < |names| && Distinct(names)
    ensures names[i] in names[i..] && names[i] !in names[..i] && names[..i + 1] == names[..i] + [names[i]]
    ensures forall x :: x in names[i + 1..] ==> x in names[i..] && x != names[i]
    ensures forall x :: x in names[..i] ==> x != names[i]
  {
    assert names[i..][0] == names[i];
    assert names[i..][1..] == names[i + 1..];
  }

  lemma SortedMore(names: seq<string>, migrated: seq<string>, refused: seq<string>, x: string)
    requires Sorted(names, migrated, refused) && x !in names
    ensures Sorted(names + [x], migrated + [x], refused) && Sorted(names + [x], migrated, refused + [x])
  {
  }

  // One transfer, begun with its profile untouched, keeps every login.
  lemma KeptStep(names: seq<string>, before: Roots, a: Roots, b: Roots, name: string, pid: string)
    requires AllKept(names, before, a) && Untouched(before, a, name) && Within(a, b, name, Staging(name, pid))
    requires forall x :: x in names ==> IsProfileName(x)
    ensures AllKept(names, before, b)
  {
    forall x | x in names ensures x in before.source && LoginKept(before.source[x], b, x) {
      if x != name {
        OthersSame(a, b, name, pid, Staging(name, pid), x);
        KeptAlike(before.source[x], a, b, x);
      }
    }
  }

  lemma KeptAlike(d: Dir, a: Roots, b: Roots, x: string)
    requires LoginKept(d, a, x) && SameAt(a, b, x)
    ensures LoginKept(d, b, x)
  {
    forall f | f in LOGIN_BEARING ensures Holds(d, b.source, x, f) || Holds(d, b.destination, x, f) {
      assert Holds(d, a.source, x, f) || Holds(d, a.destination, x, f);
    }
  }

  lemma RestStep(names: seq<string>, before: Roots, a: Roots, b: Roots, name: string, pid: string,
                 scripts: string -> Script)
    requires Within(a, b, name, Staging(name, pid)) && forall x :: x in names ==> IsProfileName(x)
    ensures forall x :: x in names && x != name && Untouched(before, a, x) ==> Untouched(before, b, x)
    ensures forall x :: x in names && x != name && MovedWhole(before, a, x, scripts) ==> MovedWhole(before, b, x, scripts)
  {
    hide Verified;
    forall x | x in names && x != name ensures SameAt(a, b, x) {
      OthersSame(a, b, name, pid, Staging(name, pid), x);
    }
  }

  // ------------------------------------------------------------- each one's fate

  lemma FatesAtFirst(names: seq<string>, before: Roots, held: set<string>, dryRun: bool, pid: string,
                     scripts: string -> Script)
    requires forall x :: x in names ==> x in before.source
    ensures Fates(names, 0, before, before, held, dryRun, pid, scripts, [])
  {
  }

  lemma MigratedSoFar(names: seq<string>, i: nat, before: Roots, r: Roots, held: set<string>, dryRun: bool,
                      scripts: string -> Script, migrated: seq<string>, refused: seq<string>)
    requires i < |names| && Distinct(names) && Progress(names, i, before, r, held, dryRun, scripts, migrated, refused)
    ensures names[i] !in migrated && (dryRun ==> r == before)
  {
    SplitAt(names, i);
    SortedIn(names[..i], migrated, refused);
  }

  lemma StagingInjective(x: string, y: string, pid: string)
    ensures Staging(x, pid) == Staging(y, pid) ==> x == y
  {
    var a, b, n := Staging(x, pid), Staging(y, pid), |STAGING_PREFIX|;
    if a == b {
      assert |a| == n + |x| + 1 + |pid| && |b| == n + |y| + 1 + |pid|;
      assert a[n..n + |x|] == x && b[n..n + |y|] == y;
    }
  }

  // The transfer of one profile leaves the way of every other as it was.
  lemma WaySame(a: Roots, b: Roots, name: string, pid: string, x: string)
    requires Within(a, b, name, Staging(name, pid)) && IsProfileName(name) && IsProfileName(x) && x != name
    ensures SameAt(a, b, x) && StagingSame(a, b, x, pid)
  {
    OthersSame(a, b, name, pid, Staging(name, pid), x);
    StagingInjective(x, name, pid);
    var staging, two := Staging(x, pid), {name, Staging(name, pid)};
    assert staging[0] == '.' && staging !in two;
    assert staging in b.destination - two <==> staging in a.destination - two;
    assert staging in a.destination ==> (b.destination - two)[staging] == (a.destination - two)[staging];
  }

  lemma FateStays(before: Roots, a: Roots, b: Roots, x: string, isHeld: bool, dryRun: bool, pid: string,
                  script: Script, moved: bool)
    requires Fate(before, a, x, isHeld, dryRun, pid, script, moved) && SameAt(a, b, x)
    ensures Fate(before, b, x, isHeld, dryRun, pid, script, moved)
  {
    hide PutInPlace, Cleaned, Laid;
  }

  // A turn begun with the way as it was decides as it would have before.
  lemma FateNow(before: Roots, a: Roots, b: Roots, x: string, isHeld: bool, dryRun: bool, pid: string,
                script: Script, moved: bool)
    requires Untouched(before, a, x) && StagingSame(before, a, x, pid) && (dryRun ==> a == before)
    requires Decided(a, b, x, isHeld, dryRun, pid, script, moved)
    ensures Fate(before, b, x, isHeld, dryRun, pid, script, moved)
  {
    hide Proven, Laid, Verified;
    assert Cleaned(a, x, script) == Cleaned(before, x, script);
    assert PutInPlace(a, x, pid, script) == PutInPlace(before, x, pid, script);
  }

  lemma FatesStep(names: seq<string>, i: nat, before: Roots, a: Roots, b: Roots, held: set<string>, dryRun: bool,
                  pid: string, scripts: string -> Script, migrated: seq<string>, moved: bool)
    requires i < |names| && Fates(names, i, before, a, held, dryRun, pid, scripts, migrated)
    requires Distinct(names) && forall x :: x in names ==> IsProfileName(x)
    requires names[i] in a.source && names[i] !in migrated && Within(a, b, names[i], Staging(names[i], pid))
    requires (dryRun ==> a == before) && Decided(a, b, names[i], names[i] in held, dryRun, pid, scripts(names[i]), moved)
    ensures Fates(names, i + 1, before, b, held, dryRun, pid, scripts, if moved then migrated + [names[i]] else migrated)
  {
    hide Fate, Within, Decided, Untouched, StagingSame, SameAt;
    var name, more := names[i], if moved then migrated + [names[i]] else migrated;
    SplitAt(names, i);
    forall x | x in names[..i + 1] ensures Fate(before, b, x, x in held, dryRun, pid, scripts(x), x in more) {
      if x == name {
        FateNow(before, a, b, x, x in held, dryRun, pid, scripts(x), moved);
      } else {
        WaySame(a, b, name, pid, x);
        FateStays(before, a, b, x, x in held, dryRun, pid, scripts(x), x in migrated);
      }
    }
    forall x | x in names[i + 1..] ensures Untouched(before, b, x) && StagingSame(before, b, x, pid) {
      WaySame(a, b, name, pid, x);
      WayStays(before, a, b, x, pid);
    }
  }

  lemma WayStays(before: Roots, a: Roots, b: Roots, x: string, pid: string)
    requires Untouched(before, a, x) && StagingSame(before, a, x, pid)
    requires SameAt(a, b, x) && StagingSame(a, b, x, pid)
    ensures Untouched(before, b, x) && StagingSame(before, b, x, pid)
  {
  }

  lemma FatesDone(names: seq<string>, before: Roots, r: Roots, held: set<string>, dryRun: bool, pid: string,
                  scripts: string -> Script, migrated: seq<string>)
    requires Fates(names, |names|, before, r, held, dryRun, pid, scripts, migrated)
    ensures forall x :: x in names ==> Fate(before, r, x, x in held, dryRun, pid, scripts(x), x in migrated)
  {
    assert names[..|names|] == names;
  }

  lemma WholeStep(before: Roots, a: Roots, b: Roots, name: string, pid: string, scripts: string -> Script)
    requires Untouched(before, a, name) && name !in a.destination && Ended(a, b, name, pid, scripts(name), Moved)
    ensures MovedWhole(before, b, name, scripts)
  {
    hide Verified;
  }

  // ------------------------------------------------------- when nothing goes wrong

  // What was written is d, each of its entries at least once and nothing else.
  ghost predicate Copies(copied: seq<(Path, Entry)>, d: Dir) {
    && (forall i :: 0 <= i < |copied| ==> copied[i].0 in d && copied[i].1 == d[copied[i].0])
    && (forall p :: p in d ==> IsWritten(copied, p))
  }

  ghost predicate IsWritten(copied: seq<(Path, Entry)>, p: Path) {
    exists i :: 0 <= i < |copied| && copied[i].0 == p
  }

  lemma {:induction false} CopiesIsLaid(copied: seq<(Path, Entry)>, d: Dir)
    requires forall i :: 0 <= i < |copied| ==> copied[i].0 in d && copied[i].1 == d[copied[i].0]
    ensures forall p :: p in Laid(copied) ==> p in d && Laid(copied)[p] == d[p]
    ensures forall p :: IsWritten(copied, p) ==> p in Laid(copied)
    decreases |copied|
  {
    if copied != [] {
      var init := copied[..|copied| - 1];
      CopiesIsLaid(init, d);
      forall p | IsWritten(copied, p) ensures p in Laid(copied) {
        var i :| 0 <= i < |copied| && copied[i].0 == p;
        if i < |init| { assert init[i].0 == p; }
      }
    }
  }

  // The source once its lock files are gone is copied as it is, links lead to the
  // same from the copy, nothing fails, and clearing takes every entry of the source.
  ghost predicate Smooth(before: Roots, name: string, pid: string, script: Script)
    requires name in before.source
  {
    var d := Cleaned(before, name, script);
    && Staging(name, pid) !in before.destination
    && !script.copyRaises && !script.readRaises && !script.renameRaises
    && Copies(script.copied, d)
    && (forall t :: t in script.links.source ==>
          t in script.links.copy && script.links.copy[t] == script.links.source[t])
    && (forall p :: p in d ==> p in script.cleared)
  }

  // A profile that nobody holds, whose name is free and for which nothing goes wrong,
  // counts as migrated: it is at the destination, every entry as it was but for the
  // lock files that were removed, and gone from the source.
  lemma SmoothIsMigrated(before: Roots, r: Roots, x: string, pid: string, script: Script, moved: bool)
    requires x in before.source && x !in before.destination && Smooth(before, x, pid, script)
    requires Fate(before, r, x, false, false, pid, script, moved)
    ensures moved && x !in r.source && x in r.destination
    ensures forall p :: p in r.destination[x] <==> p in before.source[x] && !(p in script.unlocked && p in SINGLETON)
    ensures forall p :: p in r.destination[x] ==> r.destination[x][p] == before.source[x][p]
  {
    var d := Cleaned(before, x, script);
    CopiesIsLaid(script.copied, d);
    assert Laid(script.copied) == d;
    assert d - Elems(script.cleared) == map[];
    hide Laid;
    assert Verified(d, d, script.links);
  }

  // And whatever went on, a profile that counts as moved has every regular file of it
  // at the destination with its size, and the login-bearing ones byte for byte.
  lemma MovedHoldsEveryFile(before: Roots, r: Roots, x: string, pid: string, script: Script, p: Path)
    requires x in before.source && x !in before.destination && Fate(before, r, x, false, false, pid, script, true)
    requires p in before.source[x] && before.source[x][p].File? && !(p in script.unlocked && p in SINGLETON)
    ensures x !in r.source && x in r.destination && p in r.destination[x] && r.destination[x][p].File?
    ensures |r.destination[x][p].bytes| == |before.source[x][p].bytes|
    ensures p in LOGIN_BEARING ==> r.destination[x][p] == before.source[x][p]
  {
    hide Laid;
    var d := Cleaned(before, x, script);
    assert p in d && d[p] == before.source[x][p];
    assert Verified(d, r.destination[x], script.links);
    if p in LOGIN_BEARING {
      assert Read(d, p, script.links.source) == Some(d[p].bytes);
    }
  }

  // A transfer that ends refused with the copy in place: one cookie file, copied
  // whole, and a source that could not be cleared.
  lemma RefusedThoughMoved(cookie: Bytes, after: Roots, r: Outcome)
    requires var d: Dir := map["Default/Cookies" := File(cookie)];
             var copied := [("Default/Cookies", File(cookie))];
             var script := Script({}, [], copied, false, false, false, Follow(map[], map[]), [], []);
             Ended(Roots(map["p" := d], map[]), after, "p", "1", script, r)
    ensures r == Refused
    ensures "p" in after.destination && after.destination["p"] == map["Default/Cookies" := File(cookie)]
  {
    var d: Dir := map["Default/Cookies" := File(cookie)];
    var copied := [("Default/Cookies", File(cookie))];
    var script := Script({}, [], copied, false, false, false, Follow(map[], map[]), [], []);
    var before := Roots(map["p" := d], map[]);
    assert copied[..0] == [];
    assert Laid(copied) == d;
    assert Cleaned(before, "p", script) == d;
    assert "Default/Cookies" in d - Elems(script.cleared);
  }
}

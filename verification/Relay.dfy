// The credential relay: a reader thread drains a pipe while its owner waits for the
// child that writes to it, and for whatever the child may have left behind.
module Relay {
  import opened Prelude

  type Byte = bv8

  const MAX_VALUE_BYTES := 65536
  const READ_SIZE := 32768

  // -------------------------------------------------------------- the reader

  // What one turn of the reader's loop meets.
  datatype Turn = Idle | Chunk(bytes: seq<Byte>) | EndOfFile | ReadError

  datatype Reader = Reader(chunks: seq<seq<Byte>>, total: nat, overflow: bool, error: bool, ended: bool, stop: bool)

  const NEW_READER: Reader := Reader([], 0, false, false, false, false)

  function Turned(r: Reader, t: Turn): Reader {
    if r.ended then r
    else if r.stop then r.(ended := true)
    else
      match t
      case Idle => r
      case ReadError => r.(error := true, ended := true)
      case EndOfFile => r.(ended := true)
      case Chunk(bytes) =>
        var total := r.total + |bytes|;
        if total > MAX_VALUE_BYTES then r.(total := total, overflow := true, ended := true)
        else r.(total := total, chunks := r.chunks + [bytes])
  }

  datatype Refusal = Cancelled | Overflowed | TimedOut | NotClosed | Unreadable | Refused | NotStarted

  // What the owner is told once it has waited for the reader.
  function Finished(r: Reader): Result<seq<Byte>, Refusal> {
    if !r.ended then Err(NotClosed)
    else if r.error then Err(Unreadable)
    else if r.overflow then Err(Overflowed)
    else Ok(Joined(r.chunks))
  }

  class PipeReader {
    var chunks: seq<seq<Byte>>
    var total: nat
    var overflow: bool
    var error: bool
    var ended: bool
    var stop: bool

    constructor ()
      ensures Now() == NEW_READER
    {
      chunks, total, overflow, error, ended, stop := [], 0, false, false, false, false;
    }

    function Now(): Reader
      reads this
    {
      Reader(chunks, total, overflow, error, ended, stop)
    }

    // The thread's loop, over what its turns meet; it ends early or runs out of
    // turns to be scheduled.
    method Run(turns: seq<Turn>)
      modifies this
      ensures Now() == TurnedAll(old(Now()), turns)
    {
      var i := 0;
      while i < |turns|
        invariant 0 <= i <= |turns|
        invariant TurnedAll(Now(), turns[i..]) == TurnedAll(old(Now()), turns)
      {
        assert turns[i..][1..] == turns[i + 1..];
        Step(turns[i]);
        i := i + 1;
      }
    }

    method Step(turn: Turn)
      modifies this
      ensures Now() == Turned(old(Now()), turn)
    {
      if ended {
        return;
      }
      if stop {
        ended := true;
        return;
      }
      match turn
      case Idle =>
      case ReadError =>
        error, ended := true, true;
      case EndOfFile =>
        ended := true;
      case Chunk(bytes) =>
        total := total + |bytes|;
        if total > MAX_VALUE_BYTES {
          overflow, ended := true, true;
        } else {
          chunks := chunks + [bytes];
        }
    }

    // The join has returned: the thread is dead, or the wait for it was over.
    method Finish() returns (r: Result<seq<Byte>, Refusal>)
      modifies this`stop
      ensures r == Finished(old(Now()))
      ensures Now() == if r == Err(NotClosed) then old(Now()).(stop := true) else old(Now())
    {
      if !ended {
        stop := true;
        return Err(NotClosed);
      }
      if error {
        return Err(Unreadable);
      }
      if overflow {
        return Err(Overflowed);
      }
      var data: seq<Byte> := [];
      for i := 0 to |chunks|
        invariant unchanged(this)
        invariant data == Joined(chunks[..i])
      {
        assert chunks[..i + 1] == chunks[..i] + [chunks[i]];
        JoinedSnoc(chunks[..i], chunks[i]);
        data := data + chunks[i];
      }
      assert chunks[..|chunks|] == chunks;
      r := Ok(data);
    }
  }

  function TurnedAll(r: Reader, turns: seq<Turn>): Reader
    decreases |turns|
  {
    if turns == [] then r else TurnedAll(Turned(r, turns[0]), turns[1..])
  }

  // ------------------------------------------------ the pipe and the processes

  // Everything ever written, how much of it has been read, and how many processes
  // hold the write end.
  datatype Pipe = Pipe(written: seq<Byte>, read: nat, writers: nat)

  // Where the owner stands. Its loop looks at the cancel flag, then at the reader,
  // then waits a little for the child; then the group is killed and the flag is
  // looked at again.
  datatype Owner =
    | Starting
    | AtCancel
    | AtOverflow
    | AtWait
    | AtKill(code: int)
    | AtLastCancel(code: int)
    | AtJoin(code: int)
    | AtCode(code: int, data: seq<Byte>)
    | Returned(code: int, data: seq<Byte>)
    | Raised(why: Refusal)

  datatype System = System(pipe: Pipe, reader: Reader, owner: Owner, cancel: bool)

  datatype Action =
    | Write(bytes: seq<Byte>)          // by any process that holds the write end
    | Fork                             // one more process holds it
    | LetGo                            // a process closes it, exits, or is killed
    | Read(turn: Turn)
    | Cancel
    | Spawn(ok: bool)
    | Look                             // the owner's next check or kill
    | Wait(exit: Option<int>, late: bool)
    | Join
    | Judge
    | Unwind                           // the owner is done: the reader is stopped

  ghost predicate Possible(s: System, a: Action) {
    match a
    case Write(_) => s.pipe.writers > 0
    case Fork => s.pipe.writers > 0
    case LetGo => s.pipe.writers > 0 && !s.owner.Starting?
    case Read(t) =>
      && !s.owner.Starting?
      && (match t
          case Chunk(bytes) =>
            && 0 < |bytes| <= READ_SIZE && s.pipe.read + |bytes| <= |s.pipe.written|
            && bytes == s.pipe.written[s.pipe.read..s.pipe.read + |bytes|]
          case EndOfFile => s.pipe.read == |s.pipe.written| && s.pipe.writers == 0
          case _ => true)
    case Cancel => true
    case Spawn(_) => s.owner.Starting?
    case Look => s.owner.AtCancel? || s.owner.AtOverflow? || s.owner.AtKill? || s.owner.AtLastCancel?
    case Wait(_, _) => s.owner.AtWait?
    case Join => s.owner.AtJoin?
    case Judge => s.owner.AtCode?
    case Unwind => s.owner.Returned? || s.owner.Raised?
  }

  // The reader takes a chunk off the pipe only while it is running.
  function ReadPipe(p: Pipe, r: Reader, t: Turn): Pipe {
    if t.Chunk? && !r.ended && !r.stop then p.(read := p.read + |t.bytes|) else p
  }

  function Next(s: System, a: Action): System {
    match a
    case Write(bytes) => s.(pipe := s.pipe.(written := s.pipe.written + bytes))
    case Fork => s.(pipe := s.pipe.(writers := s.pipe.writers + 1))
    case LetGo => s.(pipe := s.pipe.(writers := if s.pipe.writers > 0 then s.pipe.writers - 1 else 0))
    case Read(t) => s.(pipe := ReadPipe(s.pipe, s.reader, t), reader := Turned(s.reader, t))
    case Cancel => s.(cancel := true)
    case Spawn(ok) =>
      // The owner closes its own copy either way; the child has inherited one.
      if ok then s.(owner := AtCancel) else s.(owner := Raised(NotStarted), pipe := s.pipe.(writers := 0))
    case Look =>
      (match s.owner
       case AtCancel => s.(owner := if s.cancel then Raised(Cancelled) else AtOverflow)
       case AtOverflow => s.(owner := if s.reader.overflow then Raised(Overflowed) else AtWait)
       case AtKill(code) => s.(owner := AtLastCancel(code))
       case AtLastCancel(code) => s.(owner := if s.cancel then Raised(Cancelled) else AtJoin(code))
       case _ => s)
    case Wait(exit, late) =>
      s.(owner := if exit.Some? then AtKill(exit.value) else if late then Raised(TimedOut) else AtCancel)
    case Join =>
      (match (s.owner, Finished(s.reader))
       case (AtJoin(code), Ok(data)) => s.(owner := AtCode(code, data))
       case (_, Err(why)) => s.(owner := Raised(why), reader := s.reader.(stop := true))
       case _ => s)
    case Judge =>
      (match s.owner
       case AtCode(code, data) => s.(owner := if code == 0 then Returned(code, data) else Raised(Refused))
       case _ => s)
    case Unwind => s.(reader := s.reader.(stop := true))
  }

  // Nothing written, nothing read; only the owner holds the write end.
  const BEFORE: System := System(Pipe([], 0, 1), NEW_READER, Starting, false)

  ghost predicate Schedule(s: System, run: seq<Action>)
    decreases |run|
  {
    run != [] ==> Possible(s, run[0]) && Schedule(Next(s, run[0]), run[1..])
  }

  function Ran(s: System, run: seq<Action>): System
    decreases |run|
  {
    if run == [] then s else Ran(Next(s, run[0]), run[1..])
  }

  // ------------------------------------------------------------- what is kept

  // Everything read is in the chunks, in order, until the bound is passed; and a
  // reader that ended by itself, not stopped, did so at a pipe nobody can write to
  // with nothing left in it.
  ghost predicate Sound(s: System) {
    && s.pipe.read <= |s.pipe.written|
    && (!s.reader.overflow ==>
          && Joined(s.reader.chunks) == s.pipe.written[..s.pipe.read]
          && s.reader.total == s.pipe.read <= MAX_VALUE_BYTES)
    && (s.reader.overflow ==> s.reader.total > MAX_VALUE_BYTES && s.reader.ended)
    && (s.reader.stop ==> s.owner.Returned? || s.owner.Raised?)
    && (s.reader.ended && !s.reader.error && !s.reader.overflow && !s.reader.stop ==> Drained(s.pipe))
    && (s.owner.AtCode? || s.owner.Returned? ==>
          Drained(s.pipe) && s.owner.data == s.pipe.written && |s.owner.data| <= MAX_VALUE_BYTES)
    && (s.owner.Returned? ==> s.owner.code == 0)
  }

  predicate Drained(p: Pipe) {
    p.read == |p.written| && p.writers == 0
  }

  lemma ReadKeeps(s: System, t: Turn)
    requires Sound(s) && Possible(s, Read(t))
    ensures Sound(Next(s, Read(t)))
  {
    if t.Chunk? && !s.reader.ended && !s.reader.stop {
      JoinedSnoc(s.reader.chunks, t.bytes);
      assert s.pipe.written[..s.pipe.read + |t.bytes|] == s.pipe.written[..s.pipe.read] + t.bytes;
    }
  }

  lemma JoinKeeps(s: System)
    requires Sound(s) && Possible(s, Join)
    ensures Sound(Next(s, Join))
  {
    assert s.pipe.written[..|s.pipe.written|] == s.pipe.written;
  }

  lemma StepKeeps(s: System, a: Action)
    requires Sound(s) && Possible(s, a)
    ensures Sound(Next(s, a))
  {
    match a
    case Read(t) => ReadKeeps(s, t);
    case Join => JoinKeeps(s);
    case Write(bytes) =>
      assert (s.pipe.written + bytes)[..s.pipe.read] == s.pipe.written[..s.pipe.read];
    case _ =>
  }

  lemma {:induction false} RunKeeps(s: System, run: seq<Action>)
    requires Sound(s) && Schedule(s, run)
    ensures Sound(Ran(s, run))
    decreases |run|
  {
    if run != [] {
      StepKeeps(s, run[0]);
      RunKeeps(Next(s, run[0]), run[1..]);
    }
  }

  // For every schedule of child, descendants, reader, cancellation and clock: what
  // is returned is every byte ever written to the pipe, in order, at most 64 KiB,
  // and the child exited with 0; and nobody is left who could write another byte.
  lemma SecretIsWhole(run: seq<Action>)
    requires Schedule(BEFORE, run)
    ensures var s := Ran(BEFORE, run);
            s.owner.Returned? ==>
              s.owner.data == s.pipe.written && |s.owner.data| <= 65536 && s.owner.code == 0 && s.pipe.writers == 0
  {
    RunKeeps(BEFORE, run);
  }

  // The reader is the only one who can refuse a value here, and it does so exactly
  // when the value is too long, the pipe cannot be read, or someone still holds it
  // open: a reader that ended unharmed has read everything there will ever be.
  lemma ReaderVerdict(run: seq<Action>)
    requires Schedule(BEFORE, run)
    requires Ran(BEFORE, run).owner.AtJoin?
    ensures var s := Ran(BEFORE, run);
            Finished(s.reader) == if s.reader.ended && !s.reader.error && s.reader.total <= 65536 then Ok(s.pipe.written)
                                  else if !s.reader.ended then Err(NotClosed)
                                  else if s.reader.error then Err(Unreadable) else Err(Overflowed)
  {
    RunKeeps(BEFORE, run);
    var s := Ran(BEFORE, run);
    assert s.pipe.written[..|s.pipe.written|] == s.pipe.written;
  }

  // A value past the bound is never returned, however the pieces arrive.
  lemma {:induction false} TooLongIsNeverReturned(s: System, run: seq<Action>)
    requires Sound(s) && |s.pipe.written| > MAX_VALUE_BYTES && Schedule(s, run)
    ensures !Ran(s, run).owner.Returned?
    decreases |run|
  {
    if run != [] {
      StepKeeps(s, run[0]);
      TooLongIsNeverReturned(Next(s, run[0]), run[1..]);
    }
  }

  // ------------------------------------------------------------ why it is refused

  // The child exited with this code, by what the wait for it said.
  ghost predicate ExitedWith(past: seq<Action>, code: int) {
    exists i :: 0 <= i < |past| && past[i].Wait? && past[i].exit == Some(code)
  }

  // What a refusal tells the caller has happened.
  ghost predicate Because(past: seq<Action>, s: System, why: Refusal) {
    match why
    case Cancelled => Action.Cancel in past
    case Overflowed => |s.pipe.written| > MAX_VALUE_BYTES
    case TimedOut => Wait(None, true) in past
    case NotClosed => Join in past
    case Unreadable => Read(ReadError) in past
    case Refused => exists code :: code != 0 && ExitedWith(past, code)
    case NotStarted => Spawn(false) in past
  }

  ghost predicate Grounded(past: seq<Action>, s: System) {
    && (s.cancel ==> Action.Cancel in past)
    && (s.reader.overflow ==> |s.pipe.written| > MAX_VALUE_BYTES)
    && (s.reader.error ==> Read(ReadError) in past)
    && (s.owner.AtKill? || s.owner.AtLastCancel? || s.owner.AtJoin? || s.owner.AtCode? ==>
          ExitedWith(past, s.owner.code))
    && (s.owner.Raised? ==> Because(past, s, s.owner.why))
  }

  lemma ExitedMore(past: seq<Action>, a: Action, code: int)
    ensures ExitedWith(past, code) ==> ExitedWith(past + [a], code)
    ensures a.Wait? && a.exit == Some(code) ==> ExitedWith(past + [a], code)
  {
    assert (past + [a])[|past|] == a;
    if ExitedWith(past, code) {
      var i :| 0 <= i < |past| && past[i].Wait? && past[i].exit == Some(code);
      assert (past + [a])[i] == past[i];
    }
  }

  lemma StepGrounded(past: seq<Action>, s: System, a: Action)
    requires Sound(s) && Possible(s, a) && Grounded(past, s)
    ensures Grounded(past + [a], Next(s, a))
  {
    assert forall b :: b in past ==> b in past + [a];
    assert a in past + [a];
    hide ExitedWith;
    if s.owner.AtKill? || s.owner.AtLastCancel? || s.owner.AtJoin? || s.owner.AtCode? {
      ExitedMore(past, a, s.owner.code);
    }
    if a.Wait? && a.exit.Some? { ExitedMore(past, a, a.exit.value); }
    if s.owner.Raised? && s.owner.why.Refused? {
      var code :| code != 0 && ExitedWith(past, code);
      ExitedMore(past, a, code);
    }
  }

  lemma {:induction false} RunGrounded(past: seq<Action>, s: System, run: seq<Action>)
    requires Sound(s) && Schedule(s, run) && Grounded(past, s)
    ensures Grounded(past + run, Ran(s, run))
    decreases |run|
  {
    hide Grounded, Sound, Possible;
    if run == [] {
      assert past + run == past;
    } else {
      StepKeeps(s, run[0]);
      StepGrounded(past, s, run[0]);
      RunGrounded(past + [run[0]], Next(s, run[0]), run[1..]);
      assert past + [run[0]] + run[1..] == past + run;
    }
  }

  // Over every schedule, what a refusal says is so: a cancellation was asked for, more
  // than 64 KiB was written, the time was over, the reader was waited for in vain or
  // could not read, the child exited with another code than 0 or never started.
  lemma RefusalHasItsCause(run: seq<Action>)
    requires Schedule(BEFORE, run) && Ran(BEFORE, run).owner.Raised?
    ensures Because(run, Ran(BEFORE, run), Ran(BEFORE, run).owner.why)
  {
    RunGrounded([], BEFORE, run);
    assert [] + run == run;
  }

  // ------------------------------------------------------- what has to be returned

  // Nothing in the rest of the run gives cause to refuse: it is not cancelled, the
  // child starts and exits with 0 in time, the pipe can be read, the value is within
  // the bound, and the reader is through with it when it is waited for.
  ghost predicate Untroubled(s: System, run: seq<Action>)
    decreases |run|
  {
    run != [] ==>
      && run[0] != Cancel && run[0] != Spawn(false) && run[0] != Read(ReadError)
      && (run[0].Wait? ==> (run[0].exit == None && !run[0].late) || run[0].exit == Some(0))
      && (run[0].Write? ==> |s.pipe.written| + |run[0].bytes| <= MAX_VALUE_BYTES)
      && (run[0] == Join ==> s.reader.ended)
      && Untroubled(Next(s, run[0]), run[1..])
  }

  // Where the owner stands while nothing has given cause.
  predicate OnCourse(s: System) {
    && !s.cancel && !s.reader.error && !s.reader.overflow && |s.pipe.written| <= MAX_VALUE_BYTES
    && !s.owner.Raised?
    && (s.owner.AtKill? || s.owner.AtLastCancel? || s.owner.AtJoin? || s.owner.AtCode? || s.owner.Returned? ==>
          s.owner.code == 0)
  }

  lemma CourseKept(s: System, a: Action)
    requires Sound(s) && OnCourse(s) && Possible(s, a) && Untroubled(s, [a])
    ensures OnCourse(Next(s, a))
  {
  }

  // Then nothing is refused; and an owner that waits for its reader returns the whole
  // value with its next two steps.
  lemma {:induction false} WholeValueIsReturned(s: System, run: seq<Action>)
    requires Sound(s) && OnCourse(s) && Schedule(s, run) && Untroubled(s, run)
    ensures var r := Ran(s, run);
            && !r.owner.Raised?
            && (r.owner.AtJoin? && r.reader.ended && !r.reader.stop ==>
                  Schedule(r, [Join, Judge]) && Ran(r, [Join, Judge]).owner == Returned(0, r.pipe.written))
    decreases |run|
  {
    if run == [] {
      assert [Join, Judge][1..] == [Judge] && [Judge][1..] == [];
      assert s.pipe.written[..|s.pipe.written|] == s.pipe.written;
      assert Ran(s, [Join, Judge]) == Ran(Next(s, Join), [Judge]) == Next(Next(s, Join), Judge);
    } else {
      CourseKept(s, run[0]);
      StepKeeps(s, run[0]);
      WholeValueIsReturned(Next(s, run[0]), run[1..]);
    }
  }

  lemma UntroubledRunReturns(run: seq<Action>)
    requires Schedule(BEFORE, run) && Untroubled(BEFORE, run)
    ensures var r := Ran(BEFORE, run);
            && !r.owner.Raised?
            && (r.owner.Returned? ==> r.owner == Returned(0, r.pipe.written))
            && (r.owner.AtJoin? && r.reader.ended && !r.reader.stop ==>
                  Ran(r, [Join, Judge]).owner == Returned(0, r.pipe.written))
  {
    WholeValueIsReturned(BEFORE, run);
    SecretIsWhole(run);
  }
}

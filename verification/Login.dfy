// One login against an environment that may answer, refuse, fail, time out,
// cancel or interrupt every call that is awaited.
module Login {
  import opened Prelude
  import opened LoginContract

  // How an awaited call can fail: an error of its own, the operation's clock
  // already at its end when the call is made, the wall around the work firing
  // while the call is out, cancellation from outside, or an interrupt.
  datatype Throw = Fails | Late | Wall | Cancel | Break

  datatype Reply<+T> = Got(v: T) | Threw(how: Throw)

  datatype FillAnswer = FillAnswer(ok: bool, refusedBeforeInsertion: bool, reason: string)
  datatype Answer = Answer(ok: bool, reason: string)

  // A clear: the call's own answer and, when it fails, whether the document is
  // seen to have been replaced.
  datatype ClearAnswer = ClearAnswer(call: Reply<bool>, replaced: Reply<bool>)

  // One poll of the success condition. Accepted is a positive probe that
  // returned with time remaining; a probe may also come back after the clock.
  datatype Poll = Accepted | TooLate | NotYet | Broken | Stopped(how: Throw)

  // Everything the controller awaits, each answered once. The success condition
  // is polled until the clock runs out, which is after the last of polls.
  datatype Env = Env(
    expiredAtStart: bool,
    acquire: Reply<()>,
    owner: Reply<()>,
    pageEnable: Reply<()>,
    begin: Reply<string>,
    validation: Reply<Answer>,
    credentials: Reply<()>,
    loaderChanged: Reply<bool>,
    fill: Reply<FillAnswer>,
    submit: Reply<Answer>,
    firstClear: ClearAnswer,
    lastClear: ClearAnswer,
    polls: seq<Poll>,
    close: Reply<()>,
    teardown: Reply<()>)

  // What the controller does to the form.
  datatype Call = Fill | Submit | Clear(result: Option<Cleared>)

  // ------------------------------------------------------------ exceptions of a call

  // A bounded send: every Exception becomes one fixed diagnostic.
  function Sent(t: Throw): Exc {
    match t
    case Fails => Plain(SESSION_FAILED)
    case Late => Expired
    case Wall => TimedOut
    case Cancel => Cancelled
    case Break => Interrupt
  }

  // A call whose own errors are fixed already and pass as they are.
  function Passed(t: Throw): Exc {
    if t.Fails? then Failure else Sent(t)
  }

  // ------------------------------------------------------------------- the clear

  // True, False and None of the code; None here when an interrupt cut it short.
  function ClearResult(a: ClearAnswer): Option<Cleared> {
    match a.call
    case Got(cleared) => Some(if cleared then Confirmed else Uncertain)
    case Threw(Break) => None
    case Threw(_) =>
      match a.replaced
      case Got(true) => Some(Replaced)
      case Threw(Break) => None
      case _ => Some(Uncertain)
  }

  // What the whole run needs of its environment to end normally.
  predicate Certain(a: ClearAnswer) {
    ClearResult(a) == Some(Confirmed) || ClearResult(a) == Some(Replaced)
  }

  predicate SuccessSeen(polls: seq<Poll>) {
    polls != [] && (polls[0].Accepted? || (Undecided(polls[0]) && SuccessSeen(polls[1..])))
  }

  // The poll saw nothing yet, or lost its context or its own time: it goes on.
  predicate Undecided(p: Poll) {
    p.NotYet?
  }

  predicate Smooth(env: Env) {
    && !env.expiredAtStart && env.acquire.Got? && env.owner.Got? && env.pageEnable.Got? && env.begin.Got?
    && env.validation.Got? && env.validation.v.ok
    && env.credentials.Got?
    && env.loaderChanged == Got(false)
    && env.fill.Got? && env.fill.v.ok
    && env.submit.Got? && env.submit.v.ok
    && Certain(env.firstClear)
    && SuccessSeen(env.polls)
    && Certain(env.lastClear)
    && env.close.Got? && env.teardown.Got?
  }

  // ------------------------------------------------------------ reading the trace

  // The last clear, when the trace ends with one; clears come last.
  function LastClear(trace: seq<Call>): Option<Option<Cleared>> {
    if trace != [] && trace[|trace| - 1].Clear? then Some(trace[|trace| - 1].result) else None
  }

  predicate LastClearUncertain(trace: seq<Call>) {
    LastClear(trace) == Some(Some(Uncertain))
  }

  // One fill, at most one submit and only after it, and nothing but clears then.
  predicate Orderly(trace: seq<Call>) {
    || trace == []
    || (trace[0].Fill?
        && (|trace| == 1
            || (forall i :: 1 <= i < |trace| ==> trace[i].Clear?)
            || (trace[1].Submit? && forall i :: 2 <= i < |trace| ==> trace[i].Clear?)))
  }

  // ------------------------------------------------- the verdict, read from the answers

  // What stopped the work: before anything was inserted; with the fill or the submit
  // out and no answer to it; a refusal after something may have been inserted; the
  // clear after the submission; the wait for success, or its end.
  datatype Ending =
    | PageSaid(code: string)
    | PageMoved
    | CallThrew(how: Throw, own: bool)
    | NoAnswer(phase: Phase, how: Throw)
    | SaidAfter(code: string)
    | ClearFailed(result: Option<Cleared>)
    | WaitThrew(how: Throw)
    | WaitEnded(unmet: Option<Message>)

  function EndingOf(env: Env): (end: Ending)
    ensures end.WaitThrew? ==> end.how == Cancel || end.how == Break
    ensures end.NoAnswer? ==> end.phase == FILL_DISPATCHED || end.phase == SUBMIT_DISPATCHED
  {
    if env.pageEnable.Threw? then CallThrew(env.pageEnable.how, false)
    else if env.begin.Threw? then CallThrew(env.begin.how, false)
    else if env.validation.Threw? then CallThrew(env.validation.how, false)
    else if !env.validation.v.ok then PageSaid(env.validation.v.reason)
    else if env.credentials.Threw? then CallThrew(env.credentials.how, true)
    else if env.loaderChanged.Threw? then CallThrew(env.loaderChanged.how, false)
    else if env.loaderChanged.v then PageMoved
    else if env.fill.Threw? then NoAnswer(FILL_DISPATCHED, env.fill.how)
    else if !env.fill.v.ok then
      if env.fill.v.refusedBeforeInsertion then PageSaid(env.fill.v.reason) else SaidAfter(env.fill.v.reason)
    else if env.submit.Threw? then NoAnswer(SUBMIT_DISPATCHED, env.submit.how)
    else if !env.submit.v.ok then SaidAfter(env.submit.v.reason)
    else if !Certain(env.firstClear) then ClearFailed(ClearResult(env.firstClear))
    else WaitOf(env.polls)
  }

  // How the wait for success ends: with it, without it, or by an exception that is
  // not the wait's own.
  function WaitOf(polls: seq<Poll>): (end: Ending)
    ensures end.WaitThrew? || end.WaitEnded?
    ensures end.WaitThrew? ==> end.how == Cancel || end.how == Break
  {
    if polls == [] then WaitEnded(Some(SUCCESS_UNMET))
    else match polls[0]
      case NotYet => WaitOf(polls[1..])
      case Accepted => WaitEnded(None)
      case Broken => WaitEnded(Some(SESSION_FAILED))
      case TooLate => WaitEnded(Some(SUCCESS_UNMET))
      case Stopped(Cancel) => WaitThrew(Cancel)
      case Stopped(Break) => WaitThrew(Break)
      case Stopped(Fails) => WaitEnded(Some(SESSION_FAILED))
      case Stopped(_) => WaitEnded(Some(SUCCESS_UNMET))
  }

  // Whether a value may be in the form at the end, and no clear has been made of it.
  predicate OwesClear(end: Ending) {
    !end.PageSaid? && !end.PageMoved? && !end.CallThrew? && end != ClearFailed(Some(Uncertain))
  }

  // What is left of it: the error to report, or what goes on flying.
  datatype Left = Quiet | Reports(e: Exc) | Flies(e: Exc)

  function Warning(uncertain: bool, otherwise: Left): Left {
    if uncertain then Reports(MayRemain()) else otherwise
  }

  // The report of a session, before its dialogs are closed.
  function LeftOf(end: Ending, last: Option<Cleared>): Left {
    if OwesClear(end) && last.None? then Flies(Interrupt)
    else
      var uncertain := last == Some(Uncertain);
      match end
      case PageSaid(code) => Reports(Plain(Reason(code)))
      case PageMoved => Reports(Plain(PAGE_CHANGED_BEFORE_FILL))
      case CallThrew(Fails, own) => if own then Flies(Failure) else Reports(Plain(SESSION_FAILED))
      case CallThrew(Late, _) => Reports(Expired)
      case CallThrew(Wall, _) => Reports(Plain(TIMED_OUT))
      case CallThrew(how, _) => Flies(Sent(how))
      case NoAnswer(_, Break) => Flies(Interrupt)
      case NoAnswer(phase, how) =>
        Warning(uncertain,
                if last == Some(Replaced) then
                  Reports(Plain(if phase == FILL_DISPATCHED then PAGE_CHANGED_DURING_FILL
                                else PAGE_CHANGED_BEFORE_SUBMIT))
                else if how == Cancel then Flies(Cancelled)
                else Reports(Plain(if phase == FILL_DISPATCHED then FILL_UNCERTAIN_CLEARED
                                   else SUBMIT_UNCERTAIN_CLEARED)))
      case SaidAfter(code) =>
        Reports(if uncertain then LoginError(Warned(Reason(code)), true) else Plain(Reason(code)))
      case ClearFailed(result) => if result.None? then Flies(Interrupt) else Reports(MayRemain())
      case WaitThrew(Break) => Flies(Interrupt)
      case WaitThrew(how) => Warning(uncertain, Flies(Sent(how)))
      case WaitEnded(unmet) => Warning(uncertain, if unmet.None? then Quiet else Reports(Plain(unmet.value)))
  }

  // A failed close outranks all but the warning; an interrupt of it, everything.
  function Closed(left: Left, close: Reply<()>): Outcome<()> {
    if close == Threw(Break) then Raise(Interrupt)
    else if close.Threw? && !(left.Reports? && left.e.Flagged()) then Raise(Passed(close.how))
    else if left.Quiet? then Val(())
    else Raise(left.e)
  }

  // A failed teardown outranks success; cancelled or interrupted, all but the warning
  // and what flies already.
  function TornDown(r: Outcome<()>, teardown: Reply<()>): Outcome<()> {
    if r.Raise? && !r.e.IsLoginError() && r.e != TimedOut then r
    else
      var told := if r == Raise(TimedOut) then Raise(Plain(TIMED_OUT)) else r;
      match teardown
      case Got(_) => told
      case Threw(how) =>
        if how == Cancel || how == Break then
          if told.Raise? && told.e.Flagged() then told else Raise(Sent(how))
        else if told.Raise? then told
        else Raise(Plain(if how == Wall then TIMED_OUT else SESSION_FAILED))
  }

  function Verdict(env: Env): Outcome<()> {
    if env.expiredAtStart then Raise(Plain(TIMED_OUT))
    else if env.acquire.Threw? then
      var e := Passed(env.acquire.how);
      Raise(if e == TimedOut then Plain(TIMED_OUT) else e)
    else if env.owner.Threw? then TornDown(Raise(Sent(env.owner.how)), env.teardown)
    else TornDown(Closed(LeftOf(EndingOf(env), ClearResult(env.lastClear)), env.close), env.teardown)
  }

  class Transaction {
    const env: Env
    var trace: seq<Call>
    const progress: Progress

    constructor (env: Env)
      ensures this.env == env && trace == [] && fresh(progress)
      ensures progress.state == Untouched && progress.stop == None
    {
      this.env := env;
      trace := [];
      progress := new Progress();
    }

    // Clear the bound fields on a budget of its own.
    method TryClear(answer: ClearAnswer) returns (r: Outcome<Cleared>)
      modifies this`trace
      ensures trace == old(trace) + [Clear(ClearResult(answer))]
      ensures r == if ClearResult(answer).None? then Raise(Interrupt) else Val(ClearResult(answer).value)
      ensures r == Val(Confirmed) <==> answer.call == Got(true)
      ensures r == Val(Replaced) <==>
                answer.call.Threw? && answer.call.how != Break && answer.replaced == Got(true)
      ensures r == Raise(Interrupt) <==>
                answer.call == Threw(Break) || (answer.call.Threw? && answer.replaced == Threw(Break))
    {
      trace := trace + [Clear(ClearResult(answer))];
      match answer.call {
        case Got(cleared) =>
          return Val(if cleared then Confirmed else Uncertain);
        case Threw(t) =>
          if t == Break {
            return Raise(Interrupt);
          }
          match answer.replaced {
            case Got(changed) =>
              if changed {
                return Val(Replaced);
              }
            case Threw(u) =>
              if u == Break {
                return Raise(Interrupt);
              }
          }
          return Val(Uncertain);
      }
    }

    // Run the one owed clear, and say what is to be reported.
    method Finalize(cause: Option<StopCause>, clearOnly: bool) returns (r: Outcome<Option<Exc>>)
      modifies this`trace, progress`stop
      ensures progress.stop == if cause.Some? then cause else old(progress.stop)
      ensures progress.state.Untouched? ==>
                trace == old(trace)
                && r == Val(if clearOnly then None else Diagnosis(Untouched, progress.stop, Replaced))
      ensures progress.state.Bound? ==>
                && trace == old(trace) + [Clear(ClearResult(env.lastClear))]
                && (ClearResult(env.lastClear).None? ==> r == Raise(Interrupt))
                && (ClearResult(env.lastClear).Some? ==>
                     r == Val(if clearOnly then None
                              else Diagnosis(progress.state, progress.stop, ClearResult(env.lastClear).value)))
      ensures r.Val? && !clearOnly && Unflagged(progress.stop) ==>
                Reported(progress.state, progress.stop,
                         if progress.state.Untouched? then Replaced else ClearResult(env.lastClear).value, r.v)
    {
      hide Diagnosis, Reported;
      if cause.Some? {
        progress.StopWith(cause.value);
      }
      if progress.state.Untouched? {
        if Unflagged(progress.stop) { DiagnosisIsReported(progress.state, progress.stop, Replaced); }
        return Val(if clearOnly then None else Diagnosis(progress.state, progress.stop, Replaced));
      }
      var cleared := TryClear(env.lastClear);
      if cleared.Raise? {
        return Raise(cleared.e);
      }
      if Unflagged(progress.stop) { DiagnosisIsReported(progress.state, progress.stop, cleared.v); }
      return Val(if clearOnly then None else Diagnosis(progress.state, progress.stop, cleared.v));
    }

    method Refuse(message: Message) returns (r: Outcome<()>)
      modifies progress`stop
      ensures r == Raise(Plain(message)) && progress.stop == Some(KnownFailure(Plain(message)))
    {
      progress.StopWith(KnownFailure(Plain(message)));
      return Raise(Plain(message));
    }

    // Validate, read the credentials, fill and request submission. The progress
    // record is advanced immediately before each call that can insert a value.
    method Body() returns (r: Outcome<()>)
      requires trace == [] && progress.state == Untouched && progress.stop == None
      modifies this`trace, progress
      ensures trace == [] || trace == [Fill] || trace == [Fill, Submit]
      ensures env.pageEnable.Got? ==> Stops(EndingOf(env), r, progress.state, progress.stop)
      ensures r.Val? <==> BodySmooth(env)
      ensures r.Val? ==> trace == [Fill, Submit] && progress.state.Bound? && progress.stop == None
                         && progress.state.phase == SUBMIT_RESPONSE
      ensures r.Raise? ==> !r.e.Flagged() && (r.e.Failure? ==> trace == [])
      ensures r == Raise(Interrupt) <==>
                || BrokenBeforeFill(env)
                || (Validated(env) && env.fill == Threw(Break))
                || (Validated(env) && env.fill.Got? && env.fill.v.ok && env.submit == Threw(Break))
      ensures env.pageEnable.Got? && r.Raise? && Refusal(r.e).Some? ==> PageRefused(env, Refusal(r.e).value)
      ensures Unflagged(progress.stop) && (progress.stop.Some? ==> r.Raise? && progress.stop.value == KnownFailure(r.e))
      ensures progress.state.Untouched? <==> trace == [] || (trace == [Fill] && RefusedBeforeInsertion(env))
      ensures trace != [] <==> Validated(env)
      ensures trace == [Fill, Submit] ==> env.fill.Got? && env.fill.v.ok
      ensures trace == (if Validated(env) then [Fill] else [])
                       + if Validated(env) && env.fill.Got? && env.fill.v.ok then [Submit] else []
    {
      if env.begin.Threw? {
        return Raise(Sent(env.begin.how));
      }
      if env.validation.Threw? {
        return Raise(Sent(env.validation.how));
      }
      if !env.validation.v.ok {
        r := Refuse(Reason(env.validation.v.reason));
        return;
      }
      if env.credentials.Threw? {
        return Raise(Passed(env.credentials.how));
      }
      if env.loaderChanged.Threw? {
        return Raise(Sent(env.loaderChanged.how));
      }
      if env.loaderChanged.v {
        r := Refuse(PAGE_CHANGED_BEFORE_FILL);
        return;
      }
      progress.MarkFillDispatched(env.begin.v);
      trace := trace + [Fill];
      if env.fill.Threw? {
        return Raise(Sent(env.fill.how));
      }
      r := progress.Advance(FILL_RESPONSE);
      if !env.fill.v.ok {
        if env.fill.v.refusedBeforeInsertion {
          progress.MarkUntouched();
        }
        r := Refuse(Reason(env.fill.v.reason));
        return;
      }
      r := progress.Advance(SUBMIT_DISPATCHED);
      trace := trace + [Submit];
      if env.submit.Threw? {
        return Raise(Sent(env.submit.how));
      }
      r := progress.Advance(SUBMIT_RESPONSE);
      if !env.submit.v.ok {
        r := Refuse(Reason(env.submit.v.reason));
        return;
      }
    }

    // Poll until success is accepted in time; any other end of the wait is the
    // unmet success condition or the wait's own fixed error.
    method AwaitSuccess() returns (r: Outcome<Option<Exc>>)
      requires progress.state.Bound?
      modifies progress`state
      ensures SuccessSeen(env.polls) ==>
                r == Val(None) && progress.state == old(progress.state).(phase := OBSERVED_SUCCESS)
      ensures !SuccessSeen(env.polls) ==> progress.state == old(progress.state)
      ensures !SuccessSeen(env.polls) && r.Val? ==> r.v.Some? && !r.v.value.Flagged()
      ensures !SuccessSeen(env.polls) && r.Val? ==> Refusal(r.v.value).None?
      ensures r.Raise? ==> r.e == Cancelled || r.e == Interrupt
      ensures r == Raise(Interrupt) <==> WaitBroken(env.polls)
      ensures r == Waited(WaitOf(env.polls))
    {
      var i := 0;
      while i < |env.polls|
        invariant 0 <= i <= |env.polls|
        invariant progress.state == old(progress.state)
        invariant SuccessSeen(env.polls[i..]) == SuccessSeen(env.polls)
        invariant WaitBroken(env.polls[i..]) == WaitBroken(env.polls)
        invariant WaitOf(env.polls[i..]) == WaitOf(env.polls)
      {
        var p := env.polls[i];
        assert env.polls[i..][0] == p && env.polls[i..][1..] == env.polls[i + 1..];
        match p {
          case Accepted =>
            var _ := progress.Advance(OBSERVED_SUCCESS);
            return Val(None);
          case TooLate =>
            return Val(Some(Plain(SUCCESS_UNMET)));
          case Broken =>
            return Val(Some(Plain(SESSION_FAILED)));
          case Stopped(t) =>
            if t == Cancel || t == Break {
              return Raise(Sent(t));
            }
            return Val(Some(Plain(if t == Fails then SESSION_FAILED else SUCCESS_UNMET)));
          case NotYet =>
            i := i + 1;
        }
      }
      return Val(Some(Plain(SUCCESS_UNMET)));
    }

    // The work the walls are around, and what follows a submission that returned.
    method Work() returns (w: Outcome<Option<Exc>>)
      requires trace == [] && progress.state == Untouched && progress.stop == None
      modifies this`trace, progress
      ensures WorkDone(env, w, trace, progress.state, progress.stop)
    {
      if env.pageEnable.Threw? {
        return Raise(Sent(env.pageEnable.how));
      }
      var body := Body();
      if body.Raise? {
        return Raise(body.e);
      }
      w := Settle();
    }

    // The clear after the submission, the wait for success, and the clear at its end.
    method Settle() returns (w: Outcome<Option<Exc>>)
      requires trace == [Fill, Submit] && env.pageEnable.Got? && BodySmooth(env)
      requires progress.state.Bound? && progress.state.phase == SUBMIT_RESPONSE && progress.stop == None
      modifies this`trace, progress
      ensures WorkDone(env, w, trace, progress.state, progress.stop)
    {
      CertainGoesOn(env);
      hide EndingOf, WaitOf;
      var cleared := TryClear(env.firstClear);
      if cleared.Raise? {
        return Raise(cleared.e);
      }
      if cleared.v.Uncertain? {
        return Val(Some(MayRemain()));
      }
      w := Conclude();
    }

    // The wait for success and the clear at its end.
    method Conclude() returns (w: Outcome<Option<Exc>>)
      requires trace == [Fill, Submit, Clear(ClearResult(env.firstClear))] && Certain(env.firstClear)
      requires env.pageEnable.Got? && BodySmooth(env)
      requires progress.state.Bound? && progress.state.phase == SUBMIT_RESPONSE && progress.stop == None
      modifies this`trace, progress
      ensures WorkDone(env, w, trace, progress.state, progress.stop)
    {
      CertainGoesOn(env);
      hide EndingOf, WaitOf;
      var unmet := AwaitSuccess();
      if unmet.Raise? {
        return Raise(unmet.e);
      }
      w := Finalize(if unmet.v.None? then None else Some(UnmetSuccess(unmet.v)), false);
      if w.Val? {
        WarningIff(progress.state, progress.stop, ClearResult(env.lastClear).value);
        SilentIff(progress.state, progress.stop, ClearResult(env.lastClear).value);
        RefusalIsTheCauses(progress.state, progress.stop, ClearResult(env.lastClear).value);
      }
    }

    // What the controller makes of an exception that ended the work: the owed
    // clear first, then the diagnosis, or the exception itself.
    method Handle(e: Exc) returns (failure: Option<Exc>, flying: Option<Exc>)
      requires !e.Flagged() && Unflagged(progress.stop) && Orderly(trace)
      requires e.LoginError? && progress.stop.Some? ==> progress.stop.value.KnownFailure?
      requires progress.stop.Some? && progress.stop.value.KnownFailure? ==> progress.stop.value == KnownFailure(e)
      requires e.Failure? ==> progress.state.Untouched?
      requires progress.state.Bound? ==> trace != []
      requires progress.state.Untouched? ==> LastClear(trace).None?
      modifies this`trace, progress`stop
      ensures failure.Some? <==> flying.None?
      ensures flying == Some(Interrupt) <==>
                e == Interrupt || (progress.state.Bound? && ClearResult(env.lastClear).None?)
      ensures failure.Some? && Refusal(failure.value).Some? ==> Refusal(failure.value) == Refusal(e)
      ensures flying.Some? ==> flying.value == Cancelled || flying.value == Failure || flying.value == Interrupt
      ensures Orderly(trace) && old(trace) <= trace
      ensures progress.state.Untouched? ==> trace == old(trace)
      ensures progress.state.Bound? ==> LastClear(trace).Some?
      ensures flying != Some(Interrupt) ==>
                ((failure.Some? && failure.value.Flagged()) <==> LastClearUncertain(trace))
      ensures failure.Some? && failure.value.Flagged() ==> LastClearUncertain(trace)
      ensures trace == old(trace) + if progress.state.Bound? then [Clear(ClearResult(env.lastClear))] else []
      ensures (failure, flying) == Handled(e, progress.state, old(progress.stop), ClearResult(env.lastClear))
    {
      hide Diagnosis;
      var fin: Outcome<Option<Exc>>;
      match e {
        case Cancelled =>
          fin := Finalize(Some(CancelledCause), false);
        case Expired =>
          fin := Finalize(Some(ExpiredCause(Expired)), false);
        case LoginError(_, _) =>
          if progress.stop.None? {
            progress.StopWith(UnknownFailure(e));
          }
          fin := Finalize(None, false);
        case TimedOut =>
          fin := Finalize(Some(ExpiredCause(Plain(TIMED_OUT))), false);
        case _ =>
          fin := Finalize(None, true);
      }
      if fin.Raise? {
        return None, Some(fin.e);
      }
      if e.Failure? || e.Interrupt? {
        return None, Some(e);
      }
      failure := fin.v;
      flying := if fin.v.None? then Some(e) else None;
    }

    // Own the work, the finalization and the dialogs of one attached session.
    method OnSession() returns (r: Outcome<()>)
      requires trace == [] && progress.state == Untouched && progress.stop == None
      modifies this`trace, progress
      ensures r.Val? <==> env.owner.Got? && WorkSmooth(env) && env.close.Got?
      ensures Orderly(trace) && (trace != [] ==> Validated(env))
      ensures Owed(env, trace) ==> LastClear(trace).Some?
      ensures (r.Raise? && r.e.Flagged()) <==> LastClearUncertain(trace) && !SessionCutShort(env)
      ensures r.Raise? && Refusal(r.e).Some? ==> PageRefused(env, Refusal(r.e).value)
      ensures trace == if env.owner.Got? then WorkCalls(env) + LastCalls(env) else []
      ensures r == if env.owner.Threw? then Raise(Sent(env.owner.how))
                   else Closed(LeftOf(EndingOf(env), ClearResult(env.lastClear)), env.close)
    {
      if env.owner.Threw? {
        return Raise(Sent(env.owner.how));
      }
      var w := Work();
      var failure, flying: Option<Exc> := None, None;
      if w.Val? {
        failure := w.v;
      } else {
        ghost var stop := progress.stop;
        failure, flying := Handle(w.e);
        HandledIsLeft(EndingOf(env), ClearResult(env.lastClear), w, progress.state, stop);
      }
      hide EndingOf, Handled;
      if env.close.Threw? {
        if env.close.how == Break {
          return Raise(Interrupt);
        }
        if failure.None? || !failure.value.Flagged() {
          return Raise(Passed(env.close.how));
        }
      }
      if flying.Some? {
        return Raise(flying.value);
      }
      if failure.Some? {
        return Raise(failure.value);
      }
      return Val(());
    }

    // The whole browser-side transaction: attach, run, and tear down within its
    // own grace.
    method Run() returns (r: Outcome<()>)
      requires trace == [] && progress.state == Untouched && progress.stop == None
      modifies this`trace, progress
      ensures r.Val? <==> Smooth(env)
      ensures Orderly(trace) && (trace != [] ==> Validated(env))
      ensures Owed(env, trace) ==> LastClear(trace).Some?
      ensures (r.Raise? && r.e.Flagged()) <==> LastClearUncertain(trace) && !Interrupted(env)
      ensures r.Raise? && Refusal(r.e).Some? ==> PageRefused(env, Refusal(r.e).value)
      ensures r == Verdict(env) && trace == Calls(env)
    {
      if env.expiredAtStart {
        return Raise(Plain(TIMED_OUT));
      }
      var entered := env.acquire.Got?;
      var ended: Outcome<()>;
      if entered {
        ended := OnSession();
      } else {
        ended := Raise(Passed(env.acquire.how));
      }
      var bodyFailure, propagating: Option<Exc> := None, None;
      if ended.Raise? {
        if ended.e.IsLoginError() {
          bodyFailure := Some(ended.e);
        } else if ended.e == TimedOut {
          bodyFailure := Some(Plain(TIMED_OUT));
        } else {
          propagating := Some(ended.e);
        }
      }
      if entered && env.teardown.Threw? && propagating.None? {
        var failure := Passed(env.teardown.how);
        if failure == Cancelled || failure == Interrupt {
          if bodyFailure.None? || !bodyFailure.value.Flagged() {
            return Raise(failure);
          }
        } else if bodyFailure.None? {
          bodyFailure := Some(Plain(if failure == TimedOut then TIMED_OUT else SESSION_FAILED));
        }
      }
      if propagating.Some? {
        return Raise(propagating.value);
      }
      if bodyFailure.Some? {
        return Raise(bodyFailure.value);
      }
      return Val(());
    }
  }

  // The body raises what its ending says, and leaves behind how far it got.
  predicate Stops(end: Ending, r: Outcome<()>, state: ProgressState, stop: Option<StopCause>) {
    match end
    case PageSaid(code) =>
      r == Raise(Plain(Reason(code))) && state == Untouched && stop == Some(KnownFailure(Plain(Reason(code))))
    case PageMoved =>
      && r == Raise(Plain(PAGE_CHANGED_BEFORE_FILL)) && state == Untouched
      && stop == Some(KnownFailure(Plain(PAGE_CHANGED_BEFORE_FILL)))
    case CallThrew(how, own) =>
      r == Raise(if own then Passed(how) else Sent(how)) && state == Untouched && stop == None
    case NoAnswer(phase, how) => r == Raise(Sent(how)) && state.Bound? && state.phase == phase && stop == None
    case SaidAfter(code) =>
      && r == Raise(Plain(Reason(code))) && stop == Some(KnownFailure(Plain(Reason(code))))
      && state.Bound? && (state.phase == FILL_RESPONSE || state.phase == SUBMIT_RESPONSE)
    case _ => r.Val?
  }

  function Waited(end: Ending): Outcome<Option<Exc>> {
    match end
    case WaitThrew(how) => Raise(Sent(how))
    case WaitEnded(None) => Val(None)
    case WaitEnded(Some(unmet)) => Val(Some(Plain(unmet)))
    case _ => Val(None)
  }

  // The same of the work: what it raises and leaves behind, or what it reports itself.
  predicate WorkEnds(end: Ending, last: Option<Cleared>, w: Outcome<Option<Exc>>, state: ProgressState,
                     stop: Option<StopCause>)
  {
    match end
    case ClearFailed(None) => w == Raise(Interrupt) && state.Bound?
    case ClearFailed(_) => w == Val(Some(MayRemain()))
    case WaitThrew(how) => w == Raise(Sent(how)) && state.Bound? && state.phase == SUBMIT_RESPONSE && stop == None
    case WaitEnded(_) =>
      (match LeftOf(end, last)
       case Quiet => w == Val(None)
       case Reports(e) => w == Val(Some(e))
       case Flies(e) => w == Raise(Interrupt) && e == Interrupt && state.Bound?)
    case _ => w.Raise? && Stops(end, Raise(w.e), state, stop)
  }

  // Where the work leaves the form, the record and its caller.
  predicate WorkDone(env: Env, w: Outcome<Option<Exc>>, trace: seq<Call>, state: ProgressState,
                     stop: Option<StopCause>)
  {
    && (w == Val(None) <==> WorkSmooth(env))
    && Orderly(trace) && (trace != [] ==> Validated(env))
    && (w.Val? ==> ((w.v.Some? && w.v.value.Flagged()) <==> LastClearUncertain(trace)))
    && (CutShort(env) <==>
          w.Raise? && (w.e == Interrupt || (state.Bound? && ClearResult(env.lastClear).None?)))
    && (w.Val? && w.v.Some? ==> Refusal(w.v.value).None?)
    && (w.Raise? && Refusal(w.e).Some? ==> PageRefused(env, Refusal(w.e).value))
    && (w.Raise? && stop.Some? && stop.value.KnownFailure? ==> stop.value == KnownFailure(w.e))
    && (w.Val? ==> LastClear(trace).Some? && |trace| > 2)
    && (w.Raise? ==> !w.e.Flagged() && Unflagged(stop) && (w.e.Failure? ==> trace == []))
    && (w.Raise? && w.e.LoginError? && stop.Some? ==> stop.value.KnownFailure?)
    && (w.Raise? ==> (state.Untouched? <==> !Owed(env, trace)))
    && (w.Raise? && !Owed(env, trace) ==> LastClear(trace).None?)
    && WorkEnds(EndingOf(env), ClearResult(env.lastClear), w, state, stop)
    && trace == WorkCalls(env)
    && (w.Raise? ==> (state.Bound? <==> LastClearMade(env)))
    && (w.Val? ==> LastCalls(env) == [])
  }

  lemma CertainGoesOn(env: Env)
    ensures env.pageEnable.Got? && BodySmooth(env) ==>
              EndingOf(env) == if !Certain(env.firstClear) then ClearFailed(ClearResult(env.firstClear))
                               else WaitOf(env.polls)
  {
  }

  // What the handlers make of an exception that ended the work.
  function Handled(e: Exc, state: ProgressState, stop: Option<StopCause>, last: Option<Cleared>)
    : (Option<Exc>, Option<Exc>)
  {
    if state.Bound? && last.None? then (None, Some(Interrupt))
    else if e.Failure? || e.Interrupt? then (None, Some(e))
    else
      var cause := match e
                   case Cancelled => Some(CancelledCause)
                   case Expired => Some(ExpiredCause(Expired))
                   case TimedOut => Some(ExpiredCause(Plain(TIMED_OUT)))
                   case _ => if stop.None? then Some(UnknownFailure(e)) else stop;
      var d := Diagnosis(state, cause, if state.Untouched? then Replaced else last.value);
      (d, if d.None? then Some(e) else None)
  }

  // And what that leaves is what the ending and the last clear call for.
  lemma HandledIsLeft(end: Ending, last: Option<Cleared>, w: Outcome<Option<Exc>>, state: ProgressState,
                      stop: Option<StopCause>)
    requires WorkEnds(end, last, w, state, stop) && w.Raise?
    requires end.WaitThrew? ==> end.how == Cancel || end.how == Break
    requires end.NoAnswer? ==> end.phase == FILL_DISPATCHED || end.phase == SUBMIT_DISPATCHED
    ensures var (failure, flying) := Handled(w.e, state, stop, last);
            match LeftOf(end, last)
            case Quiet => false
            case Reports(e) => failure == Some(e) && flying == None
            case Flies(e) => failure == None && flying == Some(e)
  {
  }

  // How far the work gets: to the fill, to the submission, to the clear after it,
  // to the wait.
  predicate FillReached(env: Env) { env.pageEnable.Got? && Validated(env) }

  predicate SubmitReached(env: Env) { FillReached(env) && env.fill.Got? && env.fill.v.ok }

  predicate ClearReached(env: Env) { SubmitReached(env) && env.submit.Got? && env.submit.v.ok }

  predicate WaitReached(env: Env) { ClearReached(env) && Certain(env.firstClear) }

  predicate BrokenBeforeFill(env: Env) {
    || env.begin == Threw(Break)
    || (env.begin.Got?
        && (|| env.validation == Threw(Break)
            || (env.validation.Got? && env.validation.v.ok
                && (|| env.credentials == Threw(Break)
                    || (env.credentials.Got? && env.loaderChanged == Threw(Break))))))
  }

  predicate WaitBroken(polls: seq<Poll>) {
    polls != [] && (polls[0] == Stopped(Break) || (Undecided(polls[0]) && WaitBroken(polls[1..])))
  }

  // The last clear is made: a value may be in the form, and the work did not end
  // with the clear after the submission.
  predicate LastClearMade(env: Env) {
    && FillReached(env) && !RefusedBeforeInsertion(env)
    && !(ClearReached(env) && ClearResult(env.firstClear) == Some(Uncertain))
  }

  // What the work does to the form: one fill, one submission once the fill is
  // confirmed, a clear once the submission is, and the clear at the end of the wait.
  function WorkCalls(env: Env): seq<Call> {
    (if FillReached(env) then [Fill] else [])
    + (if SubmitReached(env) then [Submit] else [])
    + (if ClearReached(env) then [Clear(ClearResult(env.firstClear))] else [])
    + if EndingOf(env).WaitEnded? then [Clear(ClearResult(env.lastClear))] else []
  }

  // And what is done once an exception has ended it: the clear that is owed.
  function LastCalls(env: Env): seq<Call> {
    if LastClearMade(env) && (EndingOf(env).WaitEnded? ==> ClearResult(env.lastClear).None?)
    then [Clear(ClearResult(env.lastClear))] else []
  }

  function Calls(env: Env): seq<Call> {
    if env.expiredAtStart || env.acquire.Threw? || env.owner.Threw? then [] else WorkCalls(env) + LastCalls(env)
  }

  // The one call that ends the work, or the clear it owes, is interrupted.
  predicate CutShort(env: Env) {
    || env.pageEnable == Threw(Break)
    || (env.pageEnable.Got? && BrokenBeforeFill(env))
    || (FillReached(env) && env.fill == Threw(Break))
    || (SubmitReached(env) && env.submit == Threw(Break))
    || (ClearReached(env) && ClearResult(env.firstClear).None?)
    || (WaitReached(env) && WaitBroken(env.polls))
    || (LastClearMade(env) && ClearResult(env.lastClear).None?)
  }

  predicate SessionCutShort(env: Env) {
    env.owner.Got? && (CutShort(env) || env.close == Threw(Break))
  }

  predicate Interrupted(env: Env) {
    !env.expiredAtStart && env.acquire.Got? && SessionCutShort(env)
  }

  // What the page itself refused, and in which words.
  predicate PageRefused(env: Env, code: string) {
    || (env.validation.Got? && !env.validation.v.ok && env.validation.v.reason == code)
    || (FillReached(env) && env.fill.Got? && !env.fill.v.ok && env.fill.v.reason == code)
    || (SubmitReached(env) && env.submit.Got? && !env.submit.v.ok && env.submit.v.reason == code)
  }

  // Values may be in the form: a fill was dispatched and not refused before
  // anything was inserted.
  predicate Owed(env: Env, trace: seq<Call>) {
    trace != [] && !RefusedBeforeInsertion(env)
  }

  predicate WorkSmooth(env: Env) {
    && env.pageEnable.Got? && BodySmooth(env)
    && Certain(env.firstClear) && SuccessSeen(env.polls) && Certain(env.lastClear)
  }

  predicate RefusedBeforeInsertion(env: Env) {
    env.fill.Got? && !env.fill.v.ok && env.fill.v.refusedBeforeInsertion
  }

  // The form was validated, the credentials read, and the document is still the
  // validated one.
  predicate Validated(env: Env) {
    && env.begin.Got? && env.validation.Got? && env.validation.v.ok && env.credentials.Got?
    && env.loaderChanged == Got(false)
  }

  predicate BodySmooth(env: Env) {
    && Validated(env)
    && env.fill.Got? && env.fill.v.ok
    && env.submit.Got? && env.submit.v.ok
  }

  // One login from the start, for every environment. It ends normally exactly when
  // every step of the way was certain. The form is filled only in the validated
  // document and submitted at most once, after a confirmed fill. Once a value may
  // be in the form the last thing done to it is a clear; and the error raised
  // warns of the fields exactly when that clear was uncertain, whatever the
  // dialogs, a cancellation or the teardown did after it, unless the environment
  // interrupted the session's work, its owed clear or its close. A refusal it passes
  // on is one the page itself gave.
  method LogIn(env: Env) returns (r: Outcome<()>, trace: seq<Call>)
    ensures r.Val? <==> Smooth(env)
    ensures Orderly(trace) && (trace != [] ==> Validated(env))
    ensures Owed(env, trace) ==> LastClear(trace).Some?
    ensures (r.Raise? && r.e.Flagged()) <==> LastClearUncertain(trace) && !Interrupted(env)
    ensures r.Raise? && Refusal(r.e).Some? ==> PageRefused(env, Refusal(r.e).value)
    ensures r == Verdict(env) && trace == Calls(env)
  {
    var transaction := new Transaction(env);
    r := transaction.Run();
    trace := transaction.trace;
  }
}

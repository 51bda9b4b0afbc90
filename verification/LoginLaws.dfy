// What a login reports, read from what the page and the connection answered: the
// page's own refusal, the uncertainty of a call that was never answered, the success
// that was not seen, the time that ran out.
module LoginLaws {
  import opened Prelude
  import opened LoginContract
  import opened Login

  // The session was opened at all.
  predicate Opened(env: Env) {
    !env.expiredAtStart && env.acquire.Got? && env.owner.Got?
  }

  // The fields are left in doubt at the end: a value may be in the form, and the last
  // clear of it was uncertain.
  predicate InDoubt(env: Env) {
    LastClearMade(env) && ClearResult(env.lastClear) == Some(Uncertain)
  }

  // Nothing that follows outranks the report: the owed clear is not interrupted, and a
  // failed close or a cancelled teardown comes only where the fields are in doubt.
  predicate LetsThrough(env: Env) {
    && (LastClearMade(env) ==> ClearResult(env.lastClear).Some?)
    && (env.close.Threw? ==> env.close.how != Break && InDoubt(env))
    && (env.teardown.Threw? && (env.teardown.how == Cancel || env.teardown.how == Break) ==> InDoubt(env))
  }

  // The refusal that stopped the work: of the form, of the fill, or of the submission.
  function RefusedWith(env: Env): Option<string> {
    if env.pageEnable.Got? && env.begin.Got? && env.validation.Got? && !env.validation.v.ok then
      Some(env.validation.v.reason)
    else if FillReached(env) && env.fill.Got? && !env.fill.v.ok then Some(env.fill.v.reason)
    else if SubmitReached(env) && env.submit.Got? && !env.submit.v.ok then Some(env.submit.v.reason)
    else None
  }

  // A refusal of the page reaches the caller in the page's own words exactly when one
  // stopped the work and nothing after it outranked the report; with the warning
  // beside it exactly when the fields are in doubt.
  lemma RefusalIsReportedIff(env: Env, code: string)
    ensures Verdict(env).Raise? && Refusal(Verdict(env).e) == Some(code) <==>
            Opened(env) && RefusedWith(env) == Some(code) && LetsThrough(env)
    ensures Opened(env) && RefusedWith(env) == Some(code) && LetsThrough(env) ==>
            Verdict(env) == Raise(if InDoubt(env) then LoginError(Warned(Reason(code)), true)
                                  else LoginError(Reason(code), false))
  {
    EndingIs(env);
    hide EndingOf;
    if RefusedWith(env).Some? {
      var said := RefusedWith(env).value;
      assert RefusalIn(Warned(Reason(said))) == Some(said);
    }
  }

  // Where the work ends.
  lemma EndingIs(env: Env)
    ensures match EndingOf(env)
            case PageSaid(code) => RefusedWith(env) == Some(code) && !LastClearMade(env)
            case SaidAfter(code) => RefusedWith(env) == Some(code) && LastClearMade(env)
            case NoAnswer(phase, how) =>
              RefusedWith(env) == None && LastClearMade(env) && Unanswered(env) == Some((phase, how))
            case ClearFailed(result) =>
              && RefusedWith(env) == None && ClearReached(env) && result == ClearResult(env.firstClear)
              && (result == None || result == Some(Uncertain)) && LastClearMade(env) == (result != Some(Uncertain))
            case WaitThrew(how) => RefusedWith(env) == None && WaitReached(env) && LastClearMade(env)
            case WaitEnded(unmet) =>
              && RefusedWith(env) == None && WaitReached(env) && LastClearMade(env)
              && (unmet == None <==> SuccessSeen(env.polls))
              && (unmet == None || unmet == Some(SUCCESS_UNMET) || unmet == Some(SESSION_FAILED))
            case _ => RefusedWith(env) == None && !LastClearMade(env)
    ensures Unanswered(env).Some? ==> EndingOf(env) == NoAnswer(Unanswered(env).value.0, Unanswered(env).value.1)
    ensures WaitReached(env) ==> EndingOf(env) == WaitOf(env.polls)
  {
    WaitSees(env.polls);
    WaitSays(env.polls);
  }

  lemma {:induction false} WaitSees(polls: seq<Poll>)
    ensures WaitOf(polls) == WaitEnded(None) <==> SuccessSeen(polls)
    decreases |polls|
  {
    if polls == [] {
      assert WaitOf(polls) == WaitEnded(Some(SUCCESS_UNMET));
    } else {
      WaitSees(polls[1..]);
    }
  }

  // The call that was sent and never answered, and how it failed.
  function Unanswered(env: Env): Option<(Phase, Throw)> {
    if FillReached(env) && env.fill.Threw? then Some((FILL_DISPATCHED, env.fill.how))
    else if SubmitReached(env) && env.submit.Threw? then Some((SUBMIT_DISPATCHED, env.submit.how))
    else None
  }

  // A fill or a submit without an answer is reported by what the clear after it found,
  // and by nothing else: the warning where the clear was uncertain, a changed page
  // where the document went, and after a confirmed clear that the outcome is not
  // known. It is never a refusal and never silent; a cancellation goes on instead of
  // the last of these, and only of that.
  lemma UnansweredIsUncertain(env: Env)
    requires Opened(env) && Unanswered(env).Some? && Unanswered(env).value.1 != Break && LetsThrough(env)
    ensures var (phase, how) := Unanswered(env).value;
            Verdict(env) == Raise(match ClearResult(env.lastClear).value
                                  case Uncertain => LoginError(FIELDS_MAY_REMAIN, true)
                                  case Replaced =>
                                    LoginError(if phase == FILL_DISPATCHED then PAGE_CHANGED_DURING_FILL
                                               else PAGE_CHANGED_BEFORE_SUBMIT, false)
                                  case Confirmed =>
                                    if how == Cancel then Cancelled
                                    else LoginError(if phase == FILL_DISPATCHED then FILL_UNCERTAIN_CLEARED
                                                    else SUBMIT_UNCERTAIN_CLEARED, false))
  {
    EndingIs(env);
    hide EndingOf;
  }

  // A submission that was answered, with success not seen in the end, is reported as
  // unmet success, unless the wait broke down; with the fields in doubt, as that.
  lemma UnmetIsReported(env: Env)
    requires Opened(env) && WaitReached(env) && WaitOf(env.polls).WaitEnded? && !SuccessSeen(env.polls)
    requires LetsThrough(env)
    ensures Verdict(env) == Raise(if InDoubt(env) then LoginError(FIELDS_MAY_REMAIN, true)
                                  else LoginError(WaitOf(env.polls).unmet.GetOr(SUCCESS_UNMET), false))
    ensures WaitOf(env.polls).unmet == Some(SUCCESS_UNMET) || WaitOf(env.polls).unmet == Some(SESSION_FAILED)
    ensures (forall i :: 0 <= i < |env.polls| ==> env.polls[i] == NotYet || env.polls[i] == TooLate) ==>
              WaitOf(env.polls).unmet == Some(SUCCESS_UNMET)
  {
    EndingIs(env);
    WaitSays(env.polls);
    hide EndingOf, WaitOf;
  }

  lemma {:induction false} WaitSays(polls: seq<Poll>)
    ensures var end := WaitOf(polls);
            end.WaitEnded? && end.unmet.Some? ==> end.unmet == Some(SUCCESS_UNMET) || end.unmet == Some(SESSION_FAILED)
    ensures (forall i :: 0 <= i < |polls| ==> polls[i] == NotYet || polls[i] == TooLate) ==>
              WaitOf(polls) == WaitEnded(Some(SUCCESS_UNMET))
    decreases |polls|
  {
    if polls == [] {
      assert WaitOf(polls) == WaitEnded(Some(SUCCESS_UNMET));
    } else {
      WaitSays(polls[1..]);
    }
  }

  // Before anything was sent to the form, a call that came too late, or was out when
  // the wall fell, is reported as time that ran out; one that failed, as a failed
  // session; a document that was replaced, as that.
  lemma EarlyEndsAreTheirOwn(env: Env)
    requires Opened(env) && !FillReached(env) && RefusedWith(env) == None && env.close.Got? && env.teardown.Got?
    ensures var r := Verdict(env);
            && r.Raise?
            && (EndingOf(env) == PageMoved ==> r == Raise(LoginError(PAGE_CHANGED_BEFORE_FILL, false)))
            && (EndingOf(env).CallThrew? ==>
                 match EndingOf(env).how
                 case Late => r == Raise(Expired)
                 case Wall => r == Raise(LoginError(TIMED_OUT, false))
                 case Cancel => r == Raise(Cancelled)
                 case Break => r == Raise(Interrupt)
                 case Fails => r == Raise(if EndingOf(env).own then Failure else LoginError(SESSION_FAILED, false)))
  {
    EndingIs(env);
    hide EndingOf;
  }
}

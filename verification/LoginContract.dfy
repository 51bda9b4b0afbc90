// The vocabulary of a login: how far it got, why it stopped, and the one
// mapping from both, and from the final clear, to what is reported.
module LoginContract {
  import opened Prelude

  // The fixed sentences a login can end with; Reason is the page's own refusal.
  datatype Message =
    | TIMED_OUT
    | FIELDS_MAY_REMAIN
    | SESSION_FAILED
    | SUCCESS_UNMET
    | PAGE_CHANGED_BEFORE_SUBMIT
    | PAGE_CHANGED_BEFORE_FILL
    | PAGE_CHANGED_DURING_FILL
    | FILL_UNCERTAIN_CLEARED
    | SUBMIT_UNCERTAIN_CLEARED
    | FINALIZATION_FAILED
    | Reason(code: string)
    | Warned(first: Message)

  // What can be in flight. Expired is a LoginError of its own kind; Failure is
  // any other Exception, Interrupt what is not even an Exception.
  datatype Exc =
    | LoginError(message: Message, fieldsMayRemain: bool)
    | Expired
    | TimedOut
    | Cancelled
    | Failure
    | Interrupt
  {
    predicate IsLoginError() { LoginError? || Expired? }
    predicate Flagged() { LoginError? && fieldsMayRemain }
  }

  datatype Outcome<+T> = Val(v: T) | Raise(e: Exc)

  datatype Phase = FILL_DISPATCHED | FILL_RESPONSE | SUBMIT_DISPATCHED | SUBMIT_RESPONSE | OBSERVED_SUCCESS

  // The binding is the session object of the validated form.
  datatype ProgressState = Untouched | Bound(sessionObject: string, phase: Phase)

  datatype StopCause =
    | KnownFailure(error: Exc)
    | UnknownFailure(error: Exc)
    | ExpiredCause(error: Exc)
    | UnmetSuccess(unmet: Option<Exc>)
    | CancelledCause

  // The result of a clear: confirmed, uncertain on a live document, or the
  // document was replaced and the values went with it.
  datatype Cleared = Confirmed | Uncertain | Replaced

  function Plain(m: Message): Exc { LoginError(m, false) }

  function MayRemain(): Exc { LoginError(FIELDS_MAY_REMAIN, true) }

  function InvalidFinalization(cleared: Cleared): Exc {
    if cleared.Uncertain? then LoginError(Warned(FINALIZATION_FAILED), true) else Plain(FINALIZATION_FAILED)
  }

  // An error with the warning added to it.
  function WithWarning(e: Exc): Exc {
    LoginError(Warned(if e.LoginError? then e.message else TIMED_OUT), true)
  }

  function Diagnosis(state: ProgressState, stop: Option<StopCause>, cleared: Cleared): Option<Exc> {
    match state
    case Untouched =>
      (match stop
       case Some(CancelledCause) => None
       case Some(KnownFailure(e)) => Some(e)
       case Some(UnknownFailure(e)) => Some(e)
       case Some(ExpiredCause(e)) => Some(e)
       case _ => Some(Plain(FINALIZATION_FAILED)))
    case Bound(_, phase) =>
      match stop
      case Some(CancelledCause) =>
        if cleared.Uncertain? then Some(MayRemain())
        else if cleared.Replaced? && phase == FILL_DISPATCHED then Some(Plain(PAGE_CHANGED_DURING_FILL))
        else if cleared.Replaced? && phase == SUBMIT_DISPATCHED then Some(Plain(PAGE_CHANGED_BEFORE_SUBMIT))
        else None
      case None =>
        if phase == OBSERVED_SUCCESS then (if cleared.Uncertain? then Some(MayRemain()) else None)
        else Some(InvalidFinalization(cleared))
      case Some(UnmetSuccess(unmet)) =>
        if cleared.Uncertain? then Some(MayRemain()) else Some(unmet.GetOr(Plain(SUCCESS_UNMET)))
      case Some(KnownFailure(e)) => Some(if cleared.Uncertain? then WithWarning(e) else e)
      case Some(UnknownFailure(e)) => Some(Unanswered(e, phase, cleared))
      case Some(ExpiredCause(e)) => Some(Unanswered(e, phase, cleared))
  }

  // A call that never returned speaks of uncertainty, never of a confirmed failure.
  function Unanswered(e: Exc, phase: Phase, cleared: Cleared): Exc {
    if phase == FILL_DISPATCHED || phase == SUBMIT_DISPATCHED then
      match cleared
      case Uncertain => MayRemain()
      case Replaced => Plain(if phase == FILL_DISPATCHED then PAGE_CHANGED_DURING_FILL else PAGE_CHANGED_BEFORE_SUBMIT)
      case Confirmed => Plain(if phase == FILL_DISPATCHED then FILL_UNCERTAIN_CLEARED else SUBMIT_UNCERTAIN_CLEARED)
    else if cleared.Uncertain? then WithWarning(e) else e
  }

  // ----------------------------------------------------------- what the mapping keeps

  // No cause of a stop is itself a warning about the fields.
  predicate Unflagged(stop: Option<StopCause>) {
    match stop
    case Some(KnownFailure(e)) => !e.Flagged()
    case Some(UnknownFailure(e)) => !e.Flagged()
    case Some(ExpiredCause(e)) => !e.Flagged()
    case Some(UnmetSuccess(Some(e))) => !e.Flagged()
    case _ => true
  }

  // The warning is given exactly when something may have been inserted and the
  // clear of it is uncertain, whatever stopped the work and however far it got.
  lemma WarningIff(state: ProgressState, stop: Option<StopCause>, cleared: Cleared)
    requires Unflagged(stop)
    ensures var d := Diagnosis(state, stop, cleared);
            (d.Some? && d.value.Flagged()) <==> (state.Bound? && cleared.Uncertain?)
  {
    match state
    case Untouched =>
    case Bound(_, phase) =>
      match stop
      case Some(UnmetSuccess(unmet)) =>
      case _ =>
  }

  // Nothing is reported only for an observed success whose clear is certain, or
  // for a cancellation that is to go on.
  lemma SilentIff(state: ProgressState, stop: Option<StopCause>, cleared: Cleared)
    ensures Diagnosis(state, stop, cleared).None? <==>
            || (stop.None? && state.Bound? && state.phase == OBSERVED_SUCCESS && !cleared.Uncertain?)
            || (stop == Some(CancelledCause)
                && (state.Bound? ==> cleared.Confirmed?
                                     || (cleared.Replaced? && state.phase != FILL_DISPATCHED
                                         && state.phase != SUBMIT_DISPATCHED)))
  {
    match state
    case Untouched =>
    case Bound(_, phase) =>
  }

  // The page's refusal that a message passes on, a warning beside it or not.
  function RefusalIn(m: Message): Option<string> {
    match m
    case Reason(code) => Some(code)
    case Warned(first) => RefusalIn(first)
    case _ => None
  }

  function Refusal(e: Exc): Option<string> {
    if e.LoginError? then RefusalIn(e.message) else None
  }

  function CauseRefusal(stop: Option<StopCause>): Option<string> {
    match stop
    case Some(KnownFailure(e)) => Refusal(e)
    case Some(UnknownFailure(e)) => Refusal(e)
    case Some(ExpiredCause(e)) => Refusal(e)
    case Some(UnmetSuccess(Some(e))) => Refusal(e)
    case _ => None
  }

  // While a dispatched call has not answered, the report is never silent, never a
  // refusal by the page, and says nothing of what interrupted the wait: two causes
  // that differ in their errors are reported alike, known refusals included.
  lemma UnknownStaysUnknown(o: string, phase: Phase, stop: StopCause, other: StopCause, cleared: Cleared)
    requires phase == FILL_DISPATCHED || phase == SUBMIT_DISPATCHED
    requires stop.UnknownFailure? || stop.ExpiredCause?
    requires other.UnknownFailure? || other.ExpiredCause?
    ensures var d := Diagnosis(Bound(o, phase), Some(stop), cleared);
            && d.Some? && d.value.LoginError? && Refusal(d.value).None?
            && d == Diagnosis(Bound(o, phase), Some(other), cleared)
  {
  }

  // No report invents a refusal: one it passes on is the one the work stopped for.
  lemma RefusalIsTheCauses(state: ProgressState, stop: Option<StopCause>, cleared: Cleared)
    ensures var d := Diagnosis(state, stop, cleared);
            d.Some? && Refusal(d.value).Some? ==> Refusal(d.value) == CauseRefusal(stop)
  {
    match state
    case Untouched =>
    case Bound(_, phase) =>
      match stop
      case Some(UnmetSuccess(unmet)) =>
      case _ =>
  }

  // What may be reported of a login that ended this way. The warning is there exactly
  // when values may be left in the form; nothing is said exactly after an observed
  // success, or a cancellation that is to go on; the page's refusal passed on is the
  // recorded one; and what was dispatched without an answer is never put as one.
  predicate Reported(state: ProgressState, stop: Option<StopCause>, cleared: Cleared, d: Option<Exc>) {
    && ((d.Some? && d.value.Flagged()) <==> (state.Bound? && cleared.Uncertain?))
    && (d.None? <==>
          || (stop.None? && state.Bound? && state.phase == OBSERVED_SUCCESS && !cleared.Uncertain?)
          || (stop == Some(CancelledCause)
              && (state.Bound? ==> cleared.Confirmed?
                                   || (cleared.Replaced? && state.phase != FILL_DISPATCHED
                                       && state.phase != SUBMIT_DISPATCHED))))
    && (d.Some? && Refusal(d.value).Some? ==> Refusal(d.value) == CauseRefusal(stop))
    && (state.Bound? && state.phase in {FILL_DISPATCHED, SUBMIT_DISPATCHED}
        && stop.Some? && (stop.value.UnknownFailure? || stop.value.ExpiredCause?) ==>
          d.Some? && d.value.LoginError? && Refusal(d.value).None?)
  }

  lemma DiagnosisIsReported(state: ProgressState, stop: Option<StopCause>, cleared: Cleared)
    requires Unflagged(stop)
    ensures Reported(state, stop, cleared, Diagnosis(state, stop, cleared))
  {
    hide Diagnosis, Refusal;
    WarningIff(state, stop, cleared);
    SilentIff(state, stop, cleared);
    RefusalIsTheCauses(state, stop, cleared);
    if state.Bound? && state.phase in {FILL_DISPATCHED, SUBMIT_DISPATCHED}
       && stop.Some? && (stop.value.UnknownFailure? || stop.value.ExpiredCause?) {
      UnknownStaysUnknown(state.sessionObject, state.phase, stop.value, stop.value, cleared);
    }
  }

  // --------------------------------------------------------------------- progress

  class Progress {
    var state: ProgressState
    var stop: Option<StopCause>

    constructor ()
      ensures state == Untouched && stop == None
    {
      state, stop := Untouched, None;
    }

    method MarkFillDispatched(sessionObject: string)
      modifies this`state
      ensures state == Bound(sessionObject, FILL_DISPATCHED)
    {
      state := Bound(sessionObject, FILL_DISPATCHED);
    }

    // Advance a bound phase, the binding carried forward; an unbound record fails
    // closed instead of inventing one.
    method Advance(phase: Phase) returns (r: Outcome<()>)
      modifies this`state
      ensures r == if old(state).Bound? then Val(()) else Raise(Plain(FINALIZATION_FAILED))
      ensures state == if old(state).Bound? then old(state).(phase := phase) else old(state)
    {
      if !state.Bound? {
        return Raise(Plain(FINALIZATION_FAILED));
      }
      state := Bound(state.sessionObject, phase);
      return Val(());
    }

    method MarkUntouched()
      modifies this`state
      ensures state == Untouched
    {
      state := Untouched;
    }

    method StopWith(cause: StopCause)
      modifies this`stop
      ensures stop == Some(cause)
    {
      stop := Some(cause);
    }
  }
}

/**
 * The NGO registration dialog. The source repeats the page form's schema
 * and row construction in the dialog as textually identical copies; the
 * model states them once, in module NgoRegistration. After an error-free
 * insert the dialog clears the form, asks its owner to close it and calls
 * the owner's optional success callback, in that order.
 */
module NgoModal {
  import opened Schema
  import opened Effects
  import opened NgoRegistration

  /** The reactions to an error-free insert; the callback is optional. */
  function SuccessReactions(hasOnSuccess: bool): seq<Effect<NgoRow>> {
    [ToastSuccess(Registered), ResetForm, RequestOpen(false)] + (if hasOnSuccess then [NotifySuccess] else [])
  }

  /** What the dialog's submit handler does for a validated row. */
  function ModalSubmitEffects(row: NgoRow, insert: Outcome, hasOnSuccess: bool): seq<Effect<NgoRow>> {
    [SetBusy(true), Send(row)]
    + (if insert.Succeeded? then SuccessReactions(hasOnSuccess) else [ToastError(RegisterFailed)])
    + [SetBusy(false)]
  }

  /** On success the form is reset, then the dialog asks to close, then the
      callback (when given) runs; on failure none of the three happens. The
      success toast shows exactly on success and the failure toast exactly on
      failure. Either way the row is inserted once, while
      `isSubmitting` is on, and `isSubmitting` is off at the end. */
  lemma ModalSubmitOutcome(row: NgoRow, insert: Outcome, hasOnSuccess: bool)
    ensures var t := ModalSubmitEffects(row, insert, hasOnSuccess);
      && (insert.Succeeded? ==>
            && Before(t, ResetForm, RequestOpen(false))
            && (hasOnSuccess ==> Before(t, RequestOpen(false), NotifySuccess))
            && (NotifySuccess in t <==> hasOnSuccess))
      && (insert.Failed? ==>
            && ResetForm !in t && RequestOpen(false) !in t && NotifySuccess !in t)
      && (ToastSuccess(Registered) in t <==> insert.Succeeded?)
      && (ToastError(RegisterFailed) in t <==> insert.Failed?)
      && SendCount(t) == 1 && t[1] == Send(row) && SentWhileBusy(false, t) && !BusyAfter(false, t)
  {
    var t := ModalSubmitEffects(row, insert, hasOnSuccess);
    var reactions := SuccessReactions(hasOnSuccess);
    assert forall k :: 0 <= k < |reactions| ==> !reactions[k].SetBusy? && !reactions[k].Send?;
    assert t == Submission(row, insert.Succeeded?, reactions, [ToastError(RegisterFailed)]);
    SubmissionLifecycle(false, row, insert.Succeeded?, reactions, [ToastError(RegisterFailed)]);
    if insert.Succeeded? {
      assert t[2] == ToastSuccess(Registered);
      assert t[3] == ResetForm && t[4] == RequestOpen(false);
      if hasOnSuccess {
        assert t[5] == NotifySuccess;
      }
    }
  }

  /** The registration dialog. */
  class NgoRegistrationModal {
    var isSubmitting: bool
    var errors: seq<Issue>
    var effects: seq<Effect<NgoRow>>

    /** `isSubmitting` is the busy flag the recorded effects leave behind. */
    ghost predicate Valid()
      reads this
    {
      isSubmitting == BusyAfter(false, effects)
    }

    constructor ()
      ensures Valid() && !isSubmitting && errors == [] && effects == []
    {
      isSubmitting, errors, effects := false, [], [];
    }

    /** `onSubmit`: called with values that passed the schema. */
    method OnSubmit(data: NgoInput, insert: Outcome, hasOnSuccess: bool)
      requires Valid() && data.total_capacity.Num?
      modifies this
      ensures Valid() && !isSubmitting && errors == old(errors)
      ensures effects == old(effects) + ModalSubmitEffects(BuildNgoRow(data), insert, hasOnSuccess)
    {
      isSubmitting := true;
      var trace := [SetBusy(true)];
      var row := BuildNgoRow(data);
      trace := trace + [Send(row)];
      if insert.Succeeded? {
        trace := trace + [ToastSuccess(Registered)];
        trace := trace + [ResetForm];
        trace := trace + [RequestOpen(false)];
        if hasOnSuccess {
          trace := trace + [NotifySuccess];
        }
      } else {
        trace := trace + [ToastError(RegisterFailed)];
      }
      isSubmitting := false;
      trace := trace + [SetBusy(false)];
      assert trace == ModalSubmitEffects(row, insert, hasOnSuccess);
      effects := effects + trace;
      EndsIdle(false, effects);
    }

    /** Submitting the dialog's form: only values the schema accepts reach
        `onSubmit`; otherwise its messages are shown and nothing else
        happens. */
    method HandleSubmit(data: NgoInput, isEmail: string -> bool, insert: Outcome, hasOnSuccess: bool)
      requires Valid()
      modifies this
      ensures Valid() && errors == NgoIssues(data, isEmail)
      ensures errors == [] ==> !isSubmitting && effects == old(effects) + ModalSubmitEffects(BuildNgoRow(data), insert, hasOnSuccess)
      ensures errors != [] ==> isSubmitting == old(isSubmitting) && effects == old(effects)
    {
      var issues := NgoIssues(data, isEmail);
      errors := issues;
      if issues == [] {
        OnSubmit(data, insert, hasOnSuccess);
      }
    }
  }
}

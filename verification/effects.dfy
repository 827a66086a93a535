/**
 * What a form's submit handler does, as the sequence of observable effects
 * it performs: turning its busy flag (`isSubmitting`, `loading`) on and off,
 * sending one request to the backend and awaiting it, toasts, navigation,
 * and the callbacks a dialog hands it. A handler either submits (busy on,
 * send, react to the outcome, busy off in `finally`) or, as the register
 * page does when its password checks fail, refuses early (busy on, an error
 * toast, busy off with no `finally` and nothing sent).
 */
module Effects {

  datatype Effect<Request> =
    | SetBusy(busy: bool)            // setIsSubmitting(..) / setLoading(..)
    | Send(request: Request)         // the awaited backend call
    | ToastSuccess(message: string)
    | ToastError(message: string)
    | Navigate(path: string)         // router.push(path)
    | ResetForm                      // the form library's reset()
    | RequestOpen(open: bool)        // onOpenChange(open)
    | NotifySuccess                  // onSuccess?.()

  /** What an awaited backend call (an insert, a sign-up) reports: no
      error, or an error whose `message` may be missing or empty. */
  datatype Outcome = Succeeded | Failed(message: string)

  /** The busy flag once the effects `t` have happened, starting from `init`. */
  function BusyAfter<R>(init: bool, t: seq<Effect<R>>): bool
    decreases |t|
  {
    if t == [] then init
    else BusyAfter(if t[0].SetBusy? then t[0].busy else init, t[1..])
  }

  /** Effects that neither touch the busy flag nor send anything. */
  ghost predicate Reactions<R>(t: seq<Effect<R>>) {
    forall k :: 0 <= k < |t| ==> !t[k].SetBusy? && !t[k].Send?
  }

  /** Every request in `t` is sent while the busy flag is on. */
  ghost predicate SentWhileBusy<R>(init: bool, t: seq<Effect<R>>) {
    forall k :: 0 <= k < |t| && t[k].Send? ==> BusyAfter(init, t[..k])
  }

  function SendCount<R>(t: seq<Effect<R>>): nat {
    if t == [] then 0 else (if t[0].Send? then 1 else 0) + SendCount(t[1..])
  }

  /** `a` happens, and later `b` happens. */
  ghost predicate Before<R>(t: seq<Effect<R>>, a: Effect<R>, b: Effect<R>) {
    exists i, j :: 0 <= i < j < |t| && t[i] == a && t[j] == b
  }

  /** The try/finally shape of a submit handler: busy on, send `request`,
      then `onSuccess` or `onFailure` by the outcome, busy off. */
  function Submission<R>(request: R, ok: bool, onSuccess: seq<Effect<R>>, onFailure: seq<Effect<R>>): seq<Effect<R>> {
    [SetBusy(true), Send(request)] + (if ok then onSuccess else onFailure) + [SetBusy(false)]
  }

  /** An early exit before anything is sent: busy on, one message, busy off. */
  function Refusal<R>(message: string): seq<Effect<R>> {
    [SetBusy(true), ToastError(message), SetBusy(false)]
  }

  lemma {:induction false} BusyAfterAppend<R>(init: bool, a: seq<Effect<R>>, b: seq<Effect<R>>)
    ensures BusyAfter(init, a + b) == BusyAfter(BusyAfter(init, a), b)
    decreases |a|
  {
    if a != [] {
      assert (a + b)[0] == a[0];
      assert (a + b)[1..] == a[1..] + b;
      BusyAfterAppend(if a[0].SetBusy? then a[0].busy else init, a[1..], b);
    } else {
      assert a + b == b;
    }
  }

  /** Effects that end by turning the busy flag off leave it off. */
  lemma EndsIdle<R>(init: bool, t: seq<Effect<R>>)
    requires t != [] && t[|t| - 1] == SetBusy(false)
    ensures !BusyAfter(init, t)
  {
    assert t == t[..|t| - 1] + [SetBusy(false)];
    BusyAfterAppend(init, t[..|t| - 1], [SetBusy(false)]);
  }

  lemma {:induction false} ReactionsKeepBusy<R>(init: bool, t: seq<Effect<R>>)
    requires Reactions(t)
    ensures BusyAfter(init, t) == init && SendCount(t) == 0
  {
    if t != [] {
      ReactionsKeepBusy(init, t[1..]);
    }
  }

  lemma {:induction false} SendCountAppend<R>(a: seq<Effect<R>>, b: seq<Effect<R>>)
    ensures SendCount(a + b) == SendCount(a) + SendCount(b)
  {
    if a == [] {
      assert a + b == b;
    } else {
      assert (a + b)[1..] == a[1..] + b;
      SendCountAppend(a[1..], b);
    }
  }

  /** Whatever the outcome, a submission sends exactly one request, sends it
      while busy, and ends not busy. */
  lemma SubmissionLifecycle<R>(init: bool, request: R, ok: bool, onSuccess: seq<Effect<R>>, onFailure: seq<Effect<R>>)
    requires Reactions(onSuccess) && Reactions(onFailure)
    ensures var t := Submission(request, ok, onSuccess, onFailure);
      && SendCount(t) == 1
      && SentWhileBusy(init, t)
      && !BusyAfter(init, t)
      && t[1] == Send(request)
  {
    var middle := if ok then onSuccess else onFailure;
    var head: seq<Effect<R>> := [SetBusy(true), Send(request)];
    var t := Submission(request, ok, onSuccess, onFailure);
    assert t == head + middle + [SetBusy(false)];
    ReactionsKeepBusy(true, middle);
    BusyAfterAppend(init, head, middle);
    BusyAfterAppend(init, head + middle, [SetBusy(false)]);
    SendCountAppend(head, middle);
    SendCountAppend(head + middle, [SetBusy(false)]);
    forall k | 2 <= k < |t| ensures !t[k].Send? {
      if k < |t| - 1 {
        assert t[k] == middle[k - 2];
      }
    }
    assert t[..1] == [SetBusy(true)];
  }

  /** An early exit sends nothing and ends not busy. */
  lemma RefusalLifecycle<R>(init: bool, message: string)
    ensures SendCount(Refusal<R>(message)) == 0 && !BusyAfter(init, Refusal<R>(message))
  {
    var t := Refusal<R>(message);
    var start: seq<Effect<R>> := [SetBusy(true), ToastError(message)];
    assert t == start + [SetBusy(false)];
    BusyAfterAppend(init, start, [SetBusy(false)]);
    SendCountAppend(start, [SetBusy(false)]);
    assert start[1..] == [ToastError(message)] && start[1..][1..] == [];
    assert t[1..] == [ToastError(message), SetBusy(false)] && t[1..][1..] == [SetBusy(false)];
  }
}

/**
 * The account registration page: a form state keyed by input name, a
 * change handler that overwrites the key of the input that changed, and a
 * register handler that checks the two passwords, asks the auth backend to
 * sign the account up and then sends the user to the login page.
 */
module Register {
  import opened Seqs
  import opened Effects

  /** The form state: input name to its current value. The change handler
      writes under whatever name the input carries, so this is a map. */
  type FormData = map<string, string>

  const FormKeys: set<string> := {"email", "password", "confirmPassword", "name", "organizationType"}

  /** The initial state: every field empty, organisation type NGO. */
  const InitialForm: FormData :=
    map["email" := "", "password" := "", "confirmPassword" := "", "name" := "", "organizationType" := "ngo"]

  const PasswordsDiffer := "Passwords do not match"
  const PasswordTooShort := "Password must be at least 6 characters long"
  const Registered := "Registration successful! Please check your email for verification."
  const RegisterFailed := "Failed to register"
  const MinPasswordLength := 6
  /** Where the page goes after a successful sign-up. */
  const LoginPage := "/auth/login"

  /** The sign-up call's payload: credentials and the account's metadata. */
  datatype SignUpRequest = SignUpRequest(email: string, password: string, name: string, organization_type: string)

  /** The five fields the page reads are all present. */
  predicate HasFields(form: FormData) {
    FormKeys <= form.Keys
  }

  /** The change handler's new state. */
  function Change(form: FormData, name: string, value: string): (r: FormData)
    ensures name in r && r[name] == value
    ensures forall k :: k != name ==> (k in r <==> k in form)
    ensures forall k :: k != name && k in form ==> r[k] == form[k]
  {
    form[name := value]
  }

  /** A change keeps every field the page reads. */
  lemma ChangeKeepsFields(form: FormData, name: string, value: string)
    requires HasFields(form)
    ensures HasFields(Change(form, name, value))
  {
  }

  /** The page's radio inputs only ever write "ngo" or "hospital" under
      `organizationType`, so that field keeps one of the two. */
  lemma OrganizationTypeStaysAChoice(form: FormData, name: string, value: string)
    requires HasFields(form) && form["organizationType"] in {"ngo", "hospital"}
    requires name == "organizationType" ==> value in {"ngo", "hospital"}
    ensures Change(form, name, value)["organizationType"] in {"ngo", "hospital"}
  {
  }

  /** The message that stops registration before anything is sent: the
      mismatch check comes first, then the length check. */
  function PasswordProblem(password: string, confirmPassword: string): (r: Option<string>)
    ensures r.None? <==> password == confirmPassword && |password| >= MinPasswordLength
    ensures r == Some(PasswordsDiffer) <==> password != confirmPassword
    ensures r == Some(PasswordTooShort) <==> password == confirmPassword && |password| < MinPasswordLength
  {
    if password != confirmPassword then Some(PasswordsDiffer)
    else if |password| < MinPasswordLength then Some(PasswordTooShort)
    else None
  }

  /** The toast for a failed sign-up: the error's message, or the fallback
      when the message is missing or empty. */
  function FailureMessage(message: string): (r: string)
    ensures r != ""
    ensures message != "" ==> r == message
    ensures message == "" ==> r == RegisterFailed
  {
    if message != "" then message else RegisterFailed
  }

  function SignUpOf(form: FormData): SignUpRequest
    requires HasFields(form)
  {
    SignUpRequest(form["email"], form["password"], form["name"], form["organizationType"])
  }

  /** What the register handler does for the form state `form` when the
      sign-up call reports `signUp`. */
  function RegisterEffects(form: FormData, signUp: Outcome): seq<Effect<SignUpRequest>>
    requires HasFields(form)
  {
    match PasswordProblem(form["password"], form["confirmPassword"])
    case Some(message) => [SetBusy(true), ToastError(message), SetBusy(false)]
    case None =>
      [SetBusy(true), Send(SignUpOf(form))]
      + (if signUp.Succeeded? then [ToastSuccess(Registered), Navigate(LoginPage)]
         else [ToastError(FailureMessage(signUp.message))])
      + [SetBusy(false)]
  }

  /** The sign-up call is made exactly when the passwords match and are long
      enough, once, while `loading` is on, with the form's email, password,
      name and organisation type; `loading` is off at the end either way.
      The login page is opened exactly when the call is made and succeeds. */
  lemma RegisterOutcome(form: FormData, signUp: Outcome)
    requires HasFields(form)
    ensures var t := RegisterEffects(form, signUp);
      var password, confirm := form["password"], form["confirmPassword"];
      && (SendCount(t) == 1 <==> password == confirm && |password| >= MinPasswordLength)
      && SendCount(t) <= 1
      && SentWhileBusy(false, t) && !BusyAfter(false, t)
      && (password != confirm ==> t == Refusal(PasswordsDiffer))
      && (password == confirm && |password| < MinPasswordLength ==> t == Refusal(PasswordTooShort))
      && (SendCount(t) == 1 ==>
            && t[1] == Send(SignUpRequest(form["email"], password, form["name"], form["organizationType"]))
            && (signUp.Failed? ==> ToastError(FailureMessage(signUp.message)) in t))
      && (Navigate(LoginPage) in t <==> SendCount(t) == 1 && signUp.Succeeded?)
  {
    var t := RegisterEffects(form, signUp);
    match PasswordProblem(form["password"], form["confirmPassword"])
    case Some(message) =>
      RefusalLifecycle<SignUpRequest>(false, message);
      assert t == Refusal(message);
      assert !t[0].Send? && !t[1].Send? && !t[2].Send?;
    case None =>
      var failure := FailureMessage(if signUp.Failed? then signUp.message else "");
      assert t == Submission(SignUpOf(form), signUp.Succeeded?, [ToastSuccess(Registered), Navigate(LoginPage)], [ToastError(failure)]);
      SubmissionLifecycle(false, SignUpOf(form), signUp.Succeeded?,
                          [ToastSuccess(Registered), Navigate(LoginPage)], [ToastError(failure)]);
  }

  /** The registration page. */
  class RegisterPage {
    var formData: FormData
    var loading: bool
    var effects: seq<Effect<SignUpRequest>>

    /** The page's fields are all there, and `loading` is the busy flag the
        recorded effects leave behind. */
    ghost predicate Valid()
      reads this
    {
      HasFields(formData) && loading == BusyAfter(false, effects)
    }

    constructor ()
      ensures Valid() && formData == InitialForm && !loading && effects == []
    {
      formData, loading, effects := InitialForm, false, [];
    }

    /** `handleChange`: the input called `name` now holds `value`. */
    method HandleChange(name: string, value: string)
      requires Valid()
      modifies this
      ensures Valid()
      ensures formData == Change(old(formData), name, value)
      ensures loading == old(loading) && effects == old(effects)
    {
      formData := formData[name := value];
    }

    /** `handleRegister`: refuse mismatched or short passwords, otherwise
        sign up and react to the outcome; `loading` is off afterwards. */
    method HandleRegister(signUp: Outcome)
      requires Valid()
      modifies this
      ensures Valid() && !loading && formData == old(formData)
      ensures effects == old(effects) + RegisterEffects(formData, signUp)
    {
      var form := formData;
      loading := true;
      var trace := [SetBusy(true)];
      if form["password"] != form["confirmPassword"] {
        trace := trace + [ToastError(PasswordsDiffer)];
        loading := false;
        trace := trace + [SetBusy(false)];
      } else if |form["password"]| < MinPasswordLength {
        trace := trace + [ToastError(PasswordTooShort)];
        loading := false;
        trace := trace + [SetBusy(false)];
      } else {
        var request := SignUpRequest(form["email"], form["password"], form["name"], form["organizationType"]);
        trace := trace + [Send(request)];
        if signUp.Succeeded? {
          trace := trace + [ToastSuccess(Registered), Navigate(LoginPage)];
        } else {
          trace := trace + [ToastError(if signUp.message != "" then signUp.message else RegisterFailed)];
        }
        loading := false;
        trace := trace + [SetBusy(false)];
      }
      assert trace == RegisterEffects(form, signUp);
      effects := effects + trace;
      EndsIdle(false, effects);
    }
  }
}

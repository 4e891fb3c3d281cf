/** The sign-in page: its form state, the submit handler's length gate and
    the status hook that reacts to the store's sign-in flags. */
module Signin {
  import opened Text
  import opened FormLimits
  import opened AuthStatus
  import Signup

  datatype Form = Form(email: string, password: string)

  /** The names of the two inputs, as carried by the change event. */
  datatype Field = Email | Password

  function Get(form: Form, field: Field): string {
    match field
    case Email => form.email
    case Password => form.password
  }

  /** The page's two pieces of local state. */
  datatype State = State(form: Form, showPassword: bool)

  /** Input change: the named field takes the new value; everything else is kept. */
  function HandleChange(st: State, field: Field, value: string): (r: State)
    ensures Get(r.form, field) == value
    ensures forall f :: f != field ==> Get(r.form, f) == Get(st.form, f)
    ensures r.showPassword == st.showPassword
  {
    var form := match field
      case Email => st.form.(email := value)
      case Password => st.form.(password := value);
    st.(form := form)
  }

  /** Flips whether the password is shown; the form is untouched. */
  function TogglePasswordVisibility(st: State): (r: State)
    ensures r.showPassword != st.showPassword
    ensures r.form == st.form
  {
    st.(showPassword := !st.showPassword)
  }

  lemma ToggleTwice(st: State)
    ensures TogglePasswordVisibility(TogglePasswordVisibility(st)) == st
  {
  }

  /** The record handed to `signInAccount`. */
  datatype Credentials = Credentials(password: string, email: string)

  /** A rejection carries the text of its error toast. */
  datatype Outcome = Rejected(message: string) | SignInAccount(credentials: Credentials)

  /** Trims both fields; sends them unless either is over its limit. There is
      no rule on the password's minimum length or content: every input within
      the two limits is sent, the empty one included. */
  function HandleSubmit(form: Form): (r: Outcome)
    ensures r.SignInAccount? <==>
      Utf16Length(Trim(form.password)) <= MaxPasswordLength && Utf16Length(Trim(form.email)) <= MaxEmailLength
    ensures r.SignInAccount? ==> r.credentials == Credentials(Trim(form.password), Trim(form.email))
    ensures r.Rejected? ==> r.message == MaxLengthMessage
  {
    var user := Credentials(Trim(form.password), Trim(form.email));
    if Utf16Length(user.password) > MaxPasswordLength || Utf16Length(user.email) > MaxEmailLength then
      Rejected(MaxLengthMessage)
    else
      SignInAccount(user)
  }

  /** Whatever sign-up accepts passes sign-in's gate with the same email and
      password, and is sent in the same trimmed form. */
  lemma SignedUpPassesSignin(form: Signup.Form)
    ensures Signup.HandleSubmit(form).CreateAccount? ==>
      HandleSubmit(Form(form.email, form.password))
      == SignInAccount(Credentials(Signup.HandleSubmit(form).user.password, Signup.HandleSubmit(form).user.email))
  {
    if Signup.HandleSubmit(form).CreateAccount? {
      assert Signup.Holds(Signup.LengthLimits, Signup.TrimFields(form), Signup.MinPasswordLength);
    }
  }

  const SignInSuccessText := "Login Success."

  /** The status hook: at most one toast; a success also schedules the home
      page after half a second. `message` is the store's failure message. */
  function StatusEffects(f: Flags, message: string): (r: seq<Effect>)
    ensures Toasts(r) == if ShowsFailure(f) then [ErrorToast(message)]
                         else if ShowsSuccess(f) then [SuccessToast(SignInSuccessText)]
                         else []
    ensures NavigateAfter(500, "/") in r <==> ShowsSuccess(f)
    ensures forall e :: e in r ==> IsToast(e) || e == NavigateAfter(500, "/")
    ensures |r| == |Toasts(r)| + (if ShowsSuccess(f) then 1 else 0)
  {
    var failure := if ShowsFailure(f) then [ErrorToast(message)] else [];
    var success := if ShowsSuccess(f) then [SuccessToast(SignInSuccessText), NavigateAfter(500, "/")] else [];
    ToastsAppend(failure, success);
    assert Toasts(success) == if ShowsSuccess(f) then [SuccessToast(SignInSuccessText)] else [];
    failure + success
  }

  /** At most one toast is shown, and the success toast comes exactly with the
      scheduled move to the home page. */
  lemma AtMostOneToast(f: Flags, message: string)
    ensures |Toasts(StatusEffects(f, message))| <= 1
    ensures ErrorToast(message) in StatusEffects(f, message) <==> ShowsFailure(f)
    ensures SuccessToast(SignInSuccessText) in StatusEffects(f, message) <==> NavigateAfter(500, "/") in StatusEffects(f, message)
  {
    var r := StatusEffects(f, message);
    assert ErrorToast(message) in r <==> ErrorToast(message) in Toasts(r);
    assert SuccessToast(SignInSuccessText) in r <==> SuccessToast(SignInSuccessText) in Toasts(r);
  }
}

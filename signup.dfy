/** The sign-up page: its form state, the submit handler's validation cascade
    and the status hook that reacts to the store's sign-up flags. */
module Signup {
  import opened Text
  import opened FormLimits
  import opened AuthStatus

  datatype Form = Form(email: string, password: string, confirmPassword: string, name: string)

  /** The names of the four inputs, as carried by the change event. */
  datatype Field = Email | Password | ConfirmPassword | Name

  function Get(form: Form, field: Field): string {
    match field
    case Email => form.email
    case Password => form.password
    case ConfirmPassword => form.confirmPassword
    case Name => form.name
  }

  /** The page's two pieces of local state. */
  datatype State = State(form: Form, showPassword: bool)

  /** Input change: the named field takes the new value; everything else is kept. */
  function HandleChange(st: State, field: Field, value: string): (r: State)
    ensures Get(r.form, field) == value
    ensures forall f :: f != field ==> Get(r.form, f) == Get(st.form, f)
    ensures r.showPassword == st.showPassword
  {
    var form := match field
      case Email => st.form.(email := value)
      case Password => st.form.(password := value)
      case ConfirmPassword => st.form.(confirmPassword := value)
      case Name => st.form.(name := value);
    st.(form := form)
  }

  /** Flips whether the password is shown; the form is untouched. */
  function TogglePasswordVisibility(st: State): (r: State)
    ensures r.showPassword != st.showPassword
    ensures r.form == st.form
  {
    st.(showPassword := !st.showPassword)
  }

  lemma ToggleTwice(st: State)
    ensures TogglePasswordVisibility(TogglePasswordVisibility(st)) == st
  {
  }

  /** The two state updates touch different parts of the state, so their order does not matter. */
  lemma ToggleCommutesWithChange(st: State, field: Field, value: string)
    ensures TogglePasswordVisibility(HandleChange(st, field, value)) == HandleChange(TogglePasswordVisibility(st), field, value)
  {
  }

  /** The minimum password length the handler enforces ... */
  const MinPasswordLength: nat := 7
  /** ... and the one its error message (`RuleMessage(MinimumPasswordLength)`) announces. */
  const AnnouncedMinPasswordLength: nat := 8

  /** The three checks of the submit handler, in the order it applies them. */
  datatype Rule = LengthLimits | PasswordsMatch | MinimumPasswordLength

  function Rank(rule: Rule): nat {
    match rule
    case LengthLimits => 0
    case PasswordsMatch => 1
    case MinimumPasswordLength => 2
  }

  /** The error toast shown when a rule fails. The length rule shares its
      text with the sign-in page; the minimum-length text announces eight
      characters, not the seven the handler enforces. */
  function RuleMessage(rule: Rule): (r: string)
    ensures r == MaxLengthMessage <==> rule == LengthLimits
    ensures rule == MinimumPasswordLength ==> r == "Password must be at least 8 characters long"
  {
    match rule
    case LengthLimits => MaxLengthMessage
    case PasswordsMatch => "Passwords do not match"
    case MinimumPasswordLength => "Password must be at least 8 characters long"
  }

  /** Each failing rule has its own toast text. */
  lemma RuleMessagesDistinct(a: Rule, b: Rule)
    ensures RuleMessage(a) == RuleMessage(b) ==> a == b
  {
  }

  /** The record handed to `createAccount`: there is no confirmation field. */
  datatype NewUser = NewUser(name: string, password: string, email: string)

  datatype Outcome = Rejected(rule: Rule) | CreateAccount(user: NewUser)

  /** The trimmed values the handler works on: the three that go into the
      record, and the trimmed confirmation. */
  datatype Submission = Submission(name: string, password: string, email: string, confirmPassword: string)

  function TrimFields(form: Form): Submission {
    Submission(Trim(form.name), Trim(form.password), Trim(form.email), Trim(form.confirmPassword))
  }

  /** What each rule demands of the trimmed values, on its own. */
  predicate Holds(rule: Rule, sub: Submission, minLength: nat) {
    match rule
    case LengthLimits =>
      Utf16Length(sub.password) <= MaxPasswordLength && Utf16Length(sub.email) <= MaxEmailLength
      && Utf16Length(sub.name) <= MaxNameLength && Utf16Length(sub.confirmPassword) <= MaxPasswordLength
    case PasswordsMatch => sub.password == sub.confirmPassword
    case MinimumPasswordLength => Utf16Length(sub.password) >= minLength
  }

  /** The submit cascade with a given minimum password length. The values
      are accepted exactly when every rule holds, and then the record of
      name, password and email is sent; otherwise the reported rule is the
      first failing one in rule order. */
  function Check(sub: Submission, minLength: nat): (r: Outcome)
    ensures r.CreateAccount? <==> forall rule :: Holds(rule, sub, minLength)
    ensures r.CreateAccount? ==> r.user == NewUser(sub.name, sub.password, sub.email)
    ensures r.Rejected? ==> !Holds(r.rule, sub, minLength)
    ensures r.Rejected? ==> forall rule :: Rank(rule) < Rank(r.rule) ==> Holds(rule, sub, minLength)
  {
    if Utf16Length(sub.password) > MaxPasswordLength
       || Utf16Length(sub.email) > MaxEmailLength
       || Utf16Length(sub.name) > MaxNameLength
       || Utf16Length(sub.confirmPassword) > MaxPasswordLength
    then
      assert !Holds(LengthLimits, sub, minLength);
      Rejected(LengthLimits)
    else if sub.password != sub.confirmPassword then
      assert !Holds(PasswordsMatch, sub, minLength);
      Rejected(PasswordsMatch)
    else if Utf16Length(sub.password) < minLength then
      assert !Holds(MinimumPasswordLength, sub, minLength);
      Rejected(MinimumPasswordLength)
    else
      CreateAccount(NewUser(sub.name, sub.password, sub.email))
  }

  /** The submit handler as written: trim, then the cascade with a minimum of 7. */
  function HandleSubmit(form: Form): (r: Outcome)
    ensures r.CreateAccount? <==> forall rule :: Holds(rule, TrimFields(form), MinPasswordLength)
    ensures r.CreateAccount? ==> r.user == NewUser(Trim(form.name), Trim(form.password), Trim(form.email))
    ensures r.Rejected? ==> !Holds(r.rule, TrimFields(form), MinPasswordLength)
    ensures r.Rejected? ==> forall rule :: Rank(rule) < Rank(r.rule) ==> Holds(rule, TrimFields(form), MinPasswordLength)
  {
    Check(TrimFields(form), MinPasswordLength)
  }

  /** Over-long input is reported as such, whatever else is wrong with the form
      (the passwords may also differ), and nothing is sent. */
  lemma OverLengthRejectedFirst(form: Form)
    ensures Utf16Length(Trim(form.password)) > MaxPasswordLength || Utf16Length(Trim(form.email)) > MaxEmailLength
            || Utf16Length(Trim(form.name)) > MaxNameLength || Utf16Length(Trim(form.confirmPassword)) > MaxPasswordLength
            ==> HandleSubmit(form) == Rejected(LengthLimits) && RuleMessage(HandleSubmit(form).rule) == MaxLengthMessage
  {
  }

  /** Within the limits, differing trimmed passwords are reported, and nothing is sent. */
  lemma MismatchRejected(form: Form)
    ensures Holds(LengthLimits, TrimFields(form), MinPasswordLength) && Trim(form.password) != Trim(form.confirmPassword)
            ==> HandleSubmit(form) == Rejected(PasswordsMatch) && RuleMessage(HandleSubmit(form).rule) == "Passwords do not match"
  {
  }

  /** Every sent record has a password of 7 to 30 code units that equals the
      trimmed confirmation. */
  lemma AcceptedPasswordBounds(form: Form)
    ensures HandleSubmit(form).CreateAccount? ==>
      MinPasswordLength <= Utf16Length(HandleSubmit(form).user.password) <= MaxPasswordLength
    ensures HandleSubmit(form).CreateAccount? ==> HandleSubmit(form).user.password == Trim(form.confirmPassword)
  {
    if HandleSubmit(form).CreateAccount? {
      var sub := TrimFields(form);
      assert Holds(LengthLimits, sub, MinPasswordLength);
      assert Holds(PasswordsMatch, sub, MinPasswordLength);
      assert Holds(MinimumPasswordLength, sub, MinPasswordLength);
    }
  }

  /** A seven-character password is accepted although the message for the
      rule announces a minimum of eight. */
  lemma SevenCharacterPasswordAccepted()
    ensures HandleSubmit(Form("a@b.c", "abcdefg", "abcdefg", "Al"))
         == CreateAccount(NewUser("Al", "abcdefg", "a@b.c"))
    ensures Utf16Length("abcdefg") == 7
    ensures RuleMessage(MinimumPasswordLength) == "Password must be at least 8 characters long"
  {
    SampleIsTrimmed();
    SampleIsAccepted();
  }

  lemma SampleIsTrimmed()
    ensures TrimFields(Form("a@b.c", "abcdefg", "abcdefg", "Al"))
         == Submission("Al", "abcdefg", "a@b.c", "abcdefg")
  {
    PasswordTrimmed();
    EmailTrimmed();
    NameTrimmed();
  }

  lemma PasswordTrimmed()
    ensures Trim("abcdefg") == "abcdefg"
  {
    TrimOfTrimmed("abcdefg");
  }

  lemma EmailTrimmed()
    ensures Trim("a@b.c") == "a@b.c"
  {
    TrimOfTrimmed("a@b.c");
  }

  lemma NameTrimmed()
    ensures Trim("Al") == "Al"
  {
    TrimOfTrimmed("Al");
  }

  lemma SampleIsAccepted()
    ensures Check(Submission("Al", "abcdefg", "a@b.c", "abcdefg"), MinPasswordLength)
         == CreateAccount(NewUser("Al", "abcdefg", "a@b.c"))
    ensures Utf16Length("abcdefg") == 7
  {
    var sub := Submission("Al", "abcdefg", "a@b.c", "abcdefg");
    SampleLengths();
    assert Holds(LengthLimits, sub, MinPasswordLength);
    assert Holds(PasswordsMatch, sub, MinPasswordLength);
    assert Holds(MinimumPasswordLength, sub, MinPasswordLength);
  }

  lemma SampleLengths()
    ensures Utf16Length("abcdefg") == 7 && Utf16Length("a@b.c") == 5 && Utf16Length("Al") == 2
  {
    PasswordLength();
    EmailLength();
    NameLength();
  }

  lemma PasswordLength()
    ensures Utf16Length("abcdefg") == 7
  {
  }

  lemma EmailLength()
    ensures Utf16Length("a@b.c") == 5
  {
  }

  lemma NameLength()
    ensures Utf16Length("Al") == 2
  {
  }

  /** The cascade with the minimum its message announces. */
  function HandleSubmitIntended(form: Form): (r: Outcome)
    ensures r.CreateAccount? ==> AnnouncedMinPasswordLength <= Utf16Length(r.user.password) <= MaxPasswordLength
    ensures r.CreateAccount? ==> r.user.password == Trim(form.confirmPassword)
    ensures r.CreateAccount? ==> r.user == NewUser(Trim(form.name), Trim(form.password), Trim(form.email))
  {
    var sub := TrimFields(form);
    var r := Check(sub, AnnouncedMinPasswordLength);
    assert r.CreateAccount? ==>
      Holds(LengthLimits, sub, AnnouncedMinPasswordLength) && Holds(MinimumPasswordLength, sub, AnnouncedMinPasswordLength)
      && Holds(PasswordsMatch, sub, AnnouncedMinPasswordLength);
    r
  }

  /** The handler as written and the intended one disagree only on passwords
      of exactly seven code units, which the first accepts and the second rejects. */
  lemma IntendedDiffersOnlyAtSeven(form: Form)
    ensures HandleSubmit(form) != HandleSubmitIntended(form) ==>
      Utf16Length(Trim(form.password)) == 7 && HandleSubmit(form).CreateAccount?
      && HandleSubmitIntended(form) == Rejected(MinimumPasswordLength)
  {
  }

  const SignUpSuccessText := "Account Successfully Created."

  /** The hook's first branch: an immediate move home when already signed in. */
  function HomeEffects(signInSuccess: bool): (r: seq<Effect>)
    ensures Toasts(r) == []
    ensures |r| == if signInSuccess then 1 else 0
    ensures forall e :: e in r ==> e == Navigate("/")
    ensures signInSuccess ==> r[0] == Navigate("/")
  {
    ToastsSingleton(Navigate("/"));
    if signInSuccess then [Navigate("/")] else []
  }

  /** The hook's second and third branches: the failure toast, or the success
      toast with the sign-in page scheduled after a second. */
  function FlagEffects(f: Flags, message: string): (r: seq<Effect>)
    ensures Toasts(r) == if ShowsFailure(f) then [ErrorToast(message)]
                         else if ShowsSuccess(f) then [SuccessToast(SignUpSuccessText)]
                         else []
    ensures |r| == |Toasts(r)| + (if ShowsSuccess(f) then 1 else 0)
    ensures NavigateAfter(1000, "/signin") in r <==> ShowsSuccess(f)
    ensures forall e :: e in r ==> IsToast(e) || e == NavigateAfter(1000, "/signin")
  {
    var failure := if ShowsFailure(f) then [ErrorToast(message)] else [];
    var success := if ShowsSuccess(f) then [SuccessToast(SignUpSuccessText), NavigateAfter(1000, "/signin")] else [];
    ToastsSingleton(ErrorToast(message));
    ToastsAppend(failure, success);
    assert Toasts(success) == if ShowsSuccess(f) then [SuccessToast(SignUpSuccessText)] else [];
    failure + success
  }

  /** The status hook: `signInSuccess` sends the user home at once; the
      sign-up flags give at most one toast, and a success also schedules the
      sign-in page after a second. `message` is the store's failure message. */
  function StatusEffects(f: Flags, signInSuccess: bool, message: string): (r: seq<Effect>)
    ensures Toasts(r) == if ShowsFailure(f) then [ErrorToast(message)]
                         else if ShowsSuccess(f) then [SuccessToast(SignUpSuccessText)]
                         else []
    ensures signInSuccess ==> |r| > 0 && r[0] == Navigate("/")
    ensures NavigateAfter(1000, "/signin") in r <==> ShowsSuccess(f)
    ensures forall e :: e in r ==> IsToast(e) || (signInSuccess && e == Navigate("/")) || e == NavigateAfter(1000, "/signin")
    ensures |r| == |Toasts(r)| + (if signInSuccess then 1 else 0) + (if ShowsSuccess(f) then 1 else 0)
  {
    var home := HomeEffects(signInSuccess);
    var rest := FlagEffects(f, message);
    ToastsAppend(home, rest);
    home + rest
  }

  /** The immediate move home happens exactly on `signInSuccess`. */
  lemma NavigatesHomeExactlyOnSignIn(f: Flags, signInSuccess: bool, message: string)
    ensures Navigate("/") in StatusEffects(f, signInSuccess, message) <==> signInSuccess
  {
  }

  /** At most one toast is shown for any combination of flags. */
  lemma AtMostOneToast(f: Flags, signInSuccess: bool, message: string)
    ensures |Toasts(StatusEffects(f, signInSuccess, message))| <= 1
    ensures ErrorToast(message) in StatusEffects(f, signInSuccess, message) <==> ShowsFailure(f)
    ensures SuccessToast(SignUpSuccessText) in StatusEffects(f, signInSuccess, message) <==> ShowsSuccess(f)
  {
    var r := StatusEffects(f, signInSuccess, message);
    assert ErrorToast(message) in r <==> ErrorToast(message) in Toasts(r);
    assert SuccessToast(SignUpSuccessText) in r <==> SuccessToast(SignUpSuccessText) in Toasts(r);
  }
}

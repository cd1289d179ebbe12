/**
 * The sign-in / sign-up page: the two schemas, the field-error map a rejected form shows, and
 * the rewriting of the authentication service's error messages. The e-mail check belongs to the
 * validation library and is an input here (`isEmail`); so are the service's replies.
 */
module Auth {
  import opened Wrappers
  import opened Text
  import opened FormErrors

  const InvalidEmail: string := "Please enter a valid email address"
  const ShortPassword: string := "Password must be at least 6 characters"
  const NameTooShort: string := "Name must be at least 2 characters"
  const NameTooLong: string := "Name is too long"
  const PasswordsDiffer: string := "Passwords don't match"

  function EmailIssues(email: string, isEmail: string -> bool): seq<Issue>
  {
    if isEmail(email) then [] else [Issue(["email"], InvalidEmail)]
  }

  /** The login schema: a valid e-mail and a password of at least 6 characters. */
  function LoginIssues(email: string, password: string, isEmail: string -> bool): seq<Issue>
  {
    EmailIssues(email, isEmail) + MinLength("password", password, 6, ShortPassword)
  }

  /** The login form passes exactly when the e-mail is valid and the password has at least 6 characters. */
  lemma LoginIssuesSpec(email: string, password: string, isEmail: string -> bool)
    ensures LoginIssues(email, password, isEmail) == [] <==> isEmail(email) && |password| >= 6
    ensures |password| < 6 ==>
              "password" in FieldErrors(LoginIssues(email, password, isEmail))
              && FieldErrors(LoginIssues(email, password, isEmail))["password"] == ShortPassword
    ensures !isEmail(email) ==>
              "email" in FieldErrors(LoginIssues(email, password, isEmail))
              && FieldErrors(LoginIssues(email, password, isEmail))["email"] == InvalidEmail
  {
    var issues := LoginIssues(email, password, isEmail);
    if |password| < 6 {
      FieldErrorsLastWins(issues, |issues| - 1);
    }
    if !isEmail(email) {
      FieldErrorsLastWins(issues, 0);
    }
  }

  datatype SignupForm = SignupForm(fullName: string, email: string, password: string, confirmPassword: string)

  /**
   * The signup schema: the field checks in field order, then the refinement that the two
   * passwords agree, reported on `confirmPassword`.
   */
  function SignupIssues(form: SignupForm, isEmail: string -> bool): seq<Issue>
  {
    MinLength("fullName", form.fullName, 2, NameTooShort)
    + MaxLength("fullName", form.fullName, 100, NameTooLong)
    + EmailIssues(form.email, isEmail)
    + MinLength("password", form.password, 6, ShortPassword)
    + (if form.password == form.confirmPassword then [] else [Issue(["confirmPassword"], PasswordsDiffer)])
  }

  /** The signup form passes exactly when the name has 2 to 100 characters, the e-mail is valid, the password has at least 6 and the confirmation equals it. */
  lemma SignupAccepts(form: SignupForm, isEmail: string -> bool)
    ensures SignupIssues(form, isEmail) == [] <==>
              2 <= |form.fullName| <= 100 && isEmail(form.email) && |form.password| >= 6
              && form.password == form.confirmPassword
  {
  }

  /** Differing passwords always put "Passwords don't match" on `confirmPassword`, whatever else is wrong. */
  lemma MismatchOnConfirmPassword(form: SignupForm, isEmail: string -> bool)
    requires form.password != form.confirmPassword
    ensures "confirmPassword" in FieldErrors(SignupIssues(form, isEmail))
    ensures FieldErrors(SignupIssues(form, isEmail))["confirmPassword"] == PasswordsDiffer
  {
    var issues := SignupIssues(form, isEmail);
    FieldErrorsLastWins(issues, |issues| - 1);
  }

  /** A short password is reported on `password` in the signup form too. */
  lemma SignupShortPassword(form: SignupForm, isEmail: string -> bool)
    requires |form.password| < 6
    ensures "password" in FieldErrors(SignupIssues(form, isEmail))
    ensures FieldErrors(SignupIssues(form, isEmail))["password"] == ShortPassword
  {
    var issues := SignupIssues(form, isEmail);
    var k := if form.password == form.confirmPassword then |issues| - 1 else |issues| - 2;
    assert issues[k] == Issue(["password"], ShortPassword);
    FieldErrorsLastWins(issues, k);
  }

  const InvalidCredentials: string := "Invalid login credentials"
  const FriendlyInvalidCredentials: string := "Invalid email or password. Please try again."
  const AlreadyRegistered: string := "This email is already registered. Please sign in instead."

  /** The form error shown for a failed sign-in. */
  function LoginErrorText(message: string): string
  {
    if message == InvalidCredentials then FriendlyInvalidCredentials else message
  }

  /** Only the invalid-credentials message is rewritten; every other message is shown as the service sent it. */
  lemma LoginErrorTextSpec(message: string)
    ensures LoginErrorText(message) != message <==> message == InvalidCredentials
    ensures LoginErrorText(InvalidCredentials) == FriendlyInvalidCredentials
  {
  }

  /** The form error shown for a failed sign-up. */
  function SignupErrorText(message: string): string
  {
    if Contains(message, "already registered") then AlreadyRegistered else message
  }

  /** Every message mentioning "already registered" becomes the fixed text; any other is shown as sent. */
  lemma SignupErrorTextSpec(message: string)
    ensures (exists i :: OccursAt(message, "already registered", i)) ==> SignupErrorText(message) == AlreadyRegistered
    ensures !(exists i :: OccursAt(message, "already registered", i)) ==> SignupErrorText(message) == message
  {
    ContainsIffOccurs(message, "already registered");
  }

  datatype SignInCall = SignInCall(email: string, password: string)
  datatype SignUpCall = SignUpCall(email: string, password: string, fullName: string)

  /** The page's state. */
  class AuthPage {
    var errors: map<string, string>
    var loading: bool

    constructor ()
      ensures errors == map[] && !loading
    {
      errors := map[];
      loading := false;
    }

    /**
     * Sign-in submit. `reply` is the service's error message, `None` on success. A rejected form
     * only sets the field errors and calls nothing; an accepted one calls sign-in with the form's
     * values and shows at most the rewritten error under `form`. No error survives from before.
     */
    method HandleLogin(email: string, password: string, isEmail: string -> bool, reply: Option<string>)
      returns (sent: Option<SignInCall>)
      modifies this
      ensures sent.Some? <==> LoginIssues(email, password, isEmail) == []
      ensures sent.None? ==> errors == FieldErrors(LoginIssues(email, password, isEmail)) && loading == old(loading)
      ensures sent.Some? ==> sent.value == SignInCall(email, password) && !loading
      ensures sent.Some? ==> errors == if reply.Some? then map["form" := LoginErrorText(reply.value)] else map[]
    {
      errors := map[];
      var issues := LoginIssues(email, password, isEmail);
      if issues != [] {
        var fieldErrors := CollectFieldErrors(issues);
        errors := fieldErrors;
        return None;
      }
      loading := true;
      sent := Some(SignInCall(email, password));
      loading := false;
      if reply.Some? {
        errors := map["form" := LoginErrorText(reply.value)];
      }
    }

    /**
     * Sign-up submit, the same shape: a rejected form sets the field errors and calls nothing;
     * an accepted one calls sign-up with the e-mail, the password and the name as typed.
     */
    method HandleSignup(form: SignupForm, isEmail: string -> bool, reply: Option<string>)
      returns (sent: Option<SignUpCall>)
      modifies this
      ensures sent.Some? <==> SignupIssues(form, isEmail) == []
      ensures sent.None? ==> errors == FieldErrors(SignupIssues(form, isEmail)) && loading == old(loading)
      ensures sent.Some? ==> sent.value == SignUpCall(form.email, form.password, form.fullName) && !loading
      ensures sent.Some? ==> errors == if reply.Some? then map["form" := SignupErrorText(reply.value)] else map[]
    {
      errors := map[];
      var issues := SignupIssues(form, isEmail);
      if issues != [] {
        var fieldErrors := CollectFieldErrors(issues);
        errors := fieldErrors;
        return None;
      }
      loading := true;
      sent := Some(SignUpCall(form.email, form.password, form.fullName));
      loading := false;
      if reply.Some? {
        errors := map["form" := SignupErrorText(reply.value)];
      }
    }
  }
}

/**
 * The registration page: the submit handler's checks in their order, the
 * message shown when registering fails, the redirect of a signed-in user by
 * role, and the rule that disables the submit button.
 */
module RegisterPage {
  import opened Wrappers
  import opened Text

  const Mismatch: string := "Пароли не совпадают"
  const TooShort: string := "Пароль должен содержать минимум 6 символов"
  const MissingFields: string := "Пожалуйста, заполните все поля"
  const Fallback: string := "Ошибка регистрации"

  /** The minimum password length the page demands. */
  const MinLength: nat := 6

  /** What the handler does with the form: show a message, or call `register`. */
  datatype Verdict = Reject(message: string) | Submit

  /** `handleSubmit`'s checks: the passwords must agree, then the password must be long enough, then no field may be empty. */
  function Validate(name: string, email: string, password: string, confirm: string): (v: Verdict)
    ensures v == Submit <==> password == confirm && |password| >= MinLength && name != "" && email != ""
  {
    if password != confirm then Reject(Mismatch)
    else if |password| < MinLength then Reject(TooShort)
    else if name != "" && email != "" && password != "" then Submit
    else Reject(MissingFields)
  }

  /** Each message is returned exactly when its check is the first that fails. */
  lemma ValidateOrder(name: string, email: string, password: string, confirm: string)
    ensures Validate(name, email, password, confirm) == Reject(Mismatch) <==> password != confirm
    ensures Validate(name, email, password, confirm) == Reject(TooShort) <==> password == confirm && |password| < MinLength
    ensures Validate(name, email, password, confirm) == Reject(MissingFields) <==>
              password == confirm && |password| >= MinLength && (name == "" || email == "")
  {
  }

  /** `disabled={!name || !email || !password || !confirmPassword || isLoading}` */
  predicate SubmitDisabled(name: string, email: string, password: string, confirm: string, isLoading: bool) {
    name == "" || email == "" || password == "" || confirm == "" || isLoading
  }

  /** Through the enabled button the "fill in all fields" message cannot appear: the button already needs every field. */
  lemma EnabledButtonNeverMissingFields(name: string, email: string, password: string, confirm: string, isLoading: bool)
    requires !SubmitDisabled(name, email, password, confirm, isLoading)
    ensures Validate(name, email, password, confirm) != Reject(MissingFields)
  {
  }

  /** `err.response?.data?.error || err.message || 'Ошибка регистрации'`: the message shown is never empty. */
  function RegisterError(responseError: Option<string>, message: Option<string>): (r: string)
    ensures r != ""
    ensures Truthy(responseError) ==> r == responseError.value
    ensures !Truthy(responseError) && Truthy(message) ==> r == message.value
    ensures !Truthy(responseError) && !Truthy(message) ==> r == Fallback
  {
    OrElse(responseError, OrElse(message, Fallback))
  }

  /** Where a signed-in user is sent: a page per known role, none for any other role. */
  function Redirect(role: Option<string>): (r: Option<string>)
    ensures r.Some? <==> role in {Some("admin"), Some("teacher"), Some("student")}
  {
    match role
    case Some("admin") => Some("/admin-dashboard")
    case Some("teacher") => Some("/teacher-dashboard")
    case Some("student") => Some("/student-dashboard")
    case _ => None
  }

  /** Different roles are sent to different pages. */
  lemma RedirectInjective(a: Option<string>, b: Option<string>)
    requires Redirect(a).Some? && Redirect(a) == Redirect(b)
    ensures a == b
  {
  }

  /** The form's state. */
  class RegisterForm {
    var name: string
    var email: string
    var password: string
    var confirmPassword: string
    var error: string
    var isLoading: bool

    constructor ()
      ensures name == "" && email == "" && password == "" && confirmPassword == ""
      ensures error == "" && !isLoading
    {
      name, email, password, confirmPassword := "", "", "", "";
      error := "";
      isLoading := false;
    }

    method EditFields(n: string, e: string, p: string, c: string)
      modifies this
      ensures name == n && email == e && password == p && confirmPassword == c
      ensures error == old(error) && isLoading == old(isLoading)
    {
      name, email, password, confirmPassword := n, e, p, c;
    }

    /**
     * `handleSubmit`. `failure` is the outcome of `register`: None when it
     * succeeds, otherwise the server's error text and the exception message.
     * The call is made, with the three fields, exactly when the checks pass.
     */
    method HandleSubmit(failure: Option<(Option<string>, Option<string>)>) returns (sent: Option<(string, string, string)>)
      modifies this
      ensures var v := Validate(name, email, password, confirmPassword);
              (sent.Some? <==> v == Submit)
              && (v.Reject? ==> error == v.message)
              && (v == Submit ==>
                    sent.value == (name, email, password)
                    && error == if failure.Some? then RegisterError(failure.value.0, failure.value.1) else "")
      ensures isLoading == if sent.Some? then false else old(isLoading)
      ensures name == old(name) && email == old(email) && password == old(password) && confirmPassword == old(confirmPassword)
    {
      if password != confirmPassword {
        error := Mismatch;
        return None;
      }
      if |password| < MinLength {
        error := TooShort;
        return None;
      }
      if name != "" && email != "" && password != "" {
        isLoading := true;
        error := "";
        sent := Some((name, email, password));
        if failure.Some? {
          error := RegisterError(failure.value.0, failure.value.1);
        }
        isLoading := false;
      } else {
        error := MissingFields;
        sent := None;
      }
    }
  }
}

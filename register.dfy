/**
 * The checks `handleRegister` in assets/JS/register.js makes before it
 * sends a sign-up request, and the request body it then builds.
 */
module Register {

  /** The four form fields; an absent field reads as `""` (both are falsy). */
  datatype RegisterForm = RegisterForm(username: string, email: string, password: string, confirmPassword: string)

  /** The JSON body of the `users/add` request. */
  datatype RequestBody = RequestBody(
    username: string, email: string, password: string,
    firstName: string, lastName: string, age: int)

  /** Either an error notification, and no request, or the request to send. */
  datatype Validation = Rejected(message: string) | Send(body: RequestBody)

  const FillInAllFields := "Please fill in all fields"
  const PasswordsDoNotMatch := "Passwords do not match"
  const PasswordTooShort := "Password must be at least 6 characters long"
  const MinPasswordLength := 6
  const DefaultLastName := "User"
  const DefaultAge := 25

  predicate AllFilled(form: RegisterForm)
  {
    form.username != "" && form.email != "" && form.password != "" && form.confirmPassword != ""
  }

  /**
   * `handleRegister` up to the fetch: the checks run in order (all
   * filled, passwords equal, password long enough), the first failing one
   * naming the error.  A request is sent exactly when all pass, and its
   * body repeats the form, with the username as first name.
   */
  function Validate(form: RegisterForm): (v: Validation)
    ensures v.Send? <==>
      AllFilled(form) && form.password == form.confirmPassword && |form.password| >= MinPasswordLength
    ensures v.Send? ==> v.body == RequestBody(form.username, form.email, form.password,
                                              form.username, DefaultLastName, DefaultAge)
    ensures !AllFilled(form) ==> v == Rejected(FillInAllFields)
    ensures AllFilled(form) && form.password != form.confirmPassword ==> v == Rejected(PasswordsDoNotMatch)
    ensures AllFilled(form) && form.password == form.confirmPassword && |form.password| < MinPasswordLength
      ==> v == Rejected(PasswordTooShort)
  {
    if !AllFilled(form) then Rejected(FillInAllFields)
    else if form.password != form.confirmPassword then Rejected(PasswordsDoNotMatch)
    else if |form.password| < MinPasswordLength then Rejected(PasswordTooShort)
    else Send(RequestBody(form.username, form.email, form.password, form.username, DefaultLastName, DefaultAge))
  }

  /**
   * The mismatch check comes before the length check: a short password
   * that differs from its confirmation is reported as a mismatch.
   */
  lemma MismatchReportedBeforeLength(form: RegisterForm)
    requires AllFilled(form) && form.password != form.confirmPassword
    requires |form.password| < MinPasswordLength
    ensures Validate(form) == Rejected(PasswordsDoNotMatch)
  {
  }

  /** Every rejection names one of the three errors. */
  lemma RejectionMessages(form: RegisterForm)
    ensures Validate(form).Rejected? ==>
      Validate(form).message in {FillInAllFields, PasswordsDoNotMatch, PasswordTooShort}
  {
  }
}

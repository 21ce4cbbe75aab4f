/** The admin login check of LoginPage. It is a comparison against a constant
    shipped with the page: a gate in the user interface, not access control. */
module Auth {

  const ADMIN_PASSWORD := "password123"
  const INCORRECT_PASSWORD := "Incorrect password. Please try again."

  /** The result of submitting the login form. */
  datatype Attempt = Granted | Denied(message: string)

  /** `handleSubmit` of LoginPage: grant iff the password is exactly the
      constant, otherwise report a non-empty message. */
  function Check(password: string): (a: Attempt)
    ensures a == Granted <==> password == ADMIN_PASSWORD
    ensures a.Denied? ==> a.message != ""
  {
    if password == ADMIN_PASSWORD then Granted else Denied(INCORRECT_PASSWORD)
  }

  /** The error text the form shows after submitting `password`: cleared
      exactly when the password is accepted. */
  function ErrorAfter(password: string): (error: string)
    ensures error == "" <==> password == ADMIN_PASSWORD
  {
    match Check(password)
    case Granted => ""
    case Denied(message) => message
  }
}

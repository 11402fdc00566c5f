/** The login page: how the typed credentials are cleaned before they are
    sent, what counts as a successful answer, and where the admin goes next. */
module Login {
  import opened Js
  import opened Text

  const Root: string := "/"
  const NoToken: string := "Token not returned"
  const LoginFailed: string := "Giriş alınmadı"

  /** `loc.state?.from || '/'`: the page the admin was sent away from, or the root. */
  function RedirectTarget(from: Option<string>): (r: string)
    ensures r != ""
    ensures Truthy(from) ==> r == from.value
    ensures !Truthy(from) ==> r == Root
  {
    OrElse(from, Root)
  }

  /** `String(email || '').trim().toLowerCase()`. */
  function CleanEmail(email: string): string
  {
    Lower(Trim(email))
  }

  /** `String(password || '').trim()`. */
  function CleanPassword(password: string): string
  {
    Trim(password)
  }

  /** Lower-casing never turns a character into whitespace or back. */
  lemma LowerKeepsWhitespace(c: char)
    ensures IsWhitespace(LowerChar(c)) <==> IsWhitespace(c)
  {
  }

  /** The email sent has no surrounding whitespace and no ASCII capital, and
      cleaning it again changes nothing: an address typed with stray spaces
      or capitals is sent the same as its clean form. */
  lemma CleanEmailNormalises(email: string)
    ensures IsTrimmed(CleanEmail(email)) && HasNoUpperAscii(CleanEmail(email))
    ensures CleanEmail(CleanEmail(email)) == CleanEmail(email)
  {
    var t := Trim(email);
    var r := Lower(t);
    LowerNormalises(t);
    if r != "" {
      LowerKeepsWhitespace(t[0]);
      LowerKeepsWhitespace(t[|t| - 1]);
    }
    TrimIdempotent(r);
    LowerNormalises(r);
  }

  /** The password is only trimmed: leading whitespace before a password
      that is itself trimmed is dropped and its letter case is kept. */
  lemma CleanPasswordKeepsCase(whitespace: string, password: string)
    requires AllWhitespace(whitespace) && IsTrimmed(password)
    ensures CleanPassword(whitespace + password) == password
  {
    TrimLeading(whitespace, password);
  }

  /** What `POST /admin/login` gave: a thrown error, or an answer that may
      lack its token. */
  datatype Reply = Threw(responseError: Option<string>, message: Option<string>) | Answered(token: Option<string>)

  /** What `submit` ends with: the token stored and a redirect, or an error shown. */
  datatype Outcome = SignedIn(token: string, target: string) | Error(message: string)

  /** `submit`: an answer with a token signs in and goes to the redirect
      target; an answer without one fails as if the request had thrown
      `Token not returned`; a thrown error shows its message. */
  function Submit(reply: Reply, from: Option<string>): (r: Outcome)
    ensures r.SignedIn? <==> reply.Answered? && Truthy(reply.token)
    ensures r.SignedIn? ==> r.token == reply.token.value && r.target == RedirectTarget(from)
    ensures reply.Answered? && !Truthy(reply.token) ==> r == Error(NoToken)
    ensures reply.Threw? ==> r == Error(ErrorMessage(reply.responseError, reply.message, LoginFailed))
  {
    match reply
    case Threw(responseError, message) => Error(ErrorMessage(responseError, message, LoginFailed))
    case Answered(token) =>
      if Truthy(token) then SignedIn(token.value, RedirectTarget(from))
      else Error(ErrorMessage(None, Some(NoToken), LoginFailed))
  }

  /** A failed login always shows a message, and a successful one never
      leaves the admin without somewhere to go. */
  lemma SubmitNeverSilent(reply: Reply, from: Option<string>)
    ensures Submit(reply, from).Error? ==> Submit(reply, from).message != ""
    ensures Submit(reply, from).SignedIn? ==> Submit(reply, from).target != "" && Submit(reply, from).token != ""
  {
  }
}

/**
 * The regulator sign-in of the Flask application: the e-mail domain
 * allow-list, the login gate and the CSRF-checked logout. The session is a
 * dictionary passed in and returned; the password check and the fresh CSRF
 * token are parameters.
 */
module App {
  import opened Wrappers
  import opened Text

  const AllowedDomains: set<string> := {"nafdac.gov.ng", "regulator.example.org"}

  /**
   * email_allowed(email): the text after the first '@', lower-cased, is an approved domain;
   * an address without '@' raises IndexError, answered with false.
   */
  function EmailAllowed(email: string): (ok: bool)
    ensures ok ==> IndexOf(email, '@') < |email|
  {
    var at := IndexOf(email, '@');
    if at == |email| then false
    else Lower(email[at + 1..]) in AllowedDomains
  }

  /** An address with a local part free of '@' is allowed exactly when its domain, ignoring
      ASCII case, is approved. */
  lemma EmailAllowedIff(local: string, domain: string)
    requires forall k :: 0 <= k < |local| ==> local[k] != '@'
    ensures EmailAllowed(local + "@" + domain) <==> Lower(domain) in AllowedDomains
  {
    var email := local + "@" + domain;
    assert email[|local|] == '@';
    assert IndexOf(email, '@') == |local| by { IndexOfFirst(email, '@', |local|); }
    assert email[|local| + 1..] == domain;
  }

  /** No '@' at all: rejected. */
  lemma NoAtRejected(email: string)
    requires forall k :: 0 <= k < |email| ==> email[k] != '@'
    ensures !EmailAllowed(email)
  {
  }

  /** A second '@' stays in the domain, which then is no approved one. */
  lemma SecondAtRejected(local: string, domain: string)
    requires forall k :: 0 <= k < |local| ==> local[k] != '@'
    requires exists k :: 0 <= k < |domain| && domain[k] == '@'
    ensures !EmailAllowed(local + "@" + domain)
  {
    EmailAllowedIff(local, domain);
    var k :| 0 <= k < |domain| && domain[k] == '@';
    assert Lower(domain)[k] == '@';
    assert forall d :: d in AllowedDomains ==> forall j :: 0 <= j < |d| ==> d[j] != '@';
  }

  /** Upper-casing the address changes nothing: the check ignores ASCII case. */
  lemma EmailAllowedIgnoresCase(email: string)
    ensures EmailAllowed(Lower(email)) == EmailAllowed(email)
  {
    var low := Lower(email);
    var at := IndexOf(email, '@');
    assert forall k :: 0 <= k < |email| ==> (low[k] == '@' <==> email[k] == '@');
    if at < |email| {
      IndexOfFirst(low, '@', at);
      assert Lower(low[at + 1..]) == Lower(email[at + 1..]);
    } else {
      assert forall k :: 0 <= k < |low| ==> low[k] != '@';
    }
  }

  /** A session value: the admin id is an integer, the role and the token are text. */
  datatype SessionValue = IntVal(i: int) | StrVal(s: string)

  type Session = map<string, SessionValue>

  /** A row of admin_users, as get_admin_by_email returns it. */
  datatype AdminUser = AdminUser(id: int, role: string, isVerified: bool, passwordHash: string)

  /** A submitted form: field name to value; a missing field is absent. */
  type Form = map<string, string>

  function Field(form: Form, name: string): string {
    if name in form then form[name] else ""
  }

  datatype LoginPage = LoginForm | LoginError(error: string) | DashboardRedirect

  datatype LoginOutcome = LoginOutcome(page: LoginPage, session: Session)

  const DomainNotAllowed := "Email domain not allowed"
  const InvalidCredentials := "Invalid credentials"

  /** The session a successful login leaves: exactly the id, the role and the token. */
  function SignedIn(user: AdminUser, token: string): Session {
    map["admin_id" := IntVal(user.id), "admin_role" := StrVal(user.role), "csrf" := StrVal(token)]
  }

  /**
   * admin_login(): a GET shows the form. A POST checks the domain of the stripped, lower-cased
   * e-mail first, then that the address names a verified regulator whose password matches;
   * only then is the session replaced. Every refusal leaves the session as it was.
   */
  function AdminLogin(isPost: bool, form: Form, users: map<string, AdminUser>,
                      checkPassword: (string, string) -> bool, freshToken: string, session: Session): (out: LoginOutcome)
    ensures !isPost ==> out == LoginOutcome(LoginForm, session)
    ensures var email := Lower(Strip(Field(form, "email")));
      && (isPost && !EmailAllowed(email) ==> out == LoginOutcome(LoginError(DomainNotAllowed), session))
      && (out.page == DashboardRedirect <==>
            isPost && EmailAllowed(email) && email in users && users[email].isVerified
            && users[email].role == "regulator" && checkPassword(users[email].passwordHash, Field(form, "password")))
      && (out.page == DashboardRedirect ==> out.session == SignedIn(users[email], freshToken))
      && (out.page != DashboardRedirect ==> out.session == session)
      && (isPost && EmailAllowed(email) && out.page != DashboardRedirect ==> out.page == LoginError(InvalidCredentials))
  {
    if !isPost then LoginOutcome(LoginForm, session)
    else
      var email := Lower(Strip(Field(form, "email")));
      var password := Field(form, "password");
      if !EmailAllowed(email) then LoginOutcome(LoginError(DomainNotAllowed), session)
      else if email in users && users[email].isVerified && users[email].role == "regulator"
              && checkPassword(users[email].passwordHash, password)
      then LoginOutcome(DashboardRedirect, SignedIn(users[email], freshToken))
      else LoginOutcome(LoginError(InvalidCredentials), session)
  }

  /** `request.form.get("csrf") != session.get("csrf")` is false: both missing, or equal text. */
  predicate CsrfMatches(form: Form, session: Session) {
    if "csrf" !in form then "csrf" !in session
    else "csrf" in session && session["csrf"] == StrVal(form["csrf"])
  }

  datatype LogoutOutcome = BadRequest | LoginRedirect(session: Session)

  /** admin_logout(): abort(400) on a token mismatch, else an empty session. */
  function AdminLogout(form: Form, session: Session): (out: LogoutOutcome)
    ensures out.BadRequest? <==> !CsrfMatches(form, session)
    ensures out.LoginRedirect? ==> out.session == map[]
  {
    if !CsrfMatches(form, session) then BadRequest else LoginRedirect(map[])
  }

  /**
   * After a successful login, logging out succeeds with the issued token and with no other:
   * a missing or different token is refused.
   */
  lemma LogoutNeedsIssuedToken(isPost: bool, form: Form, users: map<string, AdminUser>,
                               checkPassword: (string, string) -> bool, freshToken: string, session: Session,
                               logoutForm: Form)
    requires AdminLogin(isPost, form, users, checkPassword, freshToken, session).page == DashboardRedirect
    ensures var signedIn := AdminLogin(isPost, form, users, checkPassword, freshToken, session).session;
      AdminLogout(logoutForm, signedIn).LoginRedirect? <==> "csrf" in logoutForm && logoutForm["csrf"] == freshToken
  {
  }

  /** A session that never logged in holds no token, so a form without one passes the check. */
  lemma TokenlessLogoutOfEmptySession(form: Form)
    requires "csrf" !in form
    ensures AdminLogout(form, map[]) == LoginRedirect(map[])
  {
  }
}

/** The login page: form validation, the page each role is sent to, what a
    successful `auth-result` stores, and the guard that protected pages run
    on load. Storage and navigation are values here. */
module Login {
  import opened Strings
  import opened Js

  const LoginPage := "/login.html"

  /** `getRequiredRole(page)` */
  function RequiredRole(page: string): (r: Option<string>)
    ensures r.Some? <==> page == "/front-desk.html" || page == "/race-control.html" || page == "/lap-line-tracker.html"
    ensures r.Some? ==> r.value == "receptionist" || r.value == "safety" || r.value == "observer"
  {
    if page == "/front-desk.html" then Some("receptionist")
    else if page == "/race-control.html" then Some("safety")
    else if page == "/lap-line-tracker.html" then Some("observer")
    else None
  }

  /** Where the page goes next, or the error it shows. */
  datatype Outcome = Navigate(page: string) | Error(message: string)

  /** `redirectToInterface(role)` */
  function Redirect(role: string): (r: Outcome)
    ensures r.Navigate? <==> role == "receptionist" || role == "safety" || role == "observer"
    ensures r.Navigate? ==> RequiredRole(r.page) == Some(role)
    ensures r.Error? ==> r.message == "Invalid role selected"
  {
    if role == "receptionist" then Navigate("/front-desk.html")
    else if role == "safety" then Navigate("/race-control.html")
    else if role == "observer" then Navigate("/lap-line-tracker.html")
    else Error("Invalid role selected")
  }

  /** Each of the three roles is sent to the one page that requires it, every
      protected page is reached by the role it requires, and any other role
      is an error. */
  lemma RedirectRoundTrip(role: string, page: string)
    ensures Redirect(role).Navigate? <==> role == "receptionist" || role == "safety" || role == "observer"
    ensures Redirect(role).Navigate? ==> RequiredRole(Redirect(role).page) == Some(role)
    ensures Redirect(role).Error? ==> Redirect(role) == Error("Invalid role selected")
    ensures RequiredRole(page).Some? ==> Redirect(RequiredRole(page).value) == Navigate(page)
  {
  }

  /** The validation `login()` runs before it connects: the error to show, if any. */
  function Validate(role: string, key: string): (r: Option<string>)
    ensures role == "" ==> r == Some("Please select a role")
    ensures role != "" ==> (r == Some("Please enter access key") <==> IsBlank(key))
    ensures role != "" && !IsBlank(key) ==> r == None
  {
    TrimEmptyIffBlank(key);
    if role == "" then Some("Please select a role")
    else if Trim(key) == "" then Some("Please enter access key")
    else None
  }

  /** What `login()` does: shows an error, or connects and sends `auth`. */
  datatype Attempt = Rejected(message: string) | SendAuth(role: string, key: string)

  function Submit(role: string, key: string): (r: Attempt)
    ensures r.SendAuth? <==> role != "" && !IsBlank(key)
    ensures r.SendAuth? ==> r == SendAuth(role, key)
    ensures r.Rejected? ==> Some(r.message) == Validate(role, key)
  {
    var e := Validate(role, key);
    if e.Some? then Rejected(e.value) else SendAuth(role, key)
  }

  /** The two local-storage entries login writes; `None` stands for unset. */
  datatype Stored = Stored(authenticated: Option<string>, role: Option<string>)

  /** The `auth-result` handler: on success it stores the flag and the role and
      redirects; on failure it stores nothing and shows an error. */
  function OnAuthResult(st: Stored, role: string, success: bool): (r: (Stored, Outcome))
    ensures success ==> r.0 == Stored(Some("true"), Some(role)) && r.1 == Redirect(role)
    ensures !success ==> r.0 == st && r.1 == Error("Invalid access key for this role")
  {
    if success then (Stored(Some("true"), Some(role)), Redirect(role))
    else (st, Error("Invalid access key for this role"))
  }

  /** The page-load guard's verdict. */
  datatype Verdict = Stay | ToLogin(denied: bool)

  /** `!localStorage.getItem(x)`: unset or empty. */
  predicate Unset(v: Option<string>) {
    v.None? || v.value == ""
  }

  /** The `load` handler: a protected page without the stored flag or role goes
      to the login page, as does one whose required role differs from the stored
      one (after the permission alert); every other page stays. */
  function Guard(page: string, st: Stored): (r: Verdict)
    ensures RequiredRole(page).None? ==> r == Stay
    ensures RequiredRole(page).Some? && (Unset(st.authenticated) || Unset(st.role)) ==> r == ToLogin(false)
    ensures RequiredRole(page).Some? && !Unset(st.authenticated) && !Unset(st.role) ==>
      (r == Stay <==> st.role == RequiredRole(page)) && (r != Stay ==> r == ToLogin(true))
  {
    var required := RequiredRole(page);
    if required.None? then Stay
    else if Unset(st.authenticated) || Unset(st.role) then ToLogin(false)
    else if st.role.value != required.value then ToLogin(true)
    else Stay
  }

  /** After a successful login the page redirected to lets the user stay, and
      every other protected page sends them back to the login page. */
  lemma LoginThenGuard(st: Stored, role: string, page: string)
    requires role == "receptionist" || role == "safety" || role == "observer"
    ensures var (stored, outcome) := OnAuthResult(st, role, true);
      outcome.Navigate? && Guard(outcome.page, stored) == Stay
      && (RequiredRole(page).Some? && page != outcome.page ==> Guard(page, stored) == ToLogin(true))
  {
    RedirectRoundTrip(role, page);
  }
}

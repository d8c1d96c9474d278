/** The sign-in page: internal accounts (admins and analysts) sign in with a
    password from a fixed table; any other address signs in publicly as a
    company or as a user. */
module LoginPage {
  import opened Optional
  import opened Roles
  import Routes
  import Store

  datatype Credential = Credential(email: string, password: string)

  const AdminCredentials: seq<Credential> := [
    Credential("admin1@vc.com", "adminpassword1"),
    Credential("admin2@vc.com", "adminpassword2")
  ]

  const AnalystCredentials: seq<Credential> := [
    Credential("analyst1@vc.com", "analystpassword1"),
    Credential("analyst2@vc.com", "analystpassword2"),
    Credential("analyst3@vc.com", "analystpassword3")
  ]

  /** The roles the public sign-in offers; `company` is preselected. */
  type PublicRole = r: Role | r == Company || r == User witness Company

  /** Some entry of the table has the address. */
  predicate KnownEmail(table: seq<Credential>, email: string)
  {
    exists c :: c in table && c.email == email
  }

  const InvalidPassword := "Invalid password for internal account."

  /** What submitting the form leads to: a signed-in user and the page opened
      next, or an error message and no sign-in. */
  datatype Outcome = SignedIn(user: Store.User, target: Routes.Page) | Refused(error: string)

  /** The address a public sign-in uses: the one typed, or
      `<role>@example.com` when the field is empty. */
  function PublicEmail(email: string, publicRole: PublicRole): (r: string)
    ensures email != "" ==> r == email
    ensures email == "" ==> r == Name(publicRole) + "@example.com"
  {
    if email != "" then email else Name(publicRole) + "@example.com"
  }

  /** `handleLogin`, once the simulated delay has passed. */
  function HandleLogin(email: string, password: string, publicRole: PublicRole): Outcome
  {
    if Credential(email, password) in AdminCredentials then
      SignedIn(Store.User(email, Admin), Routes.Analytics)
    else if Credential(email, password) in AnalystCredentials then
      SignedIn(Store.User(email, Analyst), Routes.Analytics)
    else if KnownEmail(AdminCredentials, email) || KnownEmail(AnalystCredentials, email) then
      Refused(InvalidPassword)
    else
      SignedIn(Store.User(PublicEmail(email, publicRole), publicRole),
               if publicRole == Company then Routes.MyProfile else Routes.Companies)
  }

  /** The form's effect on the store: the user of a successful sign-in is
      stored; a refused one stores nothing. */
  method Submit(store: Store.AppStore, email: string, password: string, publicRole: PublicRole)
    returns (outcome: Outcome)
    modifies store`user
    ensures outcome == HandleLogin(email, password, publicRole)
    ensures outcome.SignedIn? ==> store.user == Some(outcome.user)
    ensures outcome.Refused? ==> store.user == old(store.user)
  {
    outcome := HandleLogin(email, password, publicRole);
    if outcome.SignedIn? {
      store.Login(outcome.user.email, outcome.user.role);
    }
  }

  /** An exact admin address and password sign in as admin, to the dashboard. */
  lemma AdminSignsIn(email: string, password: string, publicRole: PublicRole)
    requires Credential(email, password) in AdminCredentials
    ensures HandleLogin(email, password, publicRole) == SignedIn(Store.User(email, Admin), Routes.Analytics)
  {
  }

  /** An exact analyst address and password sign in as analyst, to the dashboard. */
  lemma AnalystSignsIn(email: string, password: string, publicRole: PublicRole)
    requires Credential(email, password) in AnalystCredentials
    ensures HandleLogin(email, password, publicRole) == SignedIn(Store.User(email, Analyst), Routes.Analytics)
  {
    assert Credential(email, password) !in AdminCredentials;
  }

  /** An internal address with a wrong password is refused with the message,
      and nobody signs in. */
  lemma WrongInternalPasswordRefused(email: string, password: string, publicRole: PublicRole)
    requires KnownEmail(AdminCredentials, email) || KnownEmail(AnalystCredentials, email)
    requires Credential(email, password) !in AdminCredentials && Credential(email, password) !in AnalystCredentials
    ensures HandleLogin(email, password, publicRole) == Refused(InvalidPassword)
  {
  }

  /** Any other address signs in publicly with the chosen role: a company
      opens its profile, a user the directory. */
  lemma PublicSignIn(email: string, password: string, publicRole: PublicRole)
    requires !KnownEmail(AdminCredentials, email) && !KnownEmail(AnalystCredentials, email)
    ensures var o := HandleLogin(email, password, publicRole);
      && o.SignedIn?
      && o.user == Store.User(PublicEmail(email, publicRole), publicRole)
      && o.target == (if publicRole == Company then Routes.MyProfile else Routes.Companies)
  {
  }

  /** Admin and analyst are reached only with a matching address and password
      from their table; the public sign-in never grants them. */
  lemma PrivilegedOnlyByPassword(email: string, password: string, publicRole: PublicRole)
    ensures var o := HandleLogin(email, password, publicRole);
      && (o.SignedIn? && o.user.role == Admin ==> Credential(email, password) in AdminCredentials)
      && (o.SignedIn? && o.user.role == Analyst ==> Credential(email, password) in AnalystCredentials)
  {
  }

  /** The page opened after signing in is one the new user may see. */
  lemma TargetIsOpen(email: string, password: string, publicRole: PublicRole)
    ensures var o := HandleLogin(email, password, publicRole);
      o.SignedIn? ==> Routes.Visit(Some(o.user), o.target) == Routes.Render
  {
    var o := HandleLogin(email, password, publicRole);
    if o.SignedIn? {
      Routes.VisitFollowsTable(o.user, o.target);
    }
  }
}

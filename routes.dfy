/** The application's routes and their guards: which signed-in roles may see
    each page, where a visitor is sent otherwise, and where the index sends
    each role. */
module Routes {
  import opened Optional
  import opened Roles
  import Store

  datatype Page =
    | Login | Index | Analytics | Companies | CompanyDetail(id: string)
    | Lists | Saved | Spreadsheet | MyProfile

  function Path(page: Page): string
  {
    match page
    case Login => "/login"
    case Index => "/"
    case Analytics => "/analytics"
    case Companies => "/companies"
    case CompanyDetail(id) => "/companies/" + id
    case Lists => "/lists"
    case Saved => "/saved"
    case Spreadsheet => "/spreadsheet"
    case MyProfile => "/my-profile"
  }

  /** The `allowedRoles` each page below "/" passes to its guard. */
  function AllowedRoles(page: Page): seq<Role>
  {
    match page
    case Analytics => [Admin, Analyst, Company, User]
    case Companies => [Admin, Analyst, Company, User]
    case CompanyDetail(_) => [Admin, Analyst, Company, User]
    case Lists => [Admin]
    case Saved => [Admin]
    case Spreadsheet => [Admin]
    case MyProfile => [Company, User]
    case _ => []
  }

  /** What a guard does: show the page, or navigate elsewhere. */
  datatype Decision = Render | Redirect(to: Page)

  /** The page a role is sent to when it may not see the one it asked for. */
  function Fallback(role: Role): Page
  {
    match role
    case Company => MyProfile
    case User => Companies
    case _ => Analytics
  }

  /** `ProtectedRoute`: without a user, to the login page; with a role that is
      not allowed, to the role's fallback page; otherwise the page itself. */
  function ProtectedRoute(user: Option<Store.User>, allowedRoles: Option<seq<Role>>): (r: Decision)
    ensures user.None? ==> r == Redirect(Login)
    ensures r.Render? <==> user.Some? && (allowedRoles.None? || user.value.role in allowedRoles.value)
    ensures r.Redirect? && user.Some? ==> r.to == Fallback(user.value.role)
  {
    if user.None? then Redirect(Login)
    else if allowedRoles.Some? && user.value.role !in allowedRoles.value then Redirect(Fallback(user.value.role))
    else Render
  }

  /** `IndexRedirect`: company to the profile, user to the directory, anyone
      else, including nobody, to the dashboard. */
  function IndexRedirect(user: Option<Store.User>): (r: Page)
    ensures user.Some? ==> r == Fallback(user.value.role)
    ensures user.None? ==> r == Analytics
  {
    if user.Some? && user.value.role == Company then MyProfile
    else if user.Some? && user.value.role == User then Companies
    else Analytics
  }

  /** Opening a page: the login page is open to all; every other page sits
      under "/", whose guard demands a user, and then passes its own guard;
      the index redirects. */
  function Visit(user: Option<Store.User>, page: Page): Decision
  {
    if page == Login then Render
    else
      match ProtectedRoute(user, None)
      case Redirect(to) => Redirect(to)
      case Render =>
        if page == Index then Redirect(IndexRedirect(user))
        else ProtectedRoute(user, Some(AllowedRoles(page)))
  }

  /** The access table: only admin reaches the lists, saved searches and the
      master database; only company and user reach the profile; every role
      reaches the dashboard, the directory and a company's page. */
  predicate MayOpen(role: Role, page: Page)
  {
    match page
    case Analytics => true
    case Companies => true
    case CompanyDetail(_) => true
    case Lists => role == Admin
    case Saved => role == Admin
    case Spreadsheet => role == Admin
    case MyProfile => role == Company || role == User
    case _ => false
  }

  /** A signed-in user sees a page below "/" exactly when the table allows it,
      and is otherwise sent to the role's fallback page. */
  lemma VisitFollowsTable(u: Store.User, page: Page)
    requires page != Login && page != Index
    ensures Visit(Some(u), page) == if MayOpen(u.role, page) then Render else Redirect(Fallback(u.role))
  {
  }

  /** Without a user every page except the login page sends to the login page. */
  lemma SignedOutGoesToLogin(page: Page)
    requires page != Login
    ensures Visit(None, page) == Redirect(Login)
  {
  }

  /** One redirect is enough: the fallback page of a role, and the page the
      index sends a signed-in user to, are shown to that user. */
  lemma FallbackIsOpen(u: Store.User)
    ensures MayOpen(u.role, Fallback(u.role))
    ensures Visit(Some(u), Fallback(u.role)) == Render
    ensures Visit(Some(u), Index) == Redirect(Fallback(u.role))
  {
    VisitFollowsTable(u, Fallback(u.role));
  }
}

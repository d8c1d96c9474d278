/** The sidebar of the layout: the navigation entries shown for the signed-in
    role, and sign-out. */
module Navigation {
  import opened Optional
  import opened Seqs
  import opened Roles
  import Routes
  import Store

  datatype NavItem = NavItem(to: Routes.Page, caption: string, roles: seq<Role>)

  const AnalyticsEntry := NavItem(Routes.Analytics, "Analytics Dashboard", [Admin, Analyst, Company, User])
  const CompaniesEntry := NavItem(Routes.Companies, "Companies", [Admin, Analyst, Company, User])
  const ListsEntry := NavItem(Routes.Lists, "Lists", [Admin])
  const SavedEntry := NavItem(Routes.Saved, "Saved Searches", [Admin])
  const DatabaseEntry := NavItem(Routes.Spreadsheet, "Master Database", [Admin])
  const ProfileEntry := NavItem(Routes.MyProfile, "My Profile", [Company, User])

  /** The entries in their declared order. */
  const AllItems: seq<NavItem> :=
    [AnalyticsEntry, CompaniesEntry, ListsEntry, SavedEntry, DatabaseEntry, ProfileEntry]

  /** The role the sidebar filters by: the user's, or `user` when nobody is
      signed in. */
  function RoleOf(user: Option<Store.User>): Role
  {
    if user.Some? then user.value.role else User
  }

  function ShownFor(role: Role): NavItem -> bool
  {
    (item: NavItem) => role in item.roles
  }

  /** `navItems`. */
  function NavItems(user: Option<Store.User>): seq<NavItem>
  {
    Filter(AllItems, ShownFor(RoleOf(user)))
  }

  /** The sidebar keeps the declared order of the entries it shows. */
  lemma NavItemsKeepOrder(user: Option<Store.User>)
    ensures IsSubsequence(NavItems(user), AllItems)
  {
    FilterIsSubsequence(AllItems, ShownFor(RoleOf(user)));
  }

  function Labels(items: seq<NavItem>): (r: seq<string>)
    ensures |r| == |items| && forall i :: 0 <= i < |items| ==> r[i] == items[i].caption
  {
    seq(|items|, i requires 0 <= i < |items| => items[i].caption)
  }

  /** An entry is shown exactly when its roles include the user's role. */
  lemma NavItemsExactly(user: Option<Store.User>, item: NavItem)
    ensures item in NavItems(user) <==> item in AllItems && RoleOf(user) in item.roles
  {
    FilterMembers(AllItems, ShownFor(RoleOf(user)), item);
  }

  /** Filtering the entries one at a time. */
  lemma ItemsFor(role: Role)
    ensures var f := ShownFor(role);
      Filter(AllItems, f)
      == (if f(AnalyticsEntry) then [AnalyticsEntry] else []) + ((if f(CompaniesEntry) then [CompaniesEntry] else [])
       + ((if f(ListsEntry) then [ListsEntry] else []) + Filter([SavedEntry, DatabaseEntry, ProfileEntry], f)))
  {
    var f := ShownFor(role);
    var t3 := [SavedEntry, DatabaseEntry, ProfileEntry];
    var t2 := [ListsEntry] + t3;
    var t1 := [CompaniesEntry] + t2;
    var t0 := [AnalyticsEntry] + t1;
    assert t0 == AllItems;
    FilterCons(t2, f);
    assert t2[1..] == t3;
    FilterCons(t1, f);
    assert t1[1..] == t2;
    FilterCons(t0, f);
    assert t0[1..] == t1;
  }

  /** Filtering the last three entries one at a time. */
  lemma LastItems(f: NavItem -> bool)
    ensures Filter([SavedEntry, DatabaseEntry, ProfileEntry], f)
      == (if f(SavedEntry) then [SavedEntry] else []) + (if f(DatabaseEntry) then [DatabaseEntry] else [])
       + (if f(ProfileEntry) then [ProfileEntry] else [])
  {
    var t2 := [ProfileEntry];
    var t1 := [DatabaseEntry] + t2;
    var t0 := [SavedEntry] + t1;
    assert t0 == [SavedEntry, DatabaseEntry, ProfileEntry];
    FilterCons(t2, f);
    assert t2[1..] == [];
    FilterCons(t1, f);
    assert t1[1..] == t2;
    FilterCons(t0, f);
    assert t0[1..] == t1;
  }

  /** What each role sees, in order. */
  lemma NavItemsPerRole(user: Option<Store.User>)
    ensures RoleOf(user) == Admin ==>
      Labels(NavItems(user)) == ["Analytics Dashboard", "Companies", "Lists", "Saved Searches", "Master Database"]
    ensures RoleOf(user) == Analyst ==>
      Labels(NavItems(user)) == ["Analytics Dashboard", "Companies"]
    ensures RoleOf(user) == Company || RoleOf(user) == User ==>
      Labels(NavItems(user)) == ["Analytics Dashboard", "Companies", "My Profile"]
  {
    var role := RoleOf(user);
    ItemsOf(role);
    if role == Admin {
      assert NavItems(user) == [AnalyticsEntry, CompaniesEntry, ListsEntry, SavedEntry, DatabaseEntry];
    } else if role == Analyst {
      assert NavItems(user) == [AnalyticsEntry, CompaniesEntry];
    } else {
      assert NavItems(user) == [AnalyticsEntry, CompaniesEntry, ProfileEntry];
    }
  }

  /** The entries each role sees. */
  lemma ItemsOf(role: Role)
    ensures role == Admin ==>
      Filter(AllItems, ShownFor(role)) == [AnalyticsEntry, CompaniesEntry, ListsEntry, SavedEntry, DatabaseEntry]
    ensures role == Analyst ==> Filter(AllItems, ShownFor(role)) == [AnalyticsEntry, CompaniesEntry]
    ensures role == Company || role == User ==>
      Filter(AllItems, ShownFor(role)) == [AnalyticsEntry, CompaniesEntry, ProfileEntry]
  {
    ItemsFor(role);
    LastItems(ShownFor(role));
  }

  /** Every entry the sidebar shows leads to a page its user may open. */
  lemma NavItemsLeadToOpenPages(u: Store.User, item: NavItem)
    requires item in NavItems(Some(u))
    ensures Routes.MayOpen(u.role, item.to)
    ensures Routes.Visit(Some(u), item.to) == Routes.Render
  {
    NavItemsExactly(Some(u), item);
    Routes.VisitFollowsTable(u, item.to);
  }

  /** "Logout": the user is signed out and sent to the login page. */
  method HandleLogout(store: Store.AppStore) returns (to: Routes.Page)
    modifies store`user
    ensures store.user == None && to == Routes.Login
    ensures Routes.Visit(store.user, Routes.Analytics) == Routes.Redirect(Routes.Login)
  {
    store.Logout();
    to := Routes.Login;
  }
}

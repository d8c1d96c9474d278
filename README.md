# VC Intelligence Platform — a verified model of its core

The VC Intelligence Platform is a single-page application for venture
investors. Its parts:

- **Company directory.** A case-insensitive search over names and
  descriptions, exact industry, stage and location facets, a column sort,
  pagination and shareable URL filters.
- **Lists.** Investors collect companies into lists and export them as CSV.
- **Saved searches.** Filter sets that can be saved and run again.
- **Analytics dashboard.** Per-industry and per-stage histograms.
- **Master database.** A spreadsheet with an all-columns search.
- **Server endpoint.** It scrapes a company's website into plain text.
- **Access control.** Access is role-based: admin, analyst, company and user.
  It covers a sign-in page, route guards and a role-filtered sidebar.

This project models that core in Dafny and proves what each piece promises.

| module (file) | models |
|---|---|
| `Store` (store.dfy) | the application store: the signed-in user, the lists, the saved searches and the notes, as a class whose methods replace one field each |
| `Directory` (directory.dfy) | the directory page: filtering, the stable column sort, pagination, the filters ↔ query-parameter mapping, and the page's state as a class |
| `SavedSearchesPage` (saved_searches.dfy) | running a saved search and the "No filters applied" label |
| `ListsPage` (lists.dfy) | list creation from a typed name and the CSV export |
| `Analytics` (analytics.dfy) | the summary figures and the counting loop with its sorted histogram |
| `Spreadsheet` (spreadsheet.dfy) | the all-columns search and the row-count footer |
| `Scrape` (scrape.dfy) | the `/api/scrape` handler and its whitespace normalisation |
| `LoginPage` (login.dfy) | the sign-in decision table and its effect on the store |
| `Routes` (routes.dfy) | `ProtectedRoute`, `IndexRedirect` and the route table |
| `Navigation` (navigation.dfy) | the role-filtered sidebar and sign-out |
| `Catalogue` (catalogue.dfy) | the company record and the lookup by id |
| `Roles` (roles.dfy) | the four roles |

Support modules model the JavaScript runtime behaviour the program relies
on, stated once and proved once:

- `Text`:
  - the `\s`/`trim` whitespace class;
  - `trim`, `toLowerCase` (ASCII), `includes`, `join` and `split`;
  - decimal rendering of numbers.
- `StableSort`:
  - `Array.prototype.sort`, which is stable;
  - a comparator that orders strings by code point and numbers numerically;
  - both a specification function and an in-place insertion sort on an array.
- `UrlParams`: `URLSearchParams.set`/`get` as the WHATWG URL Standard defines them.
- `Seqs`: filtering, sub-sequences, `Array.from(new Set(...))`.
- `Optional`: the option type.

Each imperative piece of the program is modelled as imperative Dafny and
proved against a specification function:

- the in-place sort of the filtered companies;
- the counting loop of the dashboard;
- the successive `set` calls that build query parameters;
- the scrape handler's reassigned `textContent`;
- the store's setters.

The specification functions carry the lemmas: round trips, permutations,
stability, bounds and the access table.

Where the store's declared role type disagrees with the rest of the program,
the code's behaviour is followed. `UserRole` lists only `admin` and
`analyst`, but the sign-in page, the guards and the sidebar also store and
test `company` and `user`, so `Roles.Role` has all four values.

## Model

| member | source | states |
|---|---|---|
| Store.AppStore.constructor | src/hooks/useAppStore.ts:28-31 | the store starts signed out, with no lists, no saved searches and no notes |
| Store.AppStore.Login | src/hooks/useAppStore.ts:33 | the user becomes exactly the given email and role |
| Store.AppStore.Logout | src/hooks/useAppStore.ts:34 | the user becomes absent |
| Store.AppStore.AddList | src/hooks/useAppStore.ts:36-44 | exactly one list, with the name, the given id and time and no companies, is appended after the unchanged old lists; lists free of duplicate company ids stay so |
| Store.AppStore.DeleteList | src/hooks/useAppStore.ts:46-48 | the lists become those without the id; freedom from duplicate company ids is kept |
| Store.DeleteListRemovesOnlyThatId | src/hooks/useAppStore.ts:46-48 | after deletion a list is present iff it was present and has another id; the rest keep their order and multiplicity |
| Store.DeleteUndoesAddList | src/hooks/useAppStore.ts:36-48 | deleting a list just added under a fresh id gives the old lists back |
| Store.DeleteListKeepsNoDuplicates | src/hooks/useAppStore.ts:46-48 | deleting keeps every list free of duplicate company ids |
| Store.AppStore.AddCompanyToList | src/hooks/useAppStore.ts:50-57 | the lists become the mapped lists; freedom from duplicate company ids is kept |
| Store.AddCompanyEffect | src/hooks/useAppStore.ts:50-57 | lists with another id are unchanged; the named list keeps id, name and time, is unchanged when it already holds the company and otherwise gets the company appended after its old ids |
| Store.AddCompanyKeepsNoDuplicates | src/hooks/useAppStore.ts:52-53 | adding never introduces a duplicate company id |
| Store.AddCompanyIdempotent | src/hooks/useAppStore.ts:51-56 | adding the same company to the same list twice equals adding it once |
| Store.AppStore.RemoveCompanyFromList | src/hooks/useAppStore.ts:59-66 | the lists become the mapped lists; freedom from duplicate company ids is kept |
| Store.RemoveCompanyEffect | src/hooks/useAppStore.ts:59-66 | other lists are unchanged; the named list keeps id, name and time, and its ids become an order-preserving sub-sequence holding every old id other than the company exactly as often as before, and the company not at all |
| Store.RemoveUndoesAddCompany | src/hooks/useAppStore.ts:50-66 | removing a company just added to lists that lacked it gives the old lists back |
| Store.RemoveCompanyKeepsNoDuplicates | src/hooks/useAppStore.ts:59-66 | removing keeps every list free of duplicate company ids |
| Store.AppStore.SaveSearch | src/hooks/useAppStore.ts:68-75 | exactly one search carrying the name, query, industry, stage and location is appended after the unchanged old searches |
| Store.AppStore.DeleteSearch | src/hooks/useAppStore.ts:77-79 | the searches become those without the id |
| Store.DeleteSearchRemovesOnlyThatId | src/hooks/useAppStore.ts:77-79 | a search remains iff it was there and has another id, in the old order and as often as before |
| Store.DeleteUndoesSaveSearch | src/hooks/useAppStore.ts:68-79 | deleting a search just saved under a fresh id gives the old searches back |
| Store.AppStore.UpdateNote | src/hooks/useAppStore.ts:81-83 | the note of the company is set, every other note keeps its value, and the keys are the old keys plus the company |
| Catalogue.Find | src/pages/Lists.tsx:28 | `find` by id returns the FIRST company of the catalogue with that id, and nothing exactly when no company has it |
| Catalogue.FindById | src/pages/Lists.tsx:28 | with unique ids, looking up a company's id finds that company |
| Directory.FacetOptions | src/pages/Companies.tsx:33-35 | a facet's options are exactly the values the catalogue has for it, each once |
| Directory.FilteredCompanies | src/pages/Companies.tsx:37-59 | filtering then sorting the fresh array in place yields the listing specification |
| Directory.ListingKeepsExactlyMatches | src/pages/Companies.tsx:37-44 | a company is listed iff its name or description contains the query ignoring case and every set facet equals its value, as often as it is in the catalogue |
| Directory.EverythingMatchesNoFilters | src/pages/Companies.tsx:39-42 | an empty query and unset facets match every company |
| Directory.UnfilteredListingIsCatalogue | src/pages/Companies.tsx:37-58 | with no query, facet or sort, the whole catalogue is listed in order |
| Directory.UnsortedListingKeepsOrder | src/pages/Companies.tsx:38-46 | without a sort the listing is an order-preserving sub-sequence of the catalogue |
| Directory.SortedListing | src/pages/Companies.tsx:46-56 | with a sort the listing is a permutation of the matches, ascending or descending by the column, and companies with equal values keep their order |
| Directory.NextSort | src/pages/Companies.tsx:64-70 | a header click sorts by that column, descending iff it was already sorted ascending by it |
| Directory.SortTogglesBack | src/pages/Companies.tsx:64-70 | two clicks on the sorted column restore the sort |
| Directory.PageSlice | src/pages/Companies.tsx:61 | a page holds at most ten entries, exactly those at positions (page-1)·10 to page·10-1 that exist |
| Directory.TotalPages | src/pages/Companies.tsx:62 | the page count is the ceiling of n/10 |
| Directory.EntryIsOnItsPage | src/pages/Companies.tsx:61-62 | every entry appears on the page its position gives, and that page is within the page count |
| Directory.PageBeyondLastIsEmpty | src/pages/Companies.tsx:61-62 | a page number past the last page, which a narrowing filter can leave in place, shows nothing |
| Directory.PagingStaysInRange | src/pages/Companies.tsx:197-206 | Previous and Next keep a page in 1..totalPages |
| Directory.ShowingCountsThePage | src/pages/Companies.tsx:191 | on an existing page the "Showing" range counts exactly the entries shown |
| Directory.FilterParams | src/pages/Companies.tsx:26-29 | only set filters become parameters: no parameter has an empty value |
| Directory.FilterParamsOrder | src/pages/Companies.tsx:25-29 | the parameters are named q, industry, stage and location, in that order, each at most once |
| Directory.FilterParamsRoundTrip | src/pages/Companies.tsx:15-31 | reading the parameters back with '' as default gives the filters |
| Directory.SyncedParams | src/pages/Companies.tsx:24-31 | the successive `set` calls on a fresh parameter list produce the filter parameters |
| Directory.DiscoveryView.constructor | src/pages/Companies.tsx:15-21 | the page starts with the filters read from the URL, no sort and page 1 |
| Directory.DiscoveryView.SetQuery | src/pages/Companies.tsx:98 | typing changes the query and nothing else |
| Directory.DiscoveryView.SetIndustry | src/pages/Companies.tsx:106 | choosing an industry changes only that filter |
| Directory.DiscoveryView.SetStage | src/pages/Companies.tsx:114 | choosing a stage changes only that filter |
| Directory.DiscoveryView.SetLocation | src/pages/Companies.tsx:122 | choosing a location changes only that filter |
| Directory.DiscoveryView.HandleSort | src/pages/Companies.tsx:64-70 | the sort becomes the next sort of the clicked column |
| Directory.DiscoveryView.Previous | src/pages/Companies.tsx:197 | the page becomes max(1, page-1) and stays at least 1 |
| Directory.DiscoveryView.Next | src/pages/Companies.tsx:206 | the page becomes min(totalPages, page+1) and stays at least 1 |
| Directory.DiscoveryView.SearchParams | src/pages/Companies.tsx:24-31 | the URL parameters written are the filter parameters of the current filters |
| Directory.DiscoveryView.SaveCurrentSearch | src/pages/Companies.tsx:72-77 | a non-empty name saves the current filters under it; a dismissed or empty prompt saves nothing |
| UrlParams.GetAfterSet | src/pages/Companies.tsx:24-31 | `get` after `set` of a name reads the value set |
| UrlParams.GetOtherAfterSet | src/pages/Companies.tsx:24-31 | `set` of one name leaves `get` of another unchanged |
| UrlParams.SetAppendsNewName | src/pages/SavedSearches.tsx:12-16 | `set` of a name not yet present appends the pair |
| SavedSearchesPage.RunSearch | src/pages/SavedSearches.tsx:11-19 | running a search navigates to /companies with exactly the search's set criteria as parameters |
| SavedSearchesPage.NoFiltersMeansNoParams | src/pages/SavedSearches.tsx:66 | "No filters applied" is shown iff running the search adds no parameters |
| SavedSearchesPage.RunSearchRestoresFilters | src/pages/SavedSearches.tsx:11-19 | running a saved search reopens the directory with the filters that were saved |
| ListsPage.CreateListName | src/pages/Lists.tsx:16-22 | a name exists iff the input is not all whitespace, and then it is the trimmed input, without whitespace at either end |
| ListsPage.HandleCreateList | src/pages/Lists.tsx:16-22 | a non-blank input appends one list with the trimmed name and clears the input; a blank one changes nothing |
| ListsPage.FindList | src/pages/Lists.tsx:25-26 | the list found is the FIRST list with the id, and none is found exactly when no list has it |
| ListsPage.Resolve | src/pages/Lists.tsx:28 | resolved companies come from the catalogue, one per known id at most |
| ListsPage.ResolveKnownIds | src/pages/Lists.tsx:28 | when every id is known, each resolves in list order to its company |
| ListsPage.ResolveDropsUnknown | src/pages/Lists.tsx:28 | an id no company has is dropped silently |
| ListsPage.ExportCsv | src/pages/Lists.tsx:24-26 | exporting an unknown list id produces nothing; a known one produces the CSV text of the first such list's resolved companies |
| ListsPage.RowRoundTrip | src/pages/Lists.tsx:42 | a row reads back to the five values when the unquoted fields hold no comma; only the location is quoted |
| ListsPage.CsvLines | src/pages/Lists.tsx:39-43 | with no line break in any field, the text has the header line and one line per company: one line more than companies |
| ListsPage.CsvRoundTrip | src/pages/Lists.tsx:39-43 | the exported text reads back to the header and then each company's values, in list order |
| ListsPage.CsvHasNoTrailingNewline | src/pages/Lists.tsx:40-43 | the text never ends with a line break |
| Text.SplitJoin | src/pages/Lists.tsx:40-43 | splitting text joined from separator-free parts gives the parts back |
| Text.Trim | src/pages/Lists.tsx:18 | `trim` returns the piece of the input between leading and trailing whitespace, with no whitespace at its ends |
| Analytics.Totals | src/pages/Analytics.tsx:16-18 | the three figures are the catalogue size and the numbers of lists and saved searches |
| Analytics.Count | src/pages/Analytics.tsx:22-25 | the counting loop yields the insertion-ordered tally |
| Analytics.TallyNames | src/pages/Analytics.tsx:22-26 | the tally's keys are the distinct values in order of first appearance |
| Analytics.TallyCounts | src/pages/Analytics.tsx:22-25 | the tally records for each value its number of occurrences |
| Analytics.TallyTotal | src/pages/Analytics.tsx:22-25 | the counts add up to the number of companies |
| Analytics.ChartData | src/pages/Analytics.tsx:21-40 | industry and stage data are the counted entries sorted by count |
| Analytics.DistributionNames | src/pages/Analytics.tsx:21-29 | each value of the facet appears as exactly one bar, and no other bar appears |
| Analytics.DistributionValues | src/pages/Analytics.tsx:22-27 | each bar's count equals the value's number of occurrences, at least 1 |
| Analytics.DistributionTotal | src/pages/Analytics.tsx:32-40 | the bar counts add up to the number of companies |
| Analytics.DistributionOrder | src/pages/Analytics.tsx:26-28 | bars are ordered by count, non-increasing, and bars with equal counts keep first-appearance order |
| Spreadsheet.FilteredRowsKeepOrder | src/pages/Spreadsheet.tsx:21-25 | the shown rows are an order-preserving sub-sequence of the sheet |
| Spreadsheet.FilteredRowsExactly | src/pages/Spreadsheet.tsx:21-25 | a row is shown iff some cell's string form contains the term ignoring case |
| Spreadsheet.EmptyTermKeepsAll | src/pages/Spreadsheet.tsx:21-25 | an empty search shows every row |
| Spreadsheet.SearchIgnoresCase | src/pages/Spreadsheet.tsx:23 | a term and its lower-case form show the same rows |
| Spreadsheet.FooterCountsShownRows | src/pages/Spreadsheet.tsx:143 | the footer's number reads back to the number of rows shown |
| Scrape.HandleScrape | server.ts:13-45 | falsy url → 400 "URL is required"; thrown fetch → the network-error text; non-ok status → the status text with the decimal status; ok → the normalised body; always 200 then; 500 only when reading `url` from `req.body` throws |
| Scrape.Collapse | server.ts:32 | collapsing keeps a text's first character class, leaves only plain spaces and never two whitespace characters in a row |
| Scrape.CollapseRun | server.ts:32 | every whitespace run, between two visible characters or at either end, becomes exactly one space, with the text on each side collapsed on its own |
| Scrape.CollapseKeepsWord | server.ts:32 | text without whitespace is left unchanged, so with Scrape.CollapseRun the result is fixed for every input |
| Scrape.NormalizeShape | server.ts:32 | the text is at most 15000 characters, has no leading whitespace, no two whitespace characters in a row, and only plain spaces |
| Scrape.NormalizeCut | server.ts:32 | a normalised text of at most 15000 characters is kept whole, a longer one is cut to its first 15000 |
| Scrape.CollapseKeepsVisible | server.ts:32 | collapsing whitespace keeps every other character in order |
| Scrape.NormalizeKeepsVisible | server.ts:32 | an uncut text keeps all non-whitespace characters of the page, in order |
| Scrape.StatusMessageNamesStatus | server.ts:34 | the status in the message reads back to the response's status |
| LoginPage.PublicEmail | src/pages/Login.tsx:62 | an empty address becomes `<role>@example.com`, any other is kept |
| LoginPage.Submit | src/pages/Login.tsx:29-69 | a successful sign-in stores its user; a refused one leaves the user unchanged |
| LoginPage.AdminSignsIn | src/pages/Login.tsx:38-45 | an exact admin address and password sign in as admin, to the dashboard |
| LoginPage.AnalystSignsIn | src/pages/Login.tsx:39-51 | an exact analyst address and password sign in as analyst, to the dashboard |
| LoginPage.WrongInternalPasswordRefused | src/pages/Login.tsx:53-59 | an internal address with a wrong password is refused with 'Invalid password for internal account.' |
| LoginPage.PublicSignIn | src/pages/Login.tsx:62-67 | any other address signs in with the chosen public role; a company opens its profile, a user the directory |
| LoginPage.PrivilegedOnlyByPassword | src/pages/Login.tsx:41-62 | admin and analyst are granted only for a matching address and password |
| LoginPage.TargetIsOpen | src/pages/Login.tsx:41-67 | the page opened after sign-in is one the new user may see |
| Routes.ProtectedRoute | src/App.tsx:14-25 | no user → /login; the page renders iff a user exists and the roles are absent or include the user's; otherwise company → profile, user → directory, others → dashboard |
| Routes.IndexRedirect | src/App.tsx:27-32 | company → profile, user → directory, anyone else including nobody → dashboard |
| Routes.VisitFollowsTable | src/App.tsx:39-96 | a signed-in user sees a page iff the access table allows the role, and is sent to the role's fallback otherwise |
| Routes.SignedOutGoesToLogin | src/App.tsx:16-18 | without a user every page but the login page redirects to it |
| Routes.FallbackIsOpen | src/App.tsx:19-32 | the fallback and index targets of a role are pages that role may see, so one redirect suffices |
| Navigation.NavItemsKeepOrder | src/components/layout/Layout.tsx:12-19 | the sidebar keeps the declared order of its entries |
| Navigation.NavItemsExactly | src/components/layout/Layout.tsx:19 | an entry is shown iff its roles include the user's role, `user` when nobody is signed in |
| Navigation.NavItemsPerRole | src/components/layout/Layout.tsx:13-18 | admin sees everything but My Profile; analyst sees the dashboard and Companies; company and user see those and My Profile |
| Navigation.NavItemsLeadToOpenPages | src/components/layout/Layout.tsx:13-18 | every entry shown leads to a page the user may open |
| Navigation.HandleLogout | src/components/layout/Layout.tsx:21-24 | signing out clears the user and opens the login page, which every guarded page then redirects to |
| StableSort.SortInPlace | src/pages/Companies.tsx:47 | the in-place insertion sort leaves the array equal to the stable sort of its old contents |
| StableSort.SortPermutes | src/pages/Companies.tsx:47-55 | sorting rearranges: the multiset of elements is unchanged |
| StableSort.SortOrders | src/pages/Companies.tsx:47-55 | sorted elements are in comparator order |
| StableSort.SortIsStable | src/pages/Analytics.tsx:28 | elements with equal keys keep their relative order |
| StableSort.AfterConsistent | src/pages/Companies.tsx:47-55 | the comparator is irreflexive and asymmetric, and "not after" is transitive |

## Left out

- Fetching and HTML parsing. The outbound `fetch`, cheerio's removal of script, style and similar elements, and `$("body").text()` are not modelled. The outcome of the inner `try` (thrown, or status and body text) is an input of `Scrape.HandleScrape`; `Thrown` stands for `fetch`, `response.text()` or the parsing throwing. A truthy non-string `url` reaches `fetch` through its string form, and that too is covered by the outcome input; `Scrape.JsonValue` has no array or object case, so such `url` values are not represented themselves.
- Scrape.HandleScrape: the 500 path is modelled only for a request without a body, the exception `const { url } = req.body` raises. The exception's message is an input. Logging to the console is not modelled.
- Express and Vite start-up and the static file serving are not modelled.
- No enrichment endpoint exists in server.ts. The client's call to `/api/enrich` in CompanyDetail.tsx has no server side to model.
- localStorage persistence behind the store is not part of this model. The store is one object shared by all pages, whereas each mounted component holds its own copy of the persisted state.
- Generated ids and timestamps. `Math.random` ids and `Date.now` times are parameters of `Store.AppStore.AddList` and `Store.AppStore.SaveSearch`.
- The JSON export and the download anchor are not modelled: `JSON.stringify`, `encodeURIComponent` and the DOM work.
- URL serialisation is not modelled: `URLSearchParams.toString` and percent-encoding. Query parameters are an ordered list of name/value pairs.
- Text.Lower: lower-cases ASCII letters only, whereas `toLowerCase` also maps non-ASCII letters.
- StableSort.LexLess: compares strings by code point, whereas JavaScript's `<` compares UTF-16 code units. The two differ only for characters outside the Basic Multilingual Plane.
- Scrape.Normalize: the 15000-character cut counts code points, whereas `substring` counts UTF-16 code units.
- Directory.SortField: only the four columns with clickable headers (name, industry, stage, location) are sort keys, though the source's type admits any company field.
- Analytics.Tally: keeps first-insertion order. `Object.entries` lists integer-like keys first, and no industry or stage is such a key.
- Analytics.Tally: counts every string exactly, whereas the source counts into a plain `{}` with `counts[k] || 0`. A value named like an `Object.prototype` member breaks that: `"constructor"` or `"toString"` starts from the inherited function and yields a string, and `"__proto__"` is dropped. The same holds for Analytics.TallyNames, Analytics.TallyCounts, Analytics.DistributionNames and Analytics.DistributionValues. No industry or stage of the catalogue has such a name.
- Spreadsheet.SheetRow: ids are natural numbers rendered in decimal. The sheet's constant rows and the add-row and import buttons are not modelled.
- The 800 ms sign-in delay, loading flags, error display state, charts, icons, styling, the company detail page and the profile page are presentation only and are not modelled.
- The catalogue's concrete companies (src/lib/data.ts) are not part of this model; only their record shape is. Every operation takes the catalogue as a parameter.

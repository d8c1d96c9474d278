/** The company directory ("Discovery") page: a case-insensitive text search
    with exact-match facet filters, a column sort that toggles between
    ascending and descending, pagination at ten entries per page, and the
    mapping between the filters and the URL's query parameters. */
module Directory {
  import opened Optional
  import opened Seqs
  import opened Text
  import opened UrlParams
  import StableSort
  import Store
  import opened Catalogue

  /** The search box and the three facet selectors; "" means "all". */
  datatype Filters = Filters(query: string, industry: string, stage: string, location: string)

  const NoFilters := Filters("", "", "", "")

  // ---------------------------------------------------------------------
  // filtering

  /** The test `filteredCompanies` applies: the query occurs in the name or
      the description, ignoring case, and each facet that is set equals the
      company's value exactly. */
  predicate Matches(c: Company, f: Filters)
  {
    && (Contains(Lower(c.name), Lower(f.query)) || Contains(Lower(c.description), Lower(f.query)))
    && (f.industry == "" || c.industry == f.industry)
    && (f.stage == "" || c.stage == f.stage)
    && (f.location == "" || c.location == f.location)
  }

  function MatchesFilters(f: Filters): Company -> bool
  {
    c => Matches(c, f)
  }

  /** The options of a facet selector: each value the catalogue has for the
      facet, once, in order of first appearance. */
  function FacetOptions(companies: seq<Company>, facet: Company -> string): (r: seq<string>)
    ensures NoDuplicates(r)
    ensures forall v :: v in r <==> exists c :: c in companies && facet(c) == v
  {
    var values := seq(|companies|, i requires 0 <= i < |companies| => facet(companies[i]));
    assert forall v :: v in values <==> exists c :: c in companies && facet(c) == v by {
      forall v | v in values ensures exists c :: c in companies && facet(c) == v {
        var i :| 0 <= i < |values| && values[i] == v;
        assert companies[i] in companies;
      }
      forall v | exists c :: c in companies && facet(c) == v ensures v in values {
        var c :| c in companies && facet(c) == v;
        var i :| 0 <= i < |companies| && companies[i] == c;
        assert values[i] == v;
      }
    }
    Distinct(values)
  }

  // ---------------------------------------------------------------------
  // sorting

  /** The columns whose headers sort the table. */
  datatype SortField = Name | Industry | Stage | Location

  datatype SortConfig = SortConfig(key: SortField, direction: StableSort.Direction)

  function Field(c: Company, field: SortField): string
  {
    match field
    case Name => c.name
    case Industry => c.industry
    case Stage => c.stage
    case Location => c.location
  }

  function SortKey(field: SortField): Company -> StableSort.Key
  {
    c => StableSort.Text(Field(c, field))
  }

  /** The companies the table lists: the matching ones, in catalogue order
      or, with a sort configured, stably sorted by the configured column. */
  function Listing(companies: seq<Company>, f: Filters, sortConfig: Option<SortConfig>): seq<Company>
  {
    var filtered := Filter(companies, MatchesFilters(f));
    match sortConfig
    case None => filtered
    case Some(cfg) => StableSort.Sort(filtered, SortKey(cfg.key), cfg.direction)
  }

  /** `filteredCompanies`: filter, then sort the fresh array in place when a
      sort is configured. */
  method FilteredCompanies(companies: seq<Company>, f: Filters, sortConfig: Option<SortConfig>)
    returns (r: seq<Company>)
    ensures r == Listing(companies, f, sortConfig)
  {
    r := Filter(companies, MatchesFilters(f));
    if sortConfig.Some? {
      r := StableSort.SortedCopy(r, SortKey(sortConfig.value.key), sortConfig.value.direction);
    }
  }

  /** A company is listed exactly when it matches, and as often as it occurs
      in the catalogue. */
  lemma ListingKeepsExactlyMatches(companies: seq<Company>, f: Filters, sortConfig: Option<SortConfig>, c: Company)
    ensures c in Listing(companies, f, sortConfig) <==> c in companies && Matches(c, f)
    ensures multiset(Listing(companies, f, sortConfig))[c] == if Matches(c, f) then multiset(companies)[c] else 0
  {
    var filtered := Filter(companies, MatchesFilters(f));
    FilterMembers(companies, MatchesFilters(f), c);
    FilterCount(companies, MatchesFilters(f), c);
    if sortConfig.Some? {
      StableSort.SortPermutes(filtered, SortKey(sortConfig.value.key), sortConfig.value.direction);
    }
    assert c in Listing(companies, f, sortConfig) <==> c in multiset(Listing(companies, f, sortConfig));
    assert c in filtered <==> c in multiset(filtered);
  }

  /** Every company matches the empty query and unset facets. */
  lemma EverythingMatchesNoFilters(c: Company)
    ensures Matches(c, NoFilters)
  {
    ContainsEmpty(Lower(c.name));
  }

  /** With no query, no facet and no sort, the whole catalogue is listed in
      its order. */
  lemma UnfilteredListingIsCatalogue(companies: seq<Company>)
    ensures Listing(companies, NoFilters, None) == companies
  {
    forall c | c in companies ensures MatchesFilters(NoFilters)(c) {
      EverythingMatchesNoFilters(c);
    }
    FilterKeepsAll(companies, MatchesFilters(NoFilters));
  }

  /** Without a sort, the listing keeps the catalogue's order. */
  lemma UnsortedListingKeepsOrder(companies: seq<Company>, f: Filters)
    ensures IsSubsequence(Listing(companies, f, None), companies)
  {
    FilterIsSubsequence(companies, MatchesFilters(f));
  }

  /** With a sort, the listing is the matching companies rearranged: ascending
      or descending by the column, and companies with equal values keep their
      catalogue order. */
  lemma SortedListing(companies: seq<Company>, f: Filters, cfg: SortConfig, v: string)
    ensures var (r, filtered) := (Listing(companies, f, Some(cfg)), Filter(companies, MatchesFilters(f)));
      && multiset(r) == multiset(filtered)
      && (cfg.direction == StableSort.Asc ==>
            forall i, j :: 0 <= i < j < |r| ==> !StableSort.LexLess(Field(r[j], cfg.key), Field(r[i], cfg.key)))
      && (cfg.direction == StableSort.Desc ==>
            forall i, j :: 0 <= i < j < |r| ==> !StableSort.LexLess(Field(r[i], cfg.key), Field(r[j], cfg.key)))
      && StableSort.WithKey(r, SortKey(cfg.key), StableSort.Text(v))
         == StableSort.WithKey(filtered, SortKey(cfg.key), StableSort.Text(v))
  {
    var filtered := Filter(companies, MatchesFilters(f));
    StableSort.SortPermutes(filtered, SortKey(cfg.key), cfg.direction);
    StableSort.SortOrders(filtered, SortKey(cfg.key), cfg.direction);
    StableSort.SortIsStable(filtered, SortKey(cfg.key), cfg.direction, StableSort.Text(v));
  }

  /** `handleSort`: a click sorts descending only when that column is already
      sorted ascending; every other click sorts ascending by the column. */
  function NextSort(current: Option<SortConfig>, key: SortField): (r: SortConfig)
    ensures r.key == key
    ensures r.direction == StableSort.Desc <==> current == Some(SortConfig(key, StableSort.Asc))
  {
    if current.Some? && current.value.key == key && current.value.direction == StableSort.Asc
    then SortConfig(key, StableSort.Desc)
    else SortConfig(key, StableSort.Asc)
  }

  /** Two clicks on the column that is already sorted return to the same sort. */
  lemma SortTogglesBack(cfg: SortConfig)
    ensures NextSort(Some(NextSort(Some(cfg), cfg.key)), cfg.key) == cfg
  {
  }

  // ---------------------------------------------------------------------
  // pagination

  const ItemsPerPage: nat := 10

  function Min(a: int, b: int): int { if a <= b then a else b }

  function Max(a: int, b: int): int { if a >= b then a else b }

  /** `slice((page - 1) * 10, page * 10)`, which clamps both ends to the
      length: at most ten entries, exactly those at positions
      `(page - 1) * 10` to `page * 10 - 1` that exist. */
  function PageSlice<T>(s: seq<T>, page: int): (r: seq<T>)
    requires page >= 1
    ensures |r| <= ItemsPerPage
    ensures |r| == Max(0, Min(page * ItemsPerPage, |s|) - (page - 1) * ItemsPerPage)
    ensures forall k :: 0 <= k < |r| ==> r[k] == s[(page - 1) * ItemsPerPage + k]
  {
    var start := Min((page - 1) * ItemsPerPage, |s|);
    var end := Min(page * ItemsPerPage, |s|);
    s[start..end]
  }

  /** `Math.ceil(n / 10)`. */
  function TotalPages(n: nat): (r: nat)
    ensures (r - 1) * ItemsPerPage < n <= r * ItemsPerPage
  {
    (n + ItemsPerPage - 1) / ItemsPerPage
  }

  /** Every entry is shown on exactly the page its position gives, and that
      page is one of the `TotalPages` pages. */
  lemma EntryIsOnItsPage<T>(s: seq<T>, i: nat)
    requires i < |s|
    ensures 1 <= i / ItemsPerPage + 1 <= TotalPages(|s|)
    ensures PageSlice(s, i / ItemsPerPage + 1)[i % ItemsPerPage] == s[i]
  {
    var page := i / ItemsPerPage + 1;
    assert (page - 1) * ItemsPerPage + i % ItemsPerPage == i;
  }

  /** A page beyond the last shows nothing. */
  lemma PageBeyondLastIsEmpty<T>(s: seq<T>, page: int)
    requires page > TotalPages(|s|)
    ensures PageSlice(s, page) == []
  {
    assert (page - 1) * ItemsPerPage >= TotalPages(|s|) * ItemsPerPage;
  }

  /** Previous: `Math.max(1, p - 1)`. */
  function PreviousPage(page: int): int
  {
    Max(1, page - 1)
  }

  /** Next: `Math.min(totalPages, p + 1)`. */
  function NextPage(page: int, totalPages: int): int
  {
    Min(totalPages, page + 1)
  }

  /** Previous and Next keep a page between 1 and the page count there. */
  lemma PagingStaysInRange(page: int, totalPages: int)
    requires 1 <= page <= totalPages
    ensures 1 <= PreviousPage(page) <= totalPages
    ensures 1 <= NextPage(page, totalPages) <= totalPages
  {
  }

  /** The "Showing" line: the first and the last position shown, counting from 1. */
  function ShowingFrom(page: int): int { (page - 1) * ItemsPerPage + 1 }

  function ShowingTo(page: int, n: nat): int { Min(page * ItemsPerPage, n) }

  /** On an existing page the "Showing" line counts exactly the entries shown. */
  lemma ShowingCountsThePage<T>(s: seq<T>, page: int)
    requires 1 <= page <= TotalPages(|s|)
    ensures ShowingFrom(page) <= ShowingTo(page, |s|)
    ensures ShowingTo(page, |s|) - ShowingFrom(page) + 1 == |PageSlice(s, page)|
  {
  }

  // ---------------------------------------------------------------------
  // filters and query parameters

  /** The parameter one filter contributes: none when the filter is empty. */
  function ParamFor(name: string, value: string): (r: seq<Param>)
    ensures forall p :: p in r ==> p.name == name && p.value == value != ""
  {
    if value != "" then [Param(name, value)] else []
  }

  /** The names the filters are written under, in the order they are written. */
  const FilterNames: seq<string> := ["q", "industry", "stage", "location"]

  /** The query string the filters are written to. */
  function FilterParams(f: Filters): (r: seq<Param>)
    ensures forall p :: p in r ==> p.value != ""
  {
    ParamFor("q", f.query)
    + (ParamFor("industry", f.industry) + (ParamFor("stage", f.stage) + ParamFor("location", f.location)))
  }

  /** Only set filters become parameters, each at most once and in the order
      q, industry, stage, location. */
  lemma FilterParamsOrder(f: Filters)
    ensures IsSubsequence(Names(FilterParams(f)), FilterNames)
  {
    var l := ParamFor("location", f.location);
    var st := ParamFor("stage", f.stage) + l;
    var i := ParamFor("industry", f.industry) + st;
    assert Names([]) == [];
    ParamForPrepends("location", f.location, [], []);
    ParamForPrepends("stage", f.stage, l, ["location"]);
    ParamForPrepends("industry", f.industry, st, ["stage", "location"]);
    ParamForPrepends("q", f.query, i, ["industry", "stage", "location"]);
  }

  /** Putting a filter's parameter in front keeps the names in order. */
  lemma ParamForPrepends(name: string, value: string, rest: seq<Param>, names: seq<string>)
    requires IsSubsequence(Names(rest), names)
    ensures IsSubsequence(Names(ParamFor(name, value) + rest), [name] + names)
  {
    var r := ParamFor(name, value) + rest;
    assert ([name] + names)[1..] == names;
    if value != "" {
      assert Names(r)[0] == name;
      assert Names(r)[1..] == Names(rest);
    } else {
      assert r == rest;
    }
  }

  /** The filters read from a query string, `get(name) || ''` for each. */
  function FiltersFromParams(ps: seq<Param>): Filters
  {
    Filters(GetOrEmpty(ps, "q"), GetOrEmpty(ps, "industry"), GetOrEmpty(ps, "stage"), GetOrEmpty(ps, "location"))
  }

  /** Reading the query string back recovers the filters exactly. */
  lemma FilterParamsRoundTrip(f: Filters)
    ensures FiltersFromParams(FilterParams(f)) == f
  {
    var q := ParamFor("q", f.query);
    var i := ParamFor("industry", f.industry);
    var st := ParamFor("stage", f.stage);
    var l := ParamFor("location", f.location);
    var ps := FilterParams(f);
    assert ps == [] + q + (i + (st + l));
    ReadsBack([], "q", f.query, i + (st + l));
    assert ps == q + i + (st + l);
    ReadsBack(q, "industry", f.industry, st + l);
    assert ps == (q + i) + st + l;
    ReadsBack(q + i, "stage", f.stage, l);
    assert ps == (q + i + st) + l + [];
    ReadsBack(q + i + st, "location", f.location, []);
  }

  /** `get(name) || ''` finds the value of the one parameter with the name. */
  lemma ReadsBack(before: seq<Param>, name: string, value: string, after: seq<Param>)
    requires forall p :: p in before ==> p.name != name
    requires forall p :: p in after ==> p.name != name
    ensures GetOrEmpty(before + ParamFor(name, value) + after, name) == value
  {
    var own := ParamFor(name, value);
    GetConcat(before + own, after, name);
    GetConcat(before, own, name);
    GetMissing(before, name);
    GetMissing(after, name);
  }

  /** The effect that writes the filters to the URL: a fresh parameter list
      and one `set` per filter that is set. */
  method SyncedParams(f: Filters) returns (ps: seq<Param>)
    ensures ps == FilterParams(f)
  {
    FilterNamesDiffer();
    ps := [];
    SetsOneMore(ps, "q", f.query);
    if f.query != "" {
      ps := Set(ps, "q", f.query);
    }
    SetsOneMore(ps, "industry", f.industry);
    if f.industry != "" {
      ps := Set(ps, "industry", f.industry);
    }
    SetsOneMore(ps, "stage", f.stage);
    if f.stage != "" {
      ps := Set(ps, "stage", f.stage);
    }
    SetsOneMore(ps, "location", f.location);
    if f.location != "" {
      ps := Set(ps, "location", f.location);
    }
    Regroup(ParamFor("q", f.query), ParamFor("industry", f.industry), ParamFor("stage", f.stage), ParamFor("location", f.location));
  }

  /** The four parameter names differ from each other. */
  lemma FilterNamesDiffer()
    ensures "q" != "industry" && "q" != "stage" && "q" != "location"
    ensures "industry" != "stage" && "industry" != "location" && "stage" != "location"
  {
    assert "location"[0] != "industry"[0];
  }

  /** Parameters appended one by one are the parameters joined from the right. */
  lemma Regroup(a: seq<Param>, b: seq<Param>, c: seq<Param>, d: seq<Param>)
    ensures [] + a + b + c + d == a + (b + (c + d))
  {
    assert [] + a == a;
    assert a + b + c == a + (b + c);
    assert a + b + c + d == a + (b + c) + d;
  }

  /** One step of the effect: a filter that is set is appended under a name
      no earlier parameter has. */
  lemma SetsOneMore(ps: seq<Param>, name: string, value: string)
    requires forall p :: p in ps ==> p.name != name
    ensures (if value != "" then Set(ps, name, value) else ps) == ps + ParamFor(name, value)
  {
    if value != "" {
      forall i | 0 <= i < |ps| ensures Names(ps)[i] != name {
        assert ps[i] in ps;
      }
      SetAppendsNewName(ps, name, value);
    }
  }

  // ---------------------------------------------------------------------
  // the page's state

  class DiscoveryView {
    const companies: seq<Company>
    var filters: Filters
    var sortConfig: Option<SortConfig>
    var page: int

    /** The page number starts at 1 and Previous never goes below it. */
    ghost predicate Valid()
      reads this
    {
      page >= 1
    }

    /** The first render: filters from the URL, no sort, page 1. */
    constructor (companies: seq<Company>, params: seq<Param>)
      ensures this.companies == companies
      ensures filters == FiltersFromParams(params) && sortConfig == None && page == 1
      ensures Valid()
    {
      this.companies := companies;
      filters := FiltersFromParams(params);
      sortConfig := None;
      page := 1;
    }

    function Shown(): seq<Company>
      reads this
    {
      Listing(companies, filters, sortConfig)
    }

    function PageCount(): nat
      reads this
    {
      TotalPages(|Shown()|)
    }

    /** The rows of the table. */
    function Visible(): seq<Company>
      reads this
      requires Valid()
    {
      PageSlice(Shown(), page)
    }

    /** Typing in the search box; the page number is left as it is. */
    method SetQuery(q: string)
      modifies this`filters
      ensures filters == old(filters).(query := q)
    {
      filters := filters.(query := q);
    }

    method SetIndustry(industry: string)
      modifies this`filters
      ensures filters == old(filters).(industry := industry)
    {
      filters := filters.(industry := industry);
    }

    method SetStage(stage: string)
      modifies this`filters
      ensures filters == old(filters).(stage := stage)
    {
      filters := filters.(stage := stage);
    }

    method SetLocation(location: string)
      modifies this`filters
      ensures filters == old(filters).(location := location)
    {
      filters := filters.(location := location);
    }

    /** A click on a column header. */
    method HandleSort(key: SortField)
      modifies this`sortConfig
      ensures sortConfig == Some(NextSort(old(sortConfig), key))
    {
      var direction := StableSort.Asc;
      if sortConfig.Some? && sortConfig.value.key == key && sortConfig.value.direction == StableSort.Asc {
        direction := StableSort.Desc;
      }
      sortConfig := Some(SortConfig(key, direction));
    }

    method Previous()
      requires Valid()
      modifies this`page
      ensures page == PreviousPage(old(page)) && Valid()
    {
      page := Max(1, page - 1);
    }

    /** Next; the pager and its buttons exist only with more than one page. */
    method Next()
      requires Valid() && PageCount() > 1
      modifies this`page
      ensures page == NextPage(old(page), PageCount()) && Valid()
    {
      page := Min(PageCount(), page + 1);
    }

    /** The parameters the page writes to the URL. */
    method SearchParams() returns (ps: seq<Param>)
      ensures ps == FilterParams(filters)
    {
      ps := SyncedParams(filters);
    }

    /** "Save Search": the name comes from a prompt, which gives `None` when
        dismissed; nothing is saved without a non-empty name. */
    method SaveCurrentSearch(store: Store.AppStore, name: Option<string>, id: string, createdAt: int)
      modifies store`savedSearches
      ensures name.Some? && name.value != "" ==>
        store.savedSearches == old(store.savedSearches)
          + [Store.SavedSearch(id, name.value, filters.query, filters.industry, filters.stage, filters.location, createdAt)]
      ensures !(name.Some? && name.value != "") ==> store.savedSearches == old(store.savedSearches)
    {
      if name.Some? && name.value != "" {
        store.SaveSearch(name.value, filters.query, filters.industry, filters.stage, filters.location, id, createdAt);
      }
    }
  }
}

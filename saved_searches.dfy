/** The Saved Searches page: each saved search is shown with its criteria
    and can be run, which opens the directory with the search's filters in
    the URL. */
module SavedSearchesPage {
  import opened UrlParams
  import Store
  import Directory

  /** The filters a saved search stores. */
  function Criteria(search: Store.SavedSearch): Directory.Filters
  {
    Directory.Filters(search.query, search.industry, search.stage, search.location)
  }

  /** A navigation target: a path and its query parameters. */
  datatype Location = Location(path: string, params: seq<Param>)

  /** "Run Search": a fresh parameter list, one `set` per criterion that is
      set, and navigation to the directory. */
  method RunSearch(search: Store.SavedSearch) returns (target: Location)
    ensures target.path == "/companies"
    ensures target.params == Directory.FilterParams(Criteria(search))
  {
    var params := Directory.SyncedParams(Criteria(search));
    target := Location("/companies", params);
  }

  /** The card says "No filters applied" when none of the four criteria is set. */
  predicate NoFiltersApplied(search: Store.SavedSearch)
  {
    search.query == "" && search.industry == "" && search.stage == "" && search.location == ""
  }

  /** "No filters applied" is shown exactly when running the search opens the
      directory without query parameters. */
  lemma NoFiltersMeansNoParams(search: Store.SavedSearch)
    ensures NoFiltersApplied(search) <==> Directory.FilterParams(Criteria(search)) == []
  {
    if !NoFiltersApplied(search) {
      assert |Directory.FilterParams(Criteria(search))| > 0;
    }
  }

  /** Saving the directory's filters and running the search later opens the
      directory with the same filters. */
  lemma RunSearchRestoresFilters(f: Directory.Filters, id: string, name: string, createdAt: int)
    ensures var search := Store.SavedSearch(id, name, f.query, f.industry, f.stage, f.location, createdAt);
      Directory.FiltersFromParams(Directory.FilterParams(Criteria(search))) == f
  {
    Directory.FilterParamsRoundTrip(f);
  }
}

/** The client-side application store: the signed-in user, the curated company
    lists, the saved searches and the per-company notes. Every operation builds
    a new value from the current one (with map, filter and spread) and replaces
    one of the four fields with it. Identifiers and timestamps, which the
    program draws from `Math.random` and `Date.now`, are parameters. */
module Store {
  import opened Optional
  import opened Seqs
  import Roles

  datatype User = User(email: string, role: Roles.Role)

  datatype CompanyList = CompanyList(id: string, name: string, companyIds: seq<string>, createdAt: int)

  datatype SavedSearch = SavedSearch(
    id: string, name: string,
    query: string, industry: string, stage: string, location: string,
    createdAt: int)

  // ---------------------------------------------------------------------
  // the new values

  function NewList(id: string, name: string, createdAt: int): CompanyList
  {
    CompanyList(id, name, [], createdAt)
  }

  function IdIsNot(id: string): CompanyList -> bool
  {
    (l: CompanyList) => l.id != id
  }

  /** `lists.filter(l => l.id !== id)` */
  function WithoutList(lists: seq<CompanyList>, id: string): seq<CompanyList>
  {
    Filter(lists, IdIsNot(id))
  }

  /** One list after `addCompanyToList`: the id is appended when the list is
      the one named and does not hold it yet. */
  function ListWithCompany(l: CompanyList, listId: string, companyId: string): CompanyList
  {
    if l.id == listId && companyId !in l.companyIds then l.(companyIds := l.companyIds + [companyId]) else l
  }

  function WithCompany(lists: seq<CompanyList>, listId: string, companyId: string): seq<CompanyList>
  {
    seq(|lists|, i requires 0 <= i < |lists| => ListWithCompany(lists[i], listId, companyId))
  }

  function IsNot(companyId: string): string -> bool
  {
    c => c != companyId
  }

  /** One list after `removeCompanyFromList`. */
  function ListWithoutCompany(l: CompanyList, listId: string, companyId: string): CompanyList
  {
    if l.id == listId then l.(companyIds := Filter(l.companyIds, IsNot(companyId))) else l
  }

  function WithoutCompany(lists: seq<CompanyList>, listId: string, companyId: string): seq<CompanyList>
  {
    seq(|lists|, i requires 0 <= i < |lists| => ListWithoutCompany(lists[i], listId, companyId))
  }

  function SearchIdIsNot(id: string): SavedSearch -> bool
  {
    (s: SavedSearch) => s.id != id
  }

  /** `savedSearches.filter(s => s.id !== id)` */
  function WithoutSearch(searches: seq<SavedSearch>, id: string): seq<SavedSearch>
  {
    Filter(searches, SearchIdIsNot(id))
  }

  /** No list holds a company twice. */
  predicate ListsWithoutDuplicates(lists: seq<CompanyList>)
  {
    forall l :: l in lists ==> NoDuplicates(l.companyIds)
  }

  // ---------------------------------------------------------------------
  // what the operations promise

  /** `deleteList` drops every list with the id and nothing else: the others
      stay, in their order, each as often as before. */
  lemma DeleteListRemovesOnlyThatId(lists: seq<CompanyList>, id: string)
    ensures IsSubsequence(WithoutList(lists, id), lists)
    ensures forall l :: l in WithoutList(lists, id) <==> l in lists && l.id != id
    ensures forall l: CompanyList :: l.id != id ==> multiset(WithoutList(lists, id))[l] == multiset(lists)[l]
  {
    FilterIsSubsequence(lists, IdIsNot(id));
    forall l ensures l in WithoutList(lists, id) <==> l in lists && l.id != id {
      FilterMembers(lists, IdIsNot(id), l);
    }
    forall l: CompanyList | l.id != id ensures multiset(WithoutList(lists, id))[l] == multiset(lists)[l] {
      FilterCount(lists, IdIsNot(id), l);
    }
  }

  /** Deleting a list just added under a fresh id restores the lists. */
  lemma DeleteUndoesAddList(lists: seq<CompanyList>, id: string, name: string, createdAt: int)
    requires forall l :: l in lists ==> l.id != id
    ensures WithoutList(lists + [NewList(id, name, createdAt)], id) == lists
  {
    FilterAppend(lists, NewList(id, name, createdAt), IdIsNot(id));
    FilterKeepsAll(lists, IdIsNot(id));
  }

  /** `addCompanyToList` changes only the named lists, and there only the ids:
      a list that already holds the company stays as it was, and one that does
      not gets the company appended after its old ids. */
  lemma AddCompanyEffect(lists: seq<CompanyList>, listId: string, companyId: string)
    ensures |WithCompany(lists, listId, companyId)| == |lists|
    ensures forall i :: 0 <= i < |lists| ==>
      var (before, after) := (lists[i], WithCompany(lists, listId, companyId)[i]);
      && after.id == before.id && after.name == before.name && after.createdAt == before.createdAt
      && (before.id != listId ==> after == before)
      && (before.id == listId ==>
            && companyId in after.companyIds
            && (companyId in before.companyIds ==> after.companyIds == before.companyIds)
            && (companyId !in before.companyIds ==> after.companyIds == before.companyIds + [companyId]))
  {
  }

  /** `addCompanyToList` never introduces a duplicate id. */
  lemma AddCompanyKeepsNoDuplicates(lists: seq<CompanyList>, listId: string, companyId: string)
    requires ListsWithoutDuplicates(lists)
    ensures ListsWithoutDuplicates(WithCompany(lists, listId, companyId))
  {
    var r := WithCompany(lists, listId, companyId);
    forall l | l in r ensures NoDuplicates(l.companyIds) {
      var i :| 0 <= i < |r| && r[i] == l;
      assert lists[i] in lists;
    }
  }

  /** Adding the same company to the same list twice is adding it once. */
  lemma AddCompanyIdempotent(lists: seq<CompanyList>, listId: string, companyId: string)
    ensures WithCompany(WithCompany(lists, listId, companyId), listId, companyId)
         == WithCompany(lists, listId, companyId)
  {
    var once := WithCompany(lists, listId, companyId);
    var twice := WithCompany(once, listId, companyId);
    forall i | 0 <= i < |lists| ensures twice[i] == once[i] {
      if once[i].id == listId {
        assert companyId in once[i].companyIds;
      }
    }
  }

  /** `removeCompanyFromList` removes every occurrence of the company from the
      named lists, keeps their other ids in order and as often as before, keeps
      their id, name and creation time, and leaves every other list as it was. */
  lemma RemoveCompanyEffect(lists: seq<CompanyList>, listId: string, companyId: string)
    ensures |WithoutCompany(lists, listId, companyId)| == |lists|
    ensures forall i :: 0 <= i < |lists| ==>
      var (before, after) := (lists[i], WithoutCompany(lists, listId, companyId)[i]);
      && after.id == before.id && after.name == before.name && after.createdAt == before.createdAt
      && (before.id != listId ==> after == before)
      && (before.id == listId ==>
            && IsSubsequence(after.companyIds, before.companyIds)
            && (forall c :: c in after.companyIds <==> c in before.companyIds && c != companyId)
            && forall c :: c != companyId ==> multiset(after.companyIds)[c] == multiset(before.companyIds)[c])
  {
    forall i | 0 <= i < |lists| && lists[i].id == listId
      ensures IsSubsequence(WithoutCompany(lists, listId, companyId)[i].companyIds, lists[i].companyIds)
    {
      FilterIsSubsequence(lists[i].companyIds, IsNot(companyId));
    }
    forall i, c | 0 <= i < |lists| && lists[i].id == listId
      ensures c in WithoutCompany(lists, listId, companyId)[i].companyIds <==> c in lists[i].companyIds && c != companyId
    {
      FilterMembers(lists[i].companyIds, IsNot(companyId), c);
    }
    forall i, c | 0 <= i < |lists| && lists[i].id == listId && c != companyId
      ensures multiset(WithoutCompany(lists, listId, companyId)[i].companyIds)[c] == multiset(lists[i].companyIds)[c]
    {
      FilterCount(lists[i].companyIds, IsNot(companyId), c);
    }
  }

  /** Removing a company just added to a list that did not hold it restores
      the lists. */
  lemma RemoveUndoesAddCompany(lists: seq<CompanyList>, listId: string, companyId: string)
    requires forall l :: l in lists && l.id == listId ==> companyId !in l.companyIds
    ensures WithoutCompany(WithCompany(lists, listId, companyId), listId, companyId) == lists
  {
    var added := WithCompany(lists, listId, companyId);
    var r := WithoutCompany(added, listId, companyId);
    forall i | 0 <= i < |lists| ensures r[i] == lists[i] {
      if lists[i].id == listId {
        assert lists[i] in lists;
        var ids := lists[i].companyIds;
        FilterAppend(ids, companyId, IsNot(companyId));
        FilterKeepsAll(ids, IsNot(companyId));
      }
    }
  }

  /** `removeCompanyFromList` never introduces a duplicate id. */
  lemma RemoveCompanyKeepsNoDuplicates(lists: seq<CompanyList>, listId: string, companyId: string)
    requires ListsWithoutDuplicates(lists)
    ensures ListsWithoutDuplicates(WithoutCompany(lists, listId, companyId))
  {
    var r := WithoutCompany(lists, listId, companyId);
    forall l | l in r ensures NoDuplicates(l.companyIds) {
      var i :| 0 <= i < |r| && r[i] == l;
      assert lists[i] in lists;
      FilterNoDuplicates(lists[i].companyIds, IsNot(companyId));
    }
  }

  /** `deleteList` keeps the lists free of duplicate ids. */
  lemma DeleteListKeepsNoDuplicates(lists: seq<CompanyList>, id: string)
    requires ListsWithoutDuplicates(lists)
    ensures ListsWithoutDuplicates(WithoutList(lists, id))
  {
    forall l | l in WithoutList(lists, id) ensures NoDuplicates(l.companyIds) {
      FilterMembers(lists, IdIsNot(id), l);
    }
  }

  /** `deleteSearch` drops exactly the searches with the id, keeping the rest
      in order, each as often as before. */
  lemma DeleteSearchRemovesOnlyThatId(searches: seq<SavedSearch>, id: string)
    ensures IsSubsequence(WithoutSearch(searches, id), searches)
    ensures forall s :: s in WithoutSearch(searches, id) <==> s in searches && s.id != id
    ensures forall s: SavedSearch :: s.id != id ==> multiset(WithoutSearch(searches, id))[s] == multiset(searches)[s]
  {
    FilterIsSubsequence(searches, SearchIdIsNot(id));
    forall s ensures s in WithoutSearch(searches, id) <==> s in searches && s.id != id {
      FilterMembers(searches, SearchIdIsNot(id), s);
    }
    forall s: SavedSearch | s.id != id ensures multiset(WithoutSearch(searches, id))[s] == multiset(searches)[s] {
      FilterCount(searches, SearchIdIsNot(id), s);
    }
  }

  /** Deleting a search just saved under a fresh id restores the searches. */
  lemma DeleteUndoesSaveSearch(searches: seq<SavedSearch>, s: SavedSearch)
    requires forall t :: t in searches ==> t.id != s.id
    ensures WithoutSearch(searches + [s], s.id) == searches
  {
    FilterAppend(searches, s, SearchIdIsNot(s.id));
    FilterKeepsAll(searches, SearchIdIsNot(s.id));
  }

  // ---------------------------------------------------------------------
  // the store

  class AppStore {
    var user: Option<User>
    var lists: seq<CompanyList>
    var savedSearches: seq<SavedSearch>
    var notes: map<string, string>

    /** The store's own operations never put a company twice into a list. */
    ghost predicate Valid()
      reads this
    {
      ListsWithoutDuplicates(lists)
    }

    /** The initial values: nobody signed in, no lists, no searches, no notes. */
    constructor ()
      ensures user == None && lists == [] && savedSearches == [] && notes == map[]
      ensures Valid()
    {
      user := None;
      lists := [];
      savedSearches := [];
      notes := map[];
    }

    method Login(email: string, role: Roles.Role)
      modifies this`user
      ensures user == Some(User(email, role))
    {
      user := Some(User(email, role));
    }

    method Logout()
      modifies this`user
      ensures user == None
    {
      user := None;
    }

    method AddList(name: string, id: string, createdAt: int)
      modifies this`lists
      ensures lists == old(lists) + [NewList(id, name, createdAt)]
      ensures old(Valid()) ==> Valid()
    {
      lists := lists + [NewList(id, name, createdAt)];
    }

    method DeleteList(id: string)
      modifies this`lists
      ensures lists == WithoutList(old(lists), id)
      ensures old(Valid()) ==> Valid()
    {
      if Valid() {
        DeleteListKeepsNoDuplicates(lists, id);
      }
      lists := WithoutList(lists, id);
    }

    method AddCompanyToList(listId: string, companyId: string)
      modifies this`lists
      ensures lists == WithCompany(old(lists), listId, companyId)
      ensures old(Valid()) ==> Valid()
    {
      if Valid() {
        AddCompanyKeepsNoDuplicates(lists, listId, companyId);
      }
      lists := WithCompany(lists, listId, companyId);
    }

    method RemoveCompanyFromList(listId: string, companyId: string)
      modifies this`lists
      ensures lists == WithoutCompany(old(lists), listId, companyId)
      ensures old(Valid()) ==> Valid()
    {
      if Valid() {
        RemoveCompanyKeepsNoDuplicates(lists, listId, companyId);
      }
      lists := WithoutCompany(lists, listId, companyId);
    }

    method SaveSearch(name: string, query: string, industry: string, stage: string, location: string,
                      id: string, createdAt: int)
      modifies this`savedSearches
      ensures savedSearches == old(savedSearches) + [SavedSearch(id, name, query, industry, stage, location, createdAt)]
    {
      savedSearches := savedSearches + [SavedSearch(id, name, query, industry, stage, location, createdAt)];
    }

    method DeleteSearch(id: string)
      modifies this`savedSearches
      ensures savedSearches == WithoutSearch(old(savedSearches), id)
    {
      savedSearches := WithoutSearch(savedSearches, id);
    }

    /** `{ ...notes, [companyId]: note }`: the note is set, every other key
        keeps its value and no key is lost. */
    method UpdateNote(companyId: string, note: string)
      modifies this`notes
      ensures companyId in notes && notes[companyId] == note
      ensures notes.Keys == old(notes).Keys + {companyId}
      ensures forall k :: k in old(notes) && k != companyId ==> notes[k] == old(notes)[k]
    {
      notes := notes[companyId := note];
    }
  }
}

/** The company records the pages work on, and the lookup by id. */
module Catalogue {
  import opened Optional

  /** A company record of the catalogue. */
  datatype Company = Company(
    id: string, name: string, url: string,
    industry: string, stage: string, location: string,
    description: string, founded: int)

  /** `companies.find(c => c.id === id)`: the first company with the id. */
  function Find(companies: seq<Company>, id: string): (r: Option<Company>)
    ensures r.Some? ==> r.value in companies && r.value.id == id
    ensures r.None? <==> forall c :: c in companies ==> c.id != id
    ensures r.Some? ==>
      exists k :: 0 <= k < |companies| && companies[k] == r.value && (forall j :: 0 <= j < k ==> companies[j].id != id)
    decreases |companies|
  {
    if |companies| == 0 then None
    else if companies[0].id == id then Some(companies[0])
    else Find(companies[1..], id)
  }

  predicate UniqueIds(companies: seq<Company>)
  {
    forall i, j :: 0 <= i < j < |companies| ==> companies[i].id != companies[j].id
  }

  /** When ids are unique, the lookup by a company's id finds that company. */
  lemma {:induction false} FindById(companies: seq<Company>, c: Company)
    requires UniqueIds(companies) && c in companies
    ensures Find(companies, c.id) == Some(c)
    decreases |companies|
  {
    if companies[0] != c {
      assert c in companies[1..];
      var k :| 0 <= k < |companies[1..]| && companies[1..][k] == c;
      assert companies[0].id != companies[k + 1].id;
      FindById(companies[1..], c);
    }
  }
}

/** The Lists page: creating a list from the name typed in, and exporting a
    list's companies as CSV text. */
module ListsPage {
  import opened Optional
  import opened Text
  import opened Catalogue
  import Store

  // ---------------------------------------------------------------------
  // creating a list

  /** The name a new list gets: the input without surrounding whitespace, or
      nothing when the input is blank. */
  function CreateListName(input: string): (r: Option<string>)
    ensures r.None? <==> forall i :: 0 <= i < |input| ==> IsSpace(input[i])
    ensures r.Some? ==>
      r.value == Trim(input) && r.value != [] && !IsSpace(r.value[0]) && !IsSpace(r.value[|r.value| - 1])
  {
    var name := Trim(input);
    if name != "" then Some(name) else None
  }

  /** The form's submit handler: a non-blank input creates a list with the
      trimmed name and clears the input; a blank one changes nothing. */
  method HandleCreateList(store: Store.AppStore, input: string, id: string, createdAt: int)
    returns (newInput: string)
    modifies store`lists
    ensures CreateListName(input).Some? ==>
      store.lists == old(store.lists) + [Store.NewList(id, CreateListName(input).value, createdAt)]
      && newInput == ""
    ensures CreateListName(input).None? ==> store.lists == old(store.lists) && newInput == input
    ensures old(store.Valid()) ==> store.Valid()
  {
    newInput := input;
    var name := Trim(input);
    if name != "" {
      store.AddList(name, id, createdAt);
      newInput := "";
    }
  }

  // ---------------------------------------------------------------------
  // resolving a list's companies

  /** `lists.find(l => l.id === listId)`. */
  function FindList(lists: seq<Store.CompanyList>, listId: string): (r: Option<Store.CompanyList>)
    ensures r.Some? ==> r.value in lists && r.value.id == listId
    ensures r.None? <==> forall l :: l in lists ==> l.id != listId
    ensures r.Some? ==>
      exists k :: 0 <= k < |lists| && lists[k] == r.value && (forall j :: 0 <= j < k ==> lists[j].id != listId)
    decreases |lists|
  {
    if |lists| == 0 then None
    else if lists[0].id == listId then Some(lists[0])
    else FindList(lists[1..], listId)
  }

  /** `ids.map(id => find(id)).filter(Boolean)`: the companies of the ids, in
      the list's order, with unknown ids dropped. */
  function Resolve(ids: seq<string>, catalogue: seq<Company>): (r: seq<Company>)
    ensures |r| <= |ids|
    ensures forall c :: c in r ==> c in catalogue && c.id in ids
    decreases |ids|
  {
    if |ids| == 0 then []
    else
      var rest := Resolve(ids[1..], catalogue);
      match Find(catalogue, ids[0])
      case None => rest
      case Some(c) => [c] + rest
  }

  /** When every id is known, each resolves, in order, to a company with that id. */
  lemma {:induction false} ResolveKnownIds(ids: seq<string>, catalogue: seq<Company>)
    requires forall id :: id in ids ==> Find(catalogue, id).Some?
    ensures |Resolve(ids, catalogue)| == |ids|
    ensures forall i :: 0 <= i < |ids| ==> Resolve(ids, catalogue)[i] == Find(catalogue, ids[i]).value
    decreases |ids|
  {
    if |ids| > 0 {
      assert ids[0] in ids;
      ResolveKnownIds(ids[1..], catalogue);
    }
  }

  /** An id that no company has contributes nothing. */
  lemma {:induction false} ResolveDropsUnknown(before: seq<string>, id: string, after: seq<string>, catalogue: seq<Company>)
    requires Find(catalogue, id).None?
    ensures Resolve(before + [id] + after, catalogue) == Resolve(before + after, catalogue)
    decreases |before|
  {
    if |before| == 0 {
      assert (before + [id] + after)[1..] == after;
      assert before + after == after;
    } else {
      assert (before + [id] + after)[1..] == before[1..] + [id] + after;
      assert (before + after)[1..] == before[1..] + after;
      ResolveDropsUnknown(before[1..], id, after, catalogue);
    }
  }

  // ---------------------------------------------------------------------
  // CSV text

  const Header := "Name,URL,Industry,Stage,Location"

  /** One company's line: four fields as they are, the location in double
      quotes, separated by commas; nothing is escaped. */
  function Row(c: Company): string
  {
    Join([c.name, c.url, c.industry, c.stage, "\"" + c.location + "\""], ",")
  }

  function Rows(companies: seq<Company>): (r: seq<string>)
    ensures |r| == |companies| && forall i :: 0 <= i < |companies| ==> r[i] == Row(companies[i])
  {
    seq(|companies|, i requires 0 <= i < |companies| => Row(companies[i]))
  }

  /** The header line followed by one line per company, joined by newlines. */
  function Csv(companies: seq<Company>): string
  {
    Join([Header] + Rows(companies), "\n")
  }

  /** "Export CSV": the text for the list's companies, or nothing when there
      is no list with the id. */
  function ExportCsv(lists: seq<Store.CompanyList>, listId: string, catalogue: seq<Company>): (r: Option<string>)
    ensures r.None? <==> forall l :: l in lists ==> l.id != listId
    ensures r.Some? ==> r.value == Csv(Resolve(FindList(lists, listId).value.companyIds, catalogue))
  {
    match FindList(lists, listId)
    case None => None
    case Some(l) => Some(Csv(Resolve(l.companyIds, catalogue)))
  }

  /** The five values a row reads back to. */
  datatype Record = Record(name: string, url: string, industry: string, stage: string, location: string)

  function RecordOf(c: Company): Record
  {
    Record(c.name, c.url, c.industry, c.stage, c.location)
  }

  /** Reading a row: four fields up to the next comma, then a field in
      double quotes that runs to the end of the line. */
  function ParseRow(line: string): Option<Record>
  {
    match Cut(line, ',')
    case None => None
    case Some(p1) =>
      match Cut(p1.1, ',')
      case None => None
      case Some(p2) =>
        match Cut(p2.1, ',')
        case None => None
        case Some(p3) =>
          match Cut(p3.1, ',')
          case None => None
          case Some(p4) =>
            var q := p4.1;
            if |q| >= 2 && q[0] == '"' && q[|q| - 1] == '"'
            then Some(Record(p1.0, p2.0, p3.0, p4.0, q[1..|q| - 1]))
            else None
  }

  /** The fields that are written without quotes. */
  predicate NoCommaInBareFields(c: Company)
  {
    ',' !in c.name && ',' !in c.url && ',' !in c.industry && ',' !in c.stage
  }

  /** A row spelt out: the five fields with a comma after each of the first four. */
  lemma RowSpelledOut(c: Company)
    ensures var q := "\"" + c.location + "\"";
      Row(c) == c.name + [','] + (c.url + [','] + (c.industry + [','] + (c.stage + [','] + q)))
  {
    var q := "\"" + c.location + "\"";
    var parts := [c.name, c.url, c.industry, c.stage, q];
    assert parts[1..] == [c.url, c.industry, c.stage, q];
    assert parts[1..][1..] == [c.industry, c.stage, q];
    assert parts[1..][1..][1..] == [c.stage, q];
    assert parts[1..][1..][1..][1..] == [q];
    assert Join([q], ",") == q;
    assert Join([c.stage, q], ",") == c.stage + [','] + q;
    assert Join([c.industry, c.stage, q], ",") == c.industry + [','] + (c.stage + [','] + q);
    assert Join([c.url, c.industry, c.stage, q], ",") == c.url + [','] + (c.industry + [','] + (c.stage + [','] + q));
  }

  /** A row reads back to the company's five values, provided the unquoted
      fields have no comma; the quoted location may contain any. */
  lemma RowRoundTrip(c: Company)
    requires NoCommaInBareFields(c)
    ensures ParseRow(Row(c)) == Some(RecordOf(c))
  {
    var q := "\"" + c.location + "\"";
    RowSpelledOut(c);
    CutAtSeparator(c.name, ',', c.url + [','] + (c.industry + [','] + (c.stage + [','] + q)));
    CutAtSeparator(c.url, ',', c.industry + [','] + (c.stage + [','] + q));
    CutAtSeparator(c.industry, ',', c.stage + [','] + q);
    CutAtSeparator(c.stage, ',', q);
    assert q[1..|q| - 1] == c.location;
  }

  /** The fields of a company hold no line break. */
  predicate SingleLine(c: Company)
  {
    '\n' !in c.name && '\n' !in c.url && '\n' !in c.industry && '\n' !in c.stage && '\n' !in c.location
  }

  lemma RowIsSingleLine(c: Company)
    requires SingleLine(c)
    ensures '\n' !in Row(c)
  {
    RowSpelledOut(c);
  }

  lemma HeaderIsSingleLine()
    ensures '\n' !in Header
  {
  }

  /** When no field holds a line break, the CSV splits into exactly the header
      and one line per company, in order; so it has one line more than there
      are companies. */
  lemma CsvLines(companies: seq<Company>)
    requires forall c :: c in companies ==> SingleLine(c)
    ensures Split(Csv(companies), '\n') == [Header] + Rows(companies)
    ensures |Split(Csv(companies), '\n')| == |companies| + 1
  {
    var lines := [Header] + Rows(companies);
    forall i | 0 <= i < |lines|
      ensures '\n' !in lines[i]
    {
      if i == 0 {
        HeaderIsSingleLine();
      } else {
        assert lines[i] == Row(companies[i - 1]);
        RowIsSingleLine(companies[i - 1]);
      }
    }
    SplitJoin(lines, '\n');
  }

  /** Reading the exported text back: the header, then each company's values,
      in the list's order. */
  lemma CsvRoundTrip(companies: seq<Company>)
    requires forall c :: c in companies ==> SingleLine(c) && NoCommaInBareFields(c)
    ensures var lines := Split(Csv(companies), '\n');
      && |lines| == |companies| + 1
      && lines[0] == Header
      && forall i :: 0 <= i < |companies| ==> ParseRow(lines[i + 1]) == Some(RecordOf(companies[i]))
  {
    CsvLines(companies);
    forall i | 0 <= i < |companies|
      ensures ParseRow(Rows(companies)[i]) == Some(RecordOf(companies[i]))
    {
      RowRoundTrip(companies[i]);
    }
  }

  /** The text never ends with a line break. */
  lemma CsvHasNoTrailingNewline(companies: seq<Company>)
    ensures var csv := Csv(companies); |csv| >= 1 && csv[|csv| - 1] != '\n'
  {
    var lines := [Header] + Rows(companies);
    var last := lines[|lines| - 1];
    if |companies| > 0 {
      assert last == Row(companies[|companies| - 1]);
      var c := companies[|companies| - 1];
      JoinEndsWithLastPart([c.name, c.url, c.industry, c.stage, "\"" + c.location + "\""], ",");
    }
    assert |last| >= 1 && last[|last| - 1] != '\n';
    JoinEndsWithLastPart(lines, "\n");
  }
}

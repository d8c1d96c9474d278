/** The master database sheet: a search box that keeps the rows in which
    any cell contains the search term, ignoring case, and a footer with the
    number of rows shown. */
module Spreadsheet {
  import opened Seqs
  import opened Text

  /** A row of the sheet; the id is a number, every other cell is text. */
  datatype SheetRow = SheetRow(
    id: nat, company: string, industry: string, stage: string,
    funding: string, valuation: string, status: string)

  /** `Object.values(row)` with each value in its string form. */
  function Cells(row: SheetRow): (r: seq<string>)
    ensures |r| == 7 && r[0] == Decimal(row.id)
  {
    [Decimal(row.id), row.company, row.industry, row.stage, row.funding, row.valuation, row.status]
  }

  /** Some cell contains the term, both lower-cased. */
  predicate RowMatches(row: SheetRow, term: string)
  {
    exists cell :: cell in Cells(row) && Contains(Lower(cell), Lower(term))
  }

  function MatchesTerm(term: string): SheetRow -> bool
  {
    row => RowMatches(row, term)
  }

  /** `filteredData`. */
  function FilteredRows(rows: seq<SheetRow>, term: string): seq<SheetRow>
  {
    Filter(rows, MatchesTerm(term))
  }

  /** The rows shown keep the sheet's order. */
  lemma FilteredRowsKeepOrder(rows: seq<SheetRow>, term: string)
    ensures IsSubsequence(FilteredRows(rows, term), rows)
  {
    FilterIsSubsequence(rows, MatchesTerm(term));
  }

  /** A row is shown exactly when one of its cells contains the term,
      ignoring case, and as often as it occurs in the sheet. */
  lemma FilteredRowsExactly(rows: seq<SheetRow>, term: string, row: SheetRow)
    ensures row in FilteredRows(rows, term) <==> row in rows && RowMatches(row, term)
    ensures multiset(FilteredRows(rows, term))[row] == if RowMatches(row, term) then multiset(rows)[row] else 0
  {
    FilterMembers(rows, MatchesTerm(term), row);
    FilterCount(rows, MatchesTerm(term), row);
  }

  /** An empty search box shows the whole sheet. */
  lemma EmptyTermKeepsAll(rows: seq<SheetRow>)
    ensures FilteredRows(rows, "") == rows
  {
    forall row | row in rows ensures MatchesTerm("")(row) {
      ContainsEmpty(Lower(Cells(row)[0]));
      assert Cells(row)[0] in Cells(row);
    }
    FilterKeepsAll(rows, MatchesTerm(""));
  }

  /** The case of the search term does not matter. */
  lemma SearchIgnoresCase(rows: seq<SheetRow>, term: string)
    ensures FilteredRows(rows, Lower(term)) == FilteredRows(rows, term)
  {
    LowerIdempotent(term);
    FilterAgrees(rows, MatchesTerm(Lower(term)), MatchesTerm(term));
  }

  /** The footer: the number of rows shown, then " rows". */
  function Footer(rows: seq<SheetRow>, term: string): string
  {
    Decimal(|FilteredRows(rows, term)|) + " rows"
  }

  /** The footer's number reads back to the number of rows shown. */
  lemma FooterCountsShownRows(rows: seq<SheetRow>, term: string)
    ensures var footer := Footer(rows, term);
      && |footer| > 5
      && footer[|footer| - 5..] == " rows"
      && IsDigits(footer[..|footer| - 5])
      && ParseDecimal(footer[..|footer| - 5]) == |FilteredRows(rows, term)|
  {
    var n := |FilteredRows(rows, term)|;
    assert Footer(rows, term)[..|Footer(rows, term)| - 5] == Decimal(n);
    DecimalRoundTrip(n);
  }
}

/** The analytics dashboard: the summary figures and the distributions of
    the catalogue's companies by industry and by stage, most frequent first. */
module Analytics {
  import opened Seqs
  import opened Catalogue
  import StableSort
  import Store

  // ---------------------------------------------------------------------
  // summary figures

  datatype Summary = Summary(totalCompanies: nat, totalLists: nat, totalSavedSearches: nat)

  /** The three figures at the top of the dashboard. The figures are defined
      as these sizes, so the contract is that definition. */
  function Totals(catalogue: seq<Company>, store: Store.AppStore): (r: Summary)
    reads store
    ensures r.totalCompanies == |catalogue|
    ensures r.totalLists == |store.lists| && r.totalSavedSearches == |store.savedSearches|
  {
    Summary(|catalogue|, |store.lists|, |store.savedSearches|)
  }

  // ---------------------------------------------------------------------
  // counting

  /** A bar of a chart: a value of the facet and how many companies have it. */
  datatype Entry = Entry(name: string, value: nat)

  function EntryNames(entries: seq<Entry>): (r: seq<string>)
    ensures |r| == |entries| && forall i :: 0 <= i < |entries| ==> r[i] == entries[i].name
  {
    seq(|entries|, i requires 0 <= i < |entries| => entries[i].name)
  }

  /** `counts[name] = (counts[name] || 0) + 1` on a record whose keys keep the
      order they were added in. */
  function Bump(entries: seq<Entry>, name: string): seq<Entry>
    decreases |entries|
  {
    if |entries| == 0 then [Entry(name, 1)]
    else if entries[0].name == name then [Entry(name, entries[0].value + 1)] + entries[1..]
    else [entries[0]] + Bump(entries[1..], name)
  }

  /** The record after counting every value of `values`, in order. */
  function Tally(values: seq<string>): seq<Entry>
    decreases |values|
  {
    if |values| == 0 then [] else Bump(Tally(values[..|values| - 1]), values[|values| - 1])
  }

  /** The counting loop of the dashboard. */
  method Count(values: seq<string>) returns (counts: seq<Entry>)
    ensures counts == Tally(values)
  {
    counts := [];
    var i := 0;
    while i < |values|
      invariant 0 <= i <= |values|
      invariant counts == Tally(values[..i])
    {
      assert values[..i + 1][..i] == values[..i];
      counts := Bump(counts, values[i]);
      i := i + 1;
    }
    assert values[..|values|] == values;
  }

  /** The count recorded for `name`, 0 when there is none. */
  function CountOf(entries: seq<Entry>, name: string): nat
    decreases |entries|
  {
    if |entries| == 0 then 0
    else if entries[0].name == name then entries[0].value
    else CountOf(entries[1..], name)
  }

  /** The sum of the counts. */
  function Total(entries: seq<Entry>): nat
    decreases |entries|
  {
    if |entries| == 0 then 0 else entries[0].value + Total(entries[1..])
  }

  lemma {:induction false} BumpNames(entries: seq<Entry>, name: string)
    ensures EntryNames(Bump(entries, name))
      == if name in EntryNames(entries) then EntryNames(entries) else EntryNames(entries) + [name]
    decreases |entries|
  {
    if |entries| == 0 {
      assert EntryNames(Bump(entries, name)) == [name];
    } else {
      var e := entries[0];
      var rest := entries[1..];
      NamesCons(e, rest);
      assert entries == [e] + rest;
      if e.name == name {
        NamesCons(Entry(name, e.value + 1), rest);
        assert EntryNames(entries)[0] == name;
        assert name in EntryNames(entries);
        assert EntryNames(Bump(entries, name)) == EntryNames(entries);
      } else {
        BumpNames(rest, name);
        NamesCons(e, Bump(rest, name));
        assert name in EntryNames(entries) <==> name in EntryNames(rest);
        if name in EntryNames(rest) {
          assert EntryNames(Bump(entries, name)) == EntryNames(entries);
        } else {
          assert [e.name] + (EntryNames(rest) + [name]) == [e.name] + EntryNames(rest) + [name];
          assert EntryNames(Bump(entries, name)) == EntryNames(entries) + [name];
        }
      }
    }
  }

  lemma NamesCons(e: Entry, rest: seq<Entry>)
    ensures EntryNames([e] + rest) == [e.name] + EntryNames(rest)
  {
  }

  lemma {:induction false} BumpCount(entries: seq<Entry>, name: string, other: string)
    ensures CountOf(Bump(entries, name), other) == CountOf(entries, other) + (if other == name then 1 else 0)
    decreases |entries|
  {
    if |entries| > 0 && entries[0].name != name {
      BumpCount(entries[1..], name, other);
    }
  }

  lemma {:induction false} BumpTotal(entries: seq<Entry>, name: string)
    ensures Total(Bump(entries, name)) == Total(entries) + 1
    decreases |entries|
  {
    if |entries| > 0 && entries[0].name != name {
      BumpTotal(entries[1..], name);
    }
  }

  /** The record's keys are the distinct values, in order of first appearance. */
  lemma {:induction false} TallyNames(values: seq<string>)
    ensures EntryNames(Tally(values)) == Distinct(values)
    decreases |values|
  {
    if |values| > 0 {
      TallyNames(values[..|values| - 1]);
      BumpNames(Tally(values[..|values| - 1]), values[|values| - 1]);
    }
  }

  /** The record holds, for each value, the number of its occurrences. */
  lemma {:induction false} TallyCounts(values: seq<string>, name: string)
    ensures CountOf(Tally(values), name) == multiset(values)[name]
    decreases |values|
  {
    if |values| > 0 {
      var prefix := values[..|values| - 1];
      TallyCounts(prefix, name);
      BumpCount(Tally(prefix), values[|values| - 1], name);
      assert values == prefix + [values[|values| - 1]];
    }
  }

  /** The counts add up to the number of values. */
  lemma {:induction false} TallyTotal(values: seq<string>)
    ensures Total(Tally(values)) == |values|
    decreases |values|
  {
    if |values| > 0 {
      TallyTotal(values[..|values| - 1]);
      BumpTotal(Tally(values[..|values| - 1]), values[|values| - 1]);
    }
  }

  /** With distinct names, an entry's count is the one recorded for its name. */
  lemma {:induction false} CountOfEntry(entries: seq<Entry>, e: Entry)
    requires NoDuplicates(EntryNames(entries)) && e in entries
    ensures CountOf(entries, e.name) == e.value
    decreases |entries|
  {
    if entries[0] != e {
      var k :| 0 <= k < |entries| && entries[k] == e;
      assert EntryNames(entries)[0] != EntryNames(entries)[k];
      assert EntryNames(entries[1..]) == EntryNames(entries)[1..];
      CountOfEntry(entries[1..], e);
    }
  }

  // ---------------------------------------------------------------------
  // the chart data

  function ValueKey(e: Entry): StableSort.Key
  {
    StableSort.Number(e.value)
  }

  /** `Object.entries(counts)` sorted by `b.value - a.value`. */
  function Distribution(values: seq<string>): seq<Entry>
  {
    StableSort.Sort(Tally(values), ValueKey, StableSort.Desc)
  }

  /** The values of one facet of the companies, in catalogue order. */
  function Column(companies: seq<Company>, facet: Company -> string): (r: seq<string>)
    ensures |r| == |companies| && forall i :: 0 <= i < |companies| ==> r[i] == facet(companies[i])
  {
    seq(|companies|, i requires 0 <= i < |companies| => facet(companies[i]))
  }

  /** `industryData` and `stageData`: count the facet's values over the
      companies, then sort the entries by count. */
  method ChartData(companies: seq<Company>, facet: Company -> string) returns (r: seq<Entry>)
    ensures r == Distribution(Column(companies, facet))
  {
    var counts := Count(Column(companies, facet));
    r := StableSort.SortedCopy(counts, ValueKey, StableSort.Desc);
  }

  lemma {:induction false} InsertTotal(t: seq<Entry>, x: Entry)
    ensures Total(StableSort.Insert(t, x, ValueKey, StableSort.Desc)) == Total(t) + x.value
    decreases |t|
  {
    if |t| == 0 {
    } else if !StableSort.After(ValueKey(t[|t| - 1]), ValueKey(x), StableSort.Desc) {
      TotalAppend(t, x);
    } else {
      var prefix := t[..|t| - 1];
      InsertTotal(prefix, x);
      TotalAppend(StableSort.Insert(prefix, x, ValueKey, StableSort.Desc), t[|t| - 1]);
      TotalAppend(prefix, t[|t| - 1]);
      assert t == prefix + [t[|t| - 1]];
    }
  }

  lemma {:induction false} TotalAppend(s: seq<Entry>, x: Entry)
    ensures Total(s + [x]) == Total(s) + x.value
    decreases |s|
  {
    if |s| > 0 {
      assert (s + [x])[1..] == s[1..] + [x];
      TotalAppend(s[1..], x);
    }
  }

  lemma {:induction false} SortTotal(s: seq<Entry>)
    ensures Total(StableSort.Sort(s, ValueKey, StableSort.Desc)) == Total(s)
    decreases |s|
  {
    if |s| > 0 {
      var prefix := s[..|s| - 1];
      SortTotal(prefix);
      InsertTotal(StableSort.Sort(prefix, ValueKey, StableSort.Desc), s[|s| - 1]);
      TotalAppend(prefix, s[|s| - 1]);
      assert s == prefix + [s[|s| - 1]];
    }
  }

  /** Inserting an entry whose name is new keeps the names distinct. */
  lemma {:induction false} InsertKeepsNamesDistinct(t: seq<Entry>, x: Entry)
    requires NoDuplicates(EntryNames(t)) && x.name !in EntryNames(t)
    ensures NoDuplicates(EntryNames(StableSort.Insert(t, x, ValueKey, StableSort.Desc)))
    decreases |t|
  {
    var r := StableSort.Insert(t, x, ValueKey, StableSort.Desc);
    if |t| > 0 && StableSort.After(ValueKey(t[|t| - 1]), ValueKey(x), StableSort.Desc) {
      var prefix := t[..|t| - 1];
      var last := t[|t| - 1];
      assert EntryNames(prefix) == EntryNames(t)[..|t| - 1];
      InsertKeepsNamesDistinct(prefix, x);
      var inner := StableSort.Insert(prefix, x, ValueKey, StableSort.Desc);
      forall d | d in prefix ensures d.name != last.name {
        var m :| 0 <= m < |prefix| && prefix[m] == d;
        assert EntryNames(t)[m] != EntryNames(t)[|t| - 1];
      }
      assert last.name in EntryNames(t);
      InsertedNamesAvoid(prefix, x, last.name);
      assert r == inner + [last];
      AppendNameKeepsDistinct(inner, last);
    } else {
      assert EntryNames(r) == EntryNames(t) + [x.name];
    }
  }

  /** A name that neither `x` nor any entry of `t` has is not among the names
      after inserting `x` into `t`. */
  lemma InsertedNamesAvoid(t: seq<Entry>, x: Entry, name: string)
    requires x.name != name
    requires forall e :: e in t ==> e.name != name
    ensures forall e :: e in StableSort.Insert(t, x, ValueKey, StableSort.Desc) ==> e.name != name
  {
    var inner := StableSort.Insert(t, x, ValueKey, StableSort.Desc);
    StableSort.InsertPermutes(t, x, ValueKey, StableSort.Desc);
    forall e | e in inner ensures e.name != name {
      assert e in multiset(inner);
      assert e in t || e == x;
    }
  }

  /** Appending an entry with a new name keeps the names distinct. */
  lemma AppendNameKeepsDistinct(s: seq<Entry>, e: Entry)
    requires NoDuplicates(EntryNames(s))
    requires forall d :: d in s ==> d.name != e.name
    ensures NoDuplicates(EntryNames(s + [e]))
  {
    assert EntryNames(s + [e]) == EntryNames(s) + [e.name];
    forall k | 0 <= k < |s| ensures EntryNames(s)[k] != e.name {
      assert s[k] in s;
    }
  }

  lemma {:induction false} SortKeepsNamesDistinct(s: seq<Entry>)
    requires NoDuplicates(EntryNames(s))
    ensures NoDuplicates(EntryNames(StableSort.Sort(s, ValueKey, StableSort.Desc)))
    decreases |s|
  {
    if |s| > 0 {
      var prefix := s[..|s| - 1];
      var last := s[|s| - 1];
      assert EntryNames(prefix) == EntryNames(s)[..|s| - 1];
      SortKeepsNamesDistinct(prefix);
      var sorted := StableSort.Sort(prefix, ValueKey, StableSort.Desc);
      StableSort.SortPermutes(prefix, ValueKey, StableSort.Desc);
      forall k | 0 <= k < |sorted| ensures sorted[k].name != last.name {
        assert sorted[k] in multiset(prefix);
        var m :| 0 <= m < |prefix| && prefix[m] == sorted[k];
        assert EntryNames(s)[m] != EntryNames(s)[|s| - 1];
      }
      InsertKeepsNamesDistinct(sorted, last);
    }
  }

  /** A chart has one bar per value: no value is repeated, and the values
      shown are exactly those of the facet. */
  lemma DistributionNames(values: seq<string>)
    ensures NoDuplicates(EntryNames(Distribution(values)))
    ensures forall v :: v in values <==> v in EntryNames(Distribution(values))
  {
    var t := Tally(values);
    var d := Distribution(values);
    TallyNames(values);
    SortKeepsNamesDistinct(t);
    StableSort.SortPermutes(t, ValueKey, StableSort.Desc);
    forall v ensures v in values <==> v in EntryNames(d) {
      if v in values {
        var k :| 0 <= k < |t| && t[k].name == v;
        assert t[k] in multiset(d);
        var m :| 0 <= m < |d| && d[m] == t[k];
        assert EntryNames(d)[m] == v;
      }
      if v in EntryNames(d) {
        var m :| 0 <= m < |d| && d[m].name == v;
        assert d[m] in multiset(t);
        var k :| 0 <= k < |t| && t[k] == d[m];
        assert EntryNames(t)[k] == v;
      }
    }
  }

  /** Each bar's count is the number of companies with its value, and so at
      least one. */
  lemma DistributionValues(values: seq<string>, e: Entry)
    requires e in Distribution(values)
    ensures e.value == multiset(values)[e.name] >= 1
  {
    var t := Tally(values);
    StableSort.SortPermutes(t, ValueKey, StableSort.Desc);
    assert e in multiset(t);
    var k :| 0 <= k < |t| && t[k] == e;
    TallyNames(values);
    assert e.name in Distinct(values) by {
      assert EntryNames(t)[k] == e.name;
    }
    assert e.name in multiset(values);
    CountOfEntry(t, e);
    TallyCounts(values, e.name);
  }

  /** The counts of a chart add up to the number of companies. */
  lemma DistributionTotal(values: seq<string>)
    ensures Total(Distribution(values)) == |values|
  {
    TallyTotal(values);
    SortTotal(Tally(values));
  }

  /** The bars are ordered by count, largest first, and bars with equal counts
      keep the order in which their values first appear. */
  lemma DistributionOrder(values: seq<string>, n: nat)
    ensures var d := Distribution(values);
      && (forall i, j :: 0 <= i < j < |d| ==> d[i].value >= d[j].value)
      && StableSort.WithKey(d, ValueKey, StableSort.Number(n)) == StableSort.WithKey(Tally(values), ValueKey, StableSort.Number(n))
      && EntryNames(Tally(values)) == Distinct(values)
  {
    StableSort.SortOrders(Tally(values), ValueKey, StableSort.Desc);
    StableSort.SortIsStable(Tally(values), ValueKey, StableSort.Desc, StableSort.Number(n));
    TallyNames(values);
  }
}

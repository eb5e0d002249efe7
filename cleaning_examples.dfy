/**
  The unit test's three-row table, and a two-row table showing that one
  cleaning pass is not always enough to remove every duplicate.
 */
module CleaningExamples {
  import opened Optional
  import opened Dates
  import opened Sales
  import opened Dedup
  import opened Cleaning

  /** The rows of `setUp` in test_data_cleaning.py. */
  function TestTable(): Table {
    [ Row(Some("01/25/2024"), Some("Peter Schmidt"), None, Some("Apple iPhone 16 Pro Max"),
          Some(57), Some(1449), Some(82593), Some("Fehlende Region"), None),
      Row(Some("2024-01-26"), Some("STEFAN BERGER"), Some("EMEA"), Some("Samsung Galaxy S24 Ultra"),
          Some(29), Some(1239), Some(35931), Some("Falsches Datumsformat"), None),
      Row(Some("01-27-2024"), Some("Dirk Donner"), Some("ASIA"), Some("Huawei Pura 70 Ultra"),
          Some(152), Some(1499), Some(227848), Some("Falsches Datumsformat"), None) ]
  }

  lemma TestTableHasNoDuplicates()
    ensures DropDuplicates(TestTable()) == TestTable()
  {
    DistinctIsFixed(TestTable());
  }

  /** `test_clean_data` and `test_calculate_total_revenue`. */
  lemma TestCleanData()
    ensures |Clean(TestTable())| == 3
    ensures Clean(TestTable())[0].region == Some("AMERICAS")
    ensures Clean(TestTable())[0].date == Some("2024-01-25")
    ensures Clean(TestTable())[0].total == Some(57 * 1449)
  {
    var t := TestTable();
    TestTableHasNoDuplicates();
    CleanAt(t, 0);
    FilledAt(t, 0);
    UsSlashLayoutExample();
    FormatExample();
    KnownSellerIsTitled("Peter Schmidt");
  }

  /** `test_drop_duplicates`: appending a copy of the first row changes nothing. */
  lemma TestDropDuplicates()
    ensures |Clean(TestTable() + [TestTable()[0]])| == |TestTable()|
  {
    var t := TestTable();
    assert KeyOf(t[0]) in KeySet(t);
    CleanIgnoresAppendedDuplicate(t, t[0]);
    TestCleanData();
  }

  /** Two records of one sale, differing only in how the date is written. */
  function SameSaleTwoLayouts(): Table {
    var a := Row(Some("01/25/2024"), Some("Peter Schmidt"), Some("AMERICAS"), Some("Apple iPhone 16 Pro Max"),
                 Some(57), Some(1449), Some(82593), None, None);
    [a, a.(date := Some("2024-01-25"))]
  }

  lemma CleanSameSale()
    ensures |Clean(SameSaleTwoLayouts())| == 2
    ensures Clean(SameSaleTwoLayouts())[0] == Clean(SameSaleTwoLayouts())[1]
  {
    var t := SameSaleTwoLayouts();
    DistinctIsFixed(t);
    UsSlashLayoutExample();
    FormatExample();
    FormatRoundTrip(Date(2024, 1, 25));
    CleanAt(t, 0);
    FilledAt(t, 0);
    CleanAt(t, 1);
    FilledAt(t, 1);
  }

  /** A table of two equal rows cleans to a single row. */
  lemma CleanCollapsesPair(x: Row)
    ensures |Clean([x, x])| == 1
  {
    assert [x, x] == [x] + [x];
    assert [x][0] == x;
    assert KeyOf(x) in KeySet([x]);
    AppendDuplicate([x], x);
    DistinctIsFixed([x]);
    CleanDates([x, x]);
  }

  /** Deduplication runs before dates are normalised, so both records survive
      one pass and collapse into one on a second: cleaning is not idempotent. */
  lemma CleanIsNotIdempotent()
    ensures |Clean(SameSaleTwoLayouts())| == 2
    ensures |Clean(Clean(SameSaleTwoLayouts()))| == 1
  {
    var c := Clean(SameSaleTwoLayouts());
    CleanSameSale();
    assert c == [c[0], c[0]];
    CleanCollapsesPair(c[0]);
  }
}

/**
  The data behind the two charts of `save_charts`:
  `groupby('Monat')['Gesamtumsatz'].sum()` and
  `groupby(['Monat', 'Verkäufer'])['Gesamtumsatz'].sum()`. Groups whose key
  is missing are dropped, missing amounts add nothing, and the groups come
  out in ascending key order.
 */
module Aggregation {
  import opened Optional
  import opened Dates
  import opened Sales
  import opened Cleaning

  /** A group: one month, or one month and one seller. */
  datatype GroupKey = ByMonth(month: YearMonth) | ByMonthSeller(month: YearMonth, seller: string)

  /** Groups with their summed revenue. */
  type Totals = seq<(GroupKey, int)>

  // ---------------------------------------------------------------- key order

  predicate MonthLess(a: YearMonth, b: YearMonth) {
    a.year < b.year || (a.year == b.year && a.month < b.month)
  }

  /** Python's string order: by code point, a proper prefix first. */
  predicate StrLess(a: string, b: string) {
    if a == [] then b != []
    else if b == [] then false
    else if a[0] != b[0] then a[0] < b[0]
    else StrLess(a[1..], b[1..])
  }

  /** Month first, then seller. */
  predicate KeyLess(a: GroupKey, b: GroupKey) {
    if a.month != b.month then MonthLess(a.month, b.month)
    else match (a, b)
      case (ByMonth(_), ByMonthSeller(_, _)) => true
      case (ByMonthSeller(_, s), ByMonthSeller(_, u)) => StrLess(s, u)
      case _ => false
  }

  lemma {:induction false} StrLessIrreflexive(a: string)
    ensures !StrLess(a, a)
  {
    if a != [] {
      StrLessIrreflexive(a[1..]);
    }
  }

  lemma {:induction false} StrLessTransitive(a: string, b: string, c: string)
    requires StrLess(a, b) && StrLess(b, c)
    ensures StrLess(a, c)
  {
    if a != [] && a[0] == b[0] && b[0] == c[0] {
      StrLessTransitive(a[1..], b[1..], c[1..]);
    }
  }

  lemma {:induction false} StrLessTotal(a: string, b: string)
    requires a != b
    ensures StrLess(a, b) || StrLess(b, a)
  {
    if a != [] && b != [] && a[0] == b[0] {
      assert a == [a[0]] + a[1..] && b == [b[0]] + b[1..];
      StrLessTotal(a[1..], b[1..]);
    }
  }

  /** KeyLess is a strict total order. */
  lemma KeyLessIsStrictTotalOrder(a: GroupKey, b: GroupKey, c: GroupKey)
    ensures !KeyLess(a, a)
    ensures KeyLess(a, b) && KeyLess(b, c) ==> KeyLess(a, c)
    ensures a != b ==> KeyLess(a, b) || KeyLess(b, a)
  {
    if a.ByMonthSeller? {
      StrLessIrreflexive(a.seller);
    }
    if KeyLess(a, b) && KeyLess(b, c) && a.ByMonthSeller? && b.ByMonthSeller? && c.ByMonthSeller? {
      if a.month == b.month == c.month {
        StrLessTransitive(a.seller, b.seller, c.seller);
      }
    }
    if a != b && a.ByMonthSeller? && b.ByMonthSeller? && a.month == b.month {
      StrLessTotal(a.seller, b.seller);
    }
  }

  // ---------------------------------------------------------------- group-by-sum

  function KeysOf(es: Totals): set<GroupKey> {
    set i | 0 <= i < |es| :: es[i].0
  }

  predicate Ascending(es: Totals) {
    forall i, j | 0 <= i < j < |es| :: KeyLess(es[i].0, es[j].0)
  }

  /** Total of the amounts filed under key `k`. */
  function SumOf(es: Totals, k: GroupKey): int {
    if es == [] then 0 else (if es[0].0 == k then es[0].1 else 0) + SumOf(es[1..], k)
  }

  /** Total of the amounts filed under any key of month `m`. */
  function MonthSum(es: Totals, m: YearMonth): int {
    if es == [] then 0 else (if es[0].0.month == m then es[0].1 else 0) + MonthSum(es[1..], m)
  }

  /** Add `v` to the group `k` of an ascending list of groups, opening the
      group in its place when it is new. */
  function Insert(acc: Totals, k: GroupKey, v: int): Totals {
    if acc == [] then [(k, v)]
    else if acc[0].0 == k then [(k, acc[0].1 + v)] + acc[1..]
    else if KeyLess(k, acc[0].0) then [(k, v)] + acc
    else [acc[0]] + Insert(acc[1..], k, v)
  }

  /** One group per distinct key, in ascending order, with its sum. */
  function GroupSum(es: Totals): Totals {
    if es == [] then [] else Insert(GroupSum(es[1..]), es[0].0, es[0].1)
  }

  lemma KeysOfCons(x: (GroupKey, int), es: Totals)
    ensures KeysOf([x] + es) == {x.0} + KeysOf(es)
  {
    var u := [x] + es;
    forall k | k in KeysOf(u) ensures k in {x.0} + KeysOf(es) {
      var i :| 0 <= i < |u| && u[i].0 == k;
      if i > 0 { assert u[i] == es[i - 1]; }
    }
    forall k | k in {x.0} + KeysOf(es) ensures k in KeysOf(u) {
      if k == x.0 {
        assert u[0] == x;
      } else {
        var i :| 0 <= i < |es| && es[i].0 == k;
        assert u[i + 1] == es[i];
      }
    }
  }

  lemma AscendingCons(x: (GroupKey, int), es: Totals)
    requires Ascending(es)
    requires forall k | k in KeysOf(es) :: KeyLess(x.0, k)
    ensures Ascending([x] + es)
  {
    var u := [x] + es;
    forall i, j | 0 <= i < j < |u| ensures KeyLess(u[i].0, u[j].0) {
      assert u[j] == es[j - 1];
      assert es[j - 1].0 in KeysOf(es);
      if i > 0 { assert u[i] == es[i - 1]; }
    }
  }

  lemma {:induction false} InsertKeepsOrder(acc: Totals, k: GroupKey, v: int)
    requires Ascending(acc)
    ensures Ascending(Insert(acc, k, v))
    ensures KeysOf(Insert(acc, k, v)) == KeysOf(acc) + {k}
  {
    if acc == [] {
      KeysOfCons((k, v), []);
    } else {
      var x, rest := acc[0], acc[1..];
      assert acc == [x] + rest;
      KeysOfCons(x, rest);
      assert Ascending(rest);
      forall q | q in KeysOf(rest) ensures KeyLess(x.0, q) {
        var j :| 0 <= j < |rest| && rest[j].0 == q;
        assert acc[j + 1] == rest[j];
      }
      if x.0 == k {
        KeysOfCons((k, x.1 + v), rest);
        AscendingCons((k, x.1 + v), rest);
      } else if KeyLess(k, x.0) {
        KeysOfCons((k, v), acc);
        forall q | q in KeysOf(acc) ensures KeyLess(k, q) {
          KeyLessIsStrictTotalOrder(k, x.0, q);
        }
        AscendingCons((k, v), acc);
      } else {
        InsertKeepsOrder(rest, k, v);
        KeysOfCons(x, Insert(rest, k, v));
        KeyLessIsStrictTotalOrder(x.0, k, k);
        AscendingCons(x, Insert(rest, k, v));
      }
    }
  }

  lemma {:induction false} InsertAdds(acc: Totals, k: GroupKey, v: int, q: GroupKey, m: YearMonth)
    ensures SumOf(Insert(acc, k, v), q) == SumOf(acc, q) + (if q == k then v else 0)
    ensures MonthSum(Insert(acc, k, v), m) == MonthSum(acc, m) + (if k.month == m then v else 0)
  {
    if acc != [] && acc[0].0 != k && !KeyLess(k, acc[0].0) {
      InsertAdds(acc[1..], k, v, q, m);
      assert ([acc[0]] + Insert(acc[1..], k, v))[1..] == Insert(acc[1..], k, v);
    } else if acc != [] && acc[0].0 == k {
      assert ([(k, acc[0].1 + v)] + acc[1..])[1..] == acc[1..];
    } else if acc != [] {
      assert ([(k, v)] + acc)[1..] == acc;
    }
  }

  lemma {:induction false} GroupSumIsAscending(es: Totals)
    ensures Ascending(GroupSum(es))
    ensures KeysOf(GroupSum(es)) == KeysOf(es)
  {
    if es != [] {
      GroupSumIsAscending(es[1..]);
      InsertKeepsOrder(GroupSum(es[1..]), es[0].0, es[0].1);
      assert es == [es[0]] + es[1..];
      KeysOfCons(es[0], es[1..]);
    }
  }

  lemma {:induction false} GroupSumKeepsSums(es: Totals, q: GroupKey, m: YearMonth)
    ensures SumOf(GroupSum(es), q) == SumOf(es, q)
    ensures MonthSum(GroupSum(es), m) == MonthSum(es, m)
  {
    if es != [] {
      GroupSumKeepsSums(es[1..], q, m);
      InsertAdds(GroupSum(es[1..]), es[0].0, es[0].1, q, m);
    }
  }

  lemma {:induction false} SumOfAbsent(es: Totals, k: GroupKey)
    requires k !in KeysOf(es)
    ensures SumOf(es, k) == 0
  {
    if es != [] {
      assert es == [es[0]] + es[1..];
      KeysOfCons(es[0], es[1..]);
      SumOfAbsent(es[1..], k);
    }
  }

  /** In an ascending list each key occurs once, so its entry is its sum. */
  lemma {:induction false} AscendingEntryIsSum(es: Totals, i: int)
    requires Ascending(es) && 0 <= i < |es|
    ensures SumOf(es, es[i].0) == es[i].1
  {
    assert es == [es[0]] + es[1..];
    KeysOfCons(es[0], es[1..]);
    if i == 0 {
      if es[0].0 in KeysOf(es[1..]) {
        var j :| 0 <= j < |es[1..]| && es[1..][j].0 == es[0].0;
        assert KeyLess(es[0].0, es[j + 1].0);
        KeyLessIsStrictTotalOrder(es[0].0, es[0].0, es[0].0);
      }
      SumOfAbsent(es[1..], es[0].0);
    } else {
      assert es[1..][i - 1] == es[i];
      assert KeyLess(es[0].0, es[i].0);
      KeyLessIsStrictTotalOrder(es[0].0, es[0].0, es[0].0);
      AscendingEntryIsSum(es[1..], i - 1);
    }
  }

  /** GroupSum: ascending distinct keys, exactly the keys of the input, each
      with the sum of the amounts filed under it. */
  lemma GroupSumCorrect(es: Totals)
    ensures Ascending(GroupSum(es))
    ensures KeysOf(GroupSum(es)) == KeysOf(es)
    ensures forall i | 0 <= i < |GroupSum(es)| :: GroupSum(es)[i].1 == SumOf(es, GroupSum(es)[i].0)
  {
    var g := GroupSum(es);
    GroupSumIsAscending(es);
    forall i | 0 <= i < |g| ensures g[i].1 == SumOf(es, g[i].0) {
      AscendingEntryIsSum(g, i);
      GroupSumKeepsSums(es, g[i].0, g[i].0.month);
    }
  }

  // ---------------------------------------------------------------- the two groupings

  /** A row's revenue as the sum sees it: a missing amount adds nothing. */
  function Amount(r: Row): int {
    r.total.GetOr(0)
  }

  /** One entry per row whose month is present. */
  function MonthEntries(t: Table): Totals {
    if t == [] then []
    else (if t[0].month.Some? then [(ByMonth(t[0].month.value), Amount(t[0]))] else []) + MonthEntries(t[1..])
  }

  /** One entry per row whose month and seller are both present. */
  function SellerEntries(t: Table): Totals {
    if t == [] then []
    else
      (if t[0].month.Some? && t[0].seller.Some? then [(ByMonthSeller(t[0].month.value, t[0].seller.value), Amount(t[0]))]
       else [])
      + SellerEntries(t[1..])
  }

  /** `groupby('Monat')['Gesamtumsatz'].sum()`. */
  function MonthlyTotals(t: Table): (g: Totals)
    ensures Ascending(g)
  {
    GroupSumIsAscending(MonthEntries(t));
    GroupSum(MonthEntries(t))
  }

  /** `groupby(['Monat', 'Verkäufer'])['Gesamtumsatz'].sum()`. */
  function SellerMonthlyTotals(t: Table): (g: Totals)
    ensures Ascending(g)
  {
    GroupSumIsAscending(SellerEntries(t));
    GroupSum(SellerEntries(t))
  }

  /** Reference sums, straight over the rows. */
  function MonthTotal(t: Table, m: YearMonth): int {
    if t == [] then 0 else (if t[0].month == Some(m) then Amount(t[0]) else 0) + MonthTotal(t[1..], m)
  }

  function SellerMonthTotal(t: Table, m: YearMonth, s: string): int {
    if t == [] then 0
    else (if t[0].month == Some(m) && t[0].seller == Some(s) then Amount(t[0]) else 0) + SellerMonthTotal(t[1..], m, s)
  }

  /** Revenue of a month's rows that have no seller. */
  function UnassignedTotal(t: Table, m: YearMonth): int {
    if t == [] then 0
    else (if t[0].month == Some(m) && t[0].seller.None? then Amount(t[0]) else 0) + UnassignedTotal(t[1..], m)
  }

  predicate HasMonth(t: Table, m: YearMonth) {
    exists i | 0 <= i < |t| :: t[i].month == Some(m)
  }

  predicate HasMonthSeller(t: Table, m: YearMonth, s: string) {
    exists i | 0 <= i < |t| :: t[i].month == Some(m) && t[i].seller == Some(s)
  }

  lemma {:induction false} MonthEntriesSpec(t: Table, k: GroupKey)
    ensures k in KeysOf(MonthEntries(t)) <==> k.ByMonth? && HasMonth(t, k.month)
    ensures SumOf(MonthEntries(t), k) == if k.ByMonth? then MonthTotal(t, k.month) else 0
  {
    if t != [] {
      MonthEntriesSpec(t[1..], k);
      var rest := MonthEntries(t[1..]);
      if t[0].month.Some? {
        var x := (ByMonth(t[0].month.value), Amount(t[0]));
        KeysOfCons(x, rest);
        assert ([x] + rest)[1..] == rest;
      } else {
        assert [] + rest == rest;
      }
      assert HasMonth(t, k.month) <==> t[0].month == Some(k.month) || HasMonth(t[1..], k.month) by {
        if HasMonth(t, k.month) {
          var i :| 0 <= i < |t| && t[i].month == Some(k.month);
          if i > 0 { assert t[1..][i - 1] == t[i]; }
        }
        if HasMonth(t[1..], k.month) {
          var i :| 0 <= i < |t[1..]| && t[1..][i].month == Some(k.month);
          assert t[i + 1] == t[1..][i];
        }
      }
    }
  }

  lemma {:induction false} SellerEntriesSpec(t: Table, k: GroupKey, m: YearMonth)
    ensures k in KeysOf(SellerEntries(t)) <==> k.ByMonthSeller? && HasMonthSeller(t, k.month, k.seller)
    ensures SumOf(SellerEntries(t), k) == if k.ByMonthSeller? then SellerMonthTotal(t, k.month, k.seller) else 0
    ensures MonthSum(SellerEntries(t), m) + UnassignedTotal(t, m) == MonthTotal(t, m)
  {
    if t != [] {
      SellerEntriesSpec(t[1..], k, m);
      var rest := SellerEntries(t[1..]);
      if t[0].month.Some? && t[0].seller.Some? {
        var x := (ByMonthSeller(t[0].month.value, t[0].seller.value), Amount(t[0]));
        KeysOfCons(x, rest);
        assert ([x] + rest)[1..] == rest;
      } else {
        assert [] + rest == rest;
      }
      if k.ByMonthSeller? {
        assert HasMonthSeller(t, k.month, k.seller) <==>
          (t[0].month == Some(k.month) && t[0].seller == Some(k.seller)) || HasMonthSeller(t[1..], k.month, k.seller)
        by {
          if HasMonthSeller(t, k.month, k.seller) {
            var i :| 0 <= i < |t| && t[i].month == Some(k.month) && t[i].seller == Some(k.seller);
            if i > 0 { assert t[1..][i - 1] == t[i]; }
          }
          if HasMonthSeller(t[1..], k.month, k.seller) {
            var i :| 0 <= i < |t[1..]| && t[1..][i].month == Some(k.month) && t[1..][i].seller == Some(k.seller);
            assert t[i + 1] == t[1..][i];
          }
        }
      }
    }
  }

  /** Monthly chart data: one entry per distinct present month, in ascending
      order, each the month's summed revenue. */
  lemma MonthlyTotalsCorrect(t: Table)
    ensures Ascending(MonthlyTotals(t))
    ensures forall k :: k in KeysOf(MonthlyTotals(t)) <==> k.ByMonth? && HasMonth(t, k.month)
    ensures forall i | 0 <= i < |MonthlyTotals(t)| ::
      MonthlyTotals(t)[i].1 == MonthTotal(t, MonthlyTotals(t)[i].0.month)
  {
    GroupSumCorrect(MonthEntries(t));
    forall k ensures k in KeysOf(MonthlyTotals(t)) <==> k.ByMonth? && HasMonth(t, k.month) {
      MonthEntriesSpec(t, k);
    }
    forall i | 0 <= i < |MonthlyTotals(t)|
      ensures MonthlyTotals(t)[i].1 == MonthTotal(t, MonthlyTotals(t)[i].0.month)
    {
      var k := MonthlyTotals(t)[i].0;
      assert k in KeysOf(MonthlyTotals(t));
      MonthEntriesSpec(t, k);
    }
  }

  /** Per-seller chart data: one entry per present (month, seller) pair,
      ordered by month then seller, each that pair's summed revenue. */
  lemma SellerMonthlyTotalsCorrect(t: Table)
    ensures Ascending(SellerMonthlyTotals(t))
    ensures forall k :: k in KeysOf(SellerMonthlyTotals(t)) <==>
      k.ByMonthSeller? && HasMonthSeller(t, k.month, k.seller)
    ensures forall i | 0 <= i < |SellerMonthlyTotals(t)| ::
      SellerMonthlyTotals(t)[i].1
      == SellerMonthTotal(t, SellerMonthlyTotals(t)[i].0.month, SellerMonthlyTotals(t)[i].0.seller)
  {
    var g := SellerMonthlyTotals(t);
    GroupSumCorrect(SellerEntries(t));
    forall k ensures k in KeysOf(g) <==> k.ByMonthSeller? && HasMonthSeller(t, k.month, k.seller) {
      SellerEntriesSpec(t, k, k.month);
    }
    forall i | 0 <= i < |g| ensures g[i].0.ByMonthSeller? && g[i].1 == SellerMonthTotal(t, g[i].0.month, g[i].0.seller) {
      assert g[i].0 in KeysOf(g);
      SellerEntriesSpec(t, g[i].0, g[i].0.month);
    }
  }

  /** A month's seller totals add up to the month's total, less the revenue
      of that month's rows without a seller (which the second grouping drops). */
  lemma SellerTotalsAddUpToMonth(t: Table, m: YearMonth)
    ensures MonthSum(SellerMonthlyTotals(t), m) + UnassignedTotal(t, m) == MonthTotal(t, m)
  {
    GroupSumKeepsSums(SellerEntries(t), ByMonth(m), m);
    SellerEntriesSpec(t, ByMonth(m), m);
  }

  // ---------------------------------------------------------------- save_charts

  /** The table `save_charts` receives; it re-derives month and revenue in place. */
  class SalesFrame {
    var rows: Table

    constructor (rows: Table)
      ensures this.rows == rows
    {
      this.rows := rows;
    }

    /** Recompute `Monat` and `Gesamtumsatz` on the frame itself, then group. */
    method ChartTotals() returns (monthly: Totals, bySeller: Totals)
      modifies this
      ensures rows == Derive(old(rows))
      ensures monthly == MonthlyTotals(rows) && bySeller == SellerMonthlyTotals(rows)
    {
      rows := Derive(rows);
      monthly := MonthlyTotals(rows);
      bySeller := SellerMonthlyTotals(rows);
    }
  }

  /** Charting a cleaned table leaves its rows as they were. */
  method ChartCleaned(t: Table) returns (monthly: Totals, bySeller: Totals)
    ensures monthly == MonthlyTotals(Clean(t)) && bySeller == SellerMonthlyTotals(Clean(t))
  {
    var frame := new SalesFrame(Clean(t));
    monthly, bySeller := frame.ChartTotals();
    DeriveKeepsCleaned(t);
    assert frame.rows == Clean(t);
  }
}

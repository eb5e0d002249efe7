/**
  `clean_data`: the fixed sequence of whole-column transforms applied to a
  loaded sales table. Each step is a function over the table; `Clean`
  composes them in the source's order.
 */
module Cleaning {
  import opened Optional
  import opened Dates
  import opened Titles
  import opened Sales
  import opened Dedup

  // ---------------------------------------------------------------- step 2

  /** `parse_date`: the canonical `YYYY-MM-DD` form of a date cell, or missing
      when the cell is missing or does not parse. */
  function NormalizedDate(raw: Option<string>): (d: Option<string>)
    ensures d.Some? <==> raw.Some? && ParseDate(raw.value).Some?
    ensures d.Some? ==> IsCanonical(d.value) && ParseDate(d.value) == ParseDate(raw.value)
  {
    if raw.None? then None
    else match ParseDate(raw.value)
      case None => None
      case Some(day) => FormatRoundTrip(day); Some(Format(day))
  }

  function NormalizeDates(t: Table): Table {
    seq(|t|, i requires 0 <= i < |t| => t[i].(date := NormalizedDate(t[i].date)))
  }

  // ---------------------------------------------------------------- step 3

  /** `ffill` with `carry` as the last date seen before `t`. */
  function FillForward(t: Table, carry: Option<string>): (r: Table)
    ensures |r| == |t|
    ensures forall i | 0 <= i < |t| :: r[i] == t[i].(date := r[i].date)
    ensures forall i | 0 <= i < |t| :: t[i].date.Some? ==> r[i].date == t[i].date
  {
    if t == [] then []
    else
      var d := if t[0].date.Some? then t[0].date else carry;
      [t[0].(date := d)] + FillForward(t[1..], d)
  }

  function FillDates(t: Table): Table {
    FillForward(t, None)
  }

  /** The nearest present date in a row before row `i`, if any. */
  function PrecedingDate(t: Table, i: int): Option<string>
    requires 0 <= i <= |t|
  {
    if i == 0 then None
    else if t[i - 1].date.Some? then t[i - 1].date
    else PrecedingDate(t, i - 1)
  }

  lemma {:induction false} PrecedingDateShift(t: Table, i: int)
    requires 1 <= i <= |t|
    ensures PrecedingDate(t, i)
            == if PrecedingDate(t[1..], i - 1).Some? then PrecedingDate(t[1..], i - 1) else t[0].date
  {
    if i > 1 {
      assert t[1..][i - 2] == t[i - 1];
      PrecedingDateShift(t, i - 1);
    }
  }

  lemma {:induction false} FillForwardAt(t: Table, carry: Option<string>, i: int)
    requires 0 <= i < |t|
    ensures FillForward(t, carry)[i].date
            == if t[i].date.Some? then t[i].date
               else if PrecedingDate(t, i).Some? then PrecedingDate(t, i)
               else carry
  {
    if i > 0 {
      var d := if t[0].date.Some? then t[0].date else carry;
      FillForwardAt(t[1..], d, i - 1);
      PrecedingDateShift(t, i);
      assert t[1..][i - 1] == t[i];
    }
  }

  /** Forward fill: a present date is kept, a missing one takes the nearest
      preceding present date, and nothing but the date column changes. */
  lemma FillDatesSpec(t: Table)
    ensures |FillDates(t)| == |t|
    ensures forall i | 0 <= i < |t| :: FillDates(t)[i] == t[i].(date := FillDates(t)[i].date)
    ensures forall i | 0 <= i < |t| ::
      FillDates(t)[i].date == if t[i].date.Some? then t[i].date else PrecedingDate(t, i)
  {
    forall i | 0 <= i < |t|
      ensures FillDates(t)[i].date == if t[i].date.Some? then t[i].date else PrecedingDate(t, i)
    {
      FillForwardAt(t, None, i);
    }
  }

  lemma {:induction false} PrecedingDateFound(t: Table, j: int, i: int)
    requires 0 <= j < i <= |t| && t[j].date.Some?
    ensures PrecedingDate(t, i).Some?
  {
    if j < i - 1 && t[i - 1].date.None? {
      PrecedingDateFound(t, j, i - 1);
    }
  }

  lemma {:induction false} PrecedingDateNone(t: Table, i: int)
    requires 0 <= i <= |t|
    requires forall j | 0 <= j < i :: t[j].date.None?
    ensures PrecedingDate(t, i).None?
  {
    if i > 0 {
      PrecedingDateNone(t, i - 1);
    }
  }

  /** The filled date is one of the dates already present earlier in the table. */
  lemma {:induction false} PrecedingDateIsEarlier(t: Table, i: int)
    requires 0 <= i <= |t|
    requires PrecedingDate(t, i).Some?
    ensures exists j | 0 <= j < i :: t[j].date == PrecedingDate(t, i)
  {
    if t[i - 1].date.None? {
      PrecedingDateIsEarlier(t, i - 1);
    }
  }

  /** Rows before the first present date stay missing; every row at or after it has a date. */
  lemma FillDatesLeadingRun(t: Table, i: int)
    requires 0 <= i < |t|
    ensures FillDates(t)[i].date.None? <==> forall j | 0 <= j <= i :: t[j].date.None?
  {
    FillDatesSpec(t);
    if forall j | 0 <= j <= i :: t[j].date.None? {
      PrecedingDateNone(t, i);
    } else {
      var j :| 0 <= j <= i && t[j].date.Some?;
      if j < i { PrecedingDateFound(t, j, i); }
    }
  }

  // ---------------------------------------------------------------- steps 4-6

  /** `fill_verkaeufer`. */
  function FillSeller(r: Row): (f: Row)
    ensures f == r.(seller := f.seller)
    ensures r.seller.Some? ==> f.seller == r.seller
    ensures r.seller.None? && r.region.Some? && IsKnownRegion(r.region.value) ==> f.seller.Some? && IsKnownSeller(f.seller.value)
    ensures r.seller.None? && (r.region.None? || !IsKnownRegion(r.region.value)) ==> f.seller.None?
  {
    if r.seller.None? then r.(seller := SellerForRegion(r.region)) else r
  }

  function ImputeSellers(t: Table): Table {
    seq(|t|, i requires 0 <= i < |t| => FillSeller(t[i]))
  }

  /** `str.title()` on the seller column; a missing seller stays missing. */
  function TitleSeller(r: Row): (u: Row)
    ensures u == r.(seller := u.seller)
    ensures u.seller.Some? <==> r.seller.Some?
    ensures u.seller.Some? ==> IsTitled(u.seller.value) && |u.seller.value| == |r.seller.value|
  {
    match r.seller
    case None => r
    case Some(s) => TitleIsTitled(s); r.(seller := Some(Title(s)))
  }

  function TitleSellers(t: Table): Table {
    seq(|t|, i requires 0 <= i < |t| => TitleSeller(t[i]))
  }

  /** `fill_region`. */
  function FillRegion(r: Row): (f: Row)
    ensures f == r.(region := f.region)
    ensures r.region.Some? ==> f.region == r.region
    ensures r.region.None? && r.seller.Some? && IsKnownSeller(r.seller.value) ==> f.region.Some? && IsKnownRegion(f.region.value)
    ensures r.region.None? && (r.seller.None? || !IsKnownSeller(r.seller.value)) ==> f.region.None?
  {
    if r.region.None? then r.(region := RegionForSeller(r.seller)) else r
  }

  function ImputeRegions(t: Table): Table {
    seq(|t|, i requires 0 <= i < |t| => FillRegion(t[i]))
  }

  // ---------------------------------------------------------------- steps 7-8

  /** `pd.to_datetime(Datum).dt.to_period('M')`. */
  function MonthOfDate(date: Option<string>): Option<YearMonth> {
    if date.None? then None
    else match ParseDate(date.value)
      case None => None
      case Some(day) => Some(MonthOf(day))
  }

  function WithDerived(r: Row): (w: Row)
    ensures w == r.(month := w.month, total := w.total)
    ensures w.month.Some? <==> r.date.Some? && ParseDate(r.date.value).Some?
    ensures w.month.Some? ==> w.month.value == MonthOf(ParseDate(r.date.value).value)
    ensures w.total.Some? <==> r.quantity.Some? && r.unitPrice.Some?
    ensures w.total.Some? ==> w.total.value == r.quantity.value * r.unitPrice.value
  {
    r.(month := MonthOfDate(r.date), total := Revenue(r.quantity, r.unitPrice))
  }

  /** Derive `Monat` and overwrite `Gesamtumsatz`. */
  function Derive(t: Table): (r: Table)
    ensures |r| == |t|
    ensures forall i | 0 <= i < |t| :: r[i] == t[i].(month := r[i].month, total := r[i].total)
    ensures forall i | 0 <= i < |t| :: WithDerived(r[i]) == r[i]
  {
    seq(|t|, i requires 0 <= i < |t| => WithDerived(t[i]))
  }

  // ---------------------------------------------------------------- the pipeline

  function Clean(t: Table): (r: Table)
    ensures |r| == |FirstIndices(t)|
  {
    DropDuplicatesKeepsFirstOccurrences(t);
    Derive(ImputeRegions(TitleSellers(ImputeSellers(FillDates(NormalizeDates(DropDuplicates(t)))))))
  }

  /** The date column after steps 1-3 (before steps 4-8, which do not touch it). */
  function FilledDates(t: Table): Table {
    FillDates(NormalizeDates(DropDuplicates(t)))
  }

  /** Steps 4-8 work row by row on the filled table. */
  lemma CleanAt(t: Table, k: int)
    requires 0 <= k < |FilledDates(t)|
    ensures |Clean(t)| == |FilledDates(t)| == |DropDuplicates(t)|
    ensures Clean(t)[k] == WithDerived(FillRegion(TitleSeller(FillSeller(FilledDates(t)[k]))))
  {
    FillDatesSpec(NormalizeDates(DropDuplicates(t)));
  }

  /** Steps 1-3 leave every column but the date as deduplication left it. */
  lemma FilledAt(t: Table, k: int)
    requires 0 <= k < |DropDuplicates(t)|
    ensures |FilledDates(t)| == |DropDuplicates(t)|
    ensures FilledDates(t)[k] == DropDuplicates(t)[k].(date := FilledDates(t)[k].date)
    ensures FilledDates(t)[k].date
            == if NormalizedDate(DropDuplicates(t)[k].date).Some? then NormalizedDate(DropDuplicates(t)[k].date)
               else PrecedingDate(NormalizeDates(DropDuplicates(t)), k)
  {
    FillDatesSpec(NormalizeDates(DropDuplicates(t)));
  }

  /** Every step after deduplication keeps the rows and their order: the
      output rows are the first occurrences, and product, quantity, unit price
      and comment are copied unchanged. */
  lemma CleanKeepsFirstOccurrences(t: Table)
    ensures |Clean(t)| == |FirstIndices(t)|
    ensures forall k | 0 <= k < |Clean(t)| ::
      var c, s := Clean(t)[k], t[FirstIndices(t)[k]];
      c.product == s.product && c.quantity == s.quantity && c.unitPrice == s.unitPrice && c.comment == s.comment
  {
    DropDuplicatesKeepsFirstOccurrences(t);
    FillDatesSpec(NormalizeDates(DropDuplicates(t)));
  }

  /** Revenue is recomputed for every row, whatever the input value was. */
  lemma CleanTotals(t: Table)
    ensures |Clean(t)| == |FirstIndices(t)|
    ensures forall k | 0 <= k < |Clean(t)| :: Clean(t)[k].total == Revenue(Clean(t)[k].quantity, Clean(t)[k].unitPrice)
    ensures forall k | 0 <= k < |Clean(t)| ::
      Clean(t)[k].total == Revenue(t[FirstIndices(t)[k]].quantity, t[FirstIndices(t)[k]].unitPrice)
  {
    CleanKeepsFirstOccurrences(t);
  }

  /** Every present date of the cleaned table is canonical and carries its
      month; a row whose own date parses keeps that day, and a row whose date
      is missing or unparseable takes the nearest earlier parsed date. */
  lemma CleanDates(t: Table)
    ensures |Clean(t)| == |DropDuplicates(t)|
    ensures forall k | 0 <= k < |Clean(t)| :: Clean(t)[k].date.Some? ==>
      IsCanonical(Clean(t)[k].date.value)
      && Clean(t)[k].month == Some(MonthOf(ParseDate(Clean(t)[k].date.value).value))
    ensures forall k | 0 <= k < |Clean(t)| :: Clean(t)[k].date.None? ==> Clean(t)[k].month.None?
    ensures forall k | 0 <= k < |Clean(t)| :: NormalizedDate(DropDuplicates(t)[k].date).Some? ==>
      Clean(t)[k].date == NormalizedDate(DropDuplicates(t)[k].date)
    ensures forall k | 0 <= k < |Clean(t)| :: NormalizedDate(DropDuplicates(t)[k].date).None? ==>
      Clean(t)[k].date == PrecedingDate(NormalizeDates(DropDuplicates(t)), k)
  {
    var n := NormalizeDates(DropDuplicates(t));
    FillDatesSpec(n);
    forall k | 0 <= k < |Clean(t)| && Clean(t)[k].date.Some?
      ensures IsCanonical(Clean(t)[k].date.value)
    {
      if n[k].date.None? {
        PrecedingDateIsEarlier(n, k);
      }
    }
  }

  /** Only rows before the first parseable date are left without a date. */
  lemma CleanDateMissing(t: Table, k: int)
    requires 0 <= k < |Clean(t)|
    ensures Clean(t)[k].date.None? <==>
      forall j | 0 <= j <= k :: NormalizedDate(DropDuplicates(t)[j].date).None?
  {
    var n := NormalizeDates(DropDuplicates(t));
    CleanAt(t, k);
    FillDatesLeadingRun(n, k);
    assert forall j | 0 <= j < |n| :: n[j].date == NormalizedDate(DropDuplicates(t)[j].date);
  }

  /** The three known sellers' names are already in title case. */
  lemma KnownSellerIsTitled(s: string)
    requires IsKnownSeller(s)
    ensures Title(s) == s
  {
    TitleIs(s, s);
  }

  /** Title-casing leaves the seller `fill_verkaeufer` writes as it is. */
  lemma TitleKeepsImputedSeller(region: Option<string>)
    requires SellerForRegion(region).Some?
    ensures Title(SellerForRegion(region).value) == SellerForRegion(region).value
  {
    KnownSellerIsTitled(SellerForRegion(region).value);
  }

  lemma CleanSellerAt(t: Table, k: int)
    requires 0 <= k < |Clean(t)|
    ensures Clean(t)[k].seller.Some? ==> IsTitled(Clean(t)[k].seller.value)
    ensures DropDuplicates(t)[k].seller.Some? ==>
      Clean(t)[k].seller == Some(Title(DropDuplicates(t)[k].seller.value))
    ensures DropDuplicates(t)[k].seller.None? ==>
      Clean(t)[k].seller == SellerForRegion(DropDuplicates(t)[k].region)
  {
    CleanAt(t, k);
    FilledAt(t, k);
    var s := FillSeller(FilledDates(t)[k]).seller;
    if s.Some? {
      TitleIsTitled(s.value);
      if DropDuplicates(t)[k].seller.None? {
        TitleKeepsImputedSeller(DropDuplicates(t)[k].region);
      }
    }
  }

  /** Every present seller is title-cased; a present seller is only
      re-cased, and a missing one is taken from its region when the region is
      one of the three known ones. */
  lemma CleanSellers(t: Table)
    ensures |Clean(t)| == |DropDuplicates(t)|
    ensures forall k | 0 <= k < |Clean(t)| :: Clean(t)[k].seller.Some? ==> IsTitled(Clean(t)[k].seller.value)
    ensures forall k | 0 <= k < |Clean(t)| :: DropDuplicates(t)[k].seller.Some? ==>
      Clean(t)[k].seller == Some(Title(DropDuplicates(t)[k].seller.value))
    ensures forall k | 0 <= k < |Clean(t)| :: DropDuplicates(t)[k].seller.None? ==>
      Clean(t)[k].seller == SellerForRegion(DropDuplicates(t)[k].region)
  {
    FillDatesSpec(NormalizeDates(DropDuplicates(t)));
    forall k | 0 <= k < |Clean(t)|
      ensures Clean(t)[k].seller.Some? ==> IsTitled(Clean(t)[k].seller.value)
      ensures DropDuplicates(t)[k].seller.Some? ==>
        Clean(t)[k].seller == Some(Title(DropDuplicates(t)[k].seller.value))
      ensures DropDuplicates(t)[k].seller.None? ==>
        Clean(t)[k].seller == SellerForRegion(DropDuplicates(t)[k].region)
    {
      CleanSellerAt(t, k);
    }
  }

  lemma CleanRegionAt(t: Table, k: int)
    requires 0 <= k < |Clean(t)|
    ensures DropDuplicates(t)[k].region.Some? ==> Clean(t)[k].region == DropDuplicates(t)[k].region
    ensures DropDuplicates(t)[k].region.None? ==> Clean(t)[k].region == RegionForSeller(Clean(t)[k].seller)
    ensures Clean(t)[k].seller.Some? && IsKnownSeller(Clean(t)[k].seller.value) ==> Clean(t)[k].region.Some?
    ensures Clean(t)[k].region.Some? && IsKnownRegion(Clean(t)[k].region.value) ==> Clean(t)[k].seller.Some?
  {
    CleanAt(t, k);
    FilledAt(t, k);
  }

  /** A present region is kept; a missing one is taken from the title-cased
      seller. Hence a known seller always has a region, and a known region
      always has a seller. */
  lemma CleanRegions(t: Table)
    ensures |Clean(t)| == |DropDuplicates(t)|
    ensures forall k | 0 <= k < |Clean(t)| :: DropDuplicates(t)[k].region.Some? ==>
      Clean(t)[k].region == DropDuplicates(t)[k].region
    ensures forall k | 0 <= k < |Clean(t)| :: DropDuplicates(t)[k].region.None? ==>
      Clean(t)[k].region == RegionForSeller(Clean(t)[k].seller)
    ensures forall k | 0 <= k < |Clean(t)| ::
      Clean(t)[k].seller.Some? && IsKnownSeller(Clean(t)[k].seller.value) ==> Clean(t)[k].region.Some?
    ensures forall k | 0 <= k < |Clean(t)| ::
      Clean(t)[k].region.Some? && IsKnownRegion(Clean(t)[k].region.value) ==> Clean(t)[k].seller.Some?
  {
    FillDatesSpec(NormalizeDates(DropDuplicates(t)));
    forall k | 0 <= k < |Clean(t)|
      ensures DropDuplicates(t)[k].region.Some? ==> Clean(t)[k].region == DropDuplicates(t)[k].region
      ensures DropDuplicates(t)[k].region.None? ==> Clean(t)[k].region == RegionForSeller(Clean(t)[k].seller)
      ensures Clean(t)[k].seller.Some? && IsKnownSeller(Clean(t)[k].seller.value) ==> Clean(t)[k].region.Some?
      ensures Clean(t)[k].region.Some? && IsKnownRegion(Clean(t)[k].region.value) ==> Clean(t)[k].seller.Some?
    {
      CleanRegionAt(t, k);
    }
  }

  /** Appending a copy of a row already present (comment aside) does not
      change the cleaned table. */
  lemma CleanIgnoresAppendedDuplicate(t: Table, x: Row)
    requires KeyOf(x) in KeySet(t)
    ensures Clean(t + [x]) == Clean(t)
  {
    AppendDuplicate(t, x);
  }

  /** Recomputing month and revenue on a cleaned table changes nothing. */
  lemma DeriveKeepsCleaned(t: Table)
    ensures Derive(Clean(t)) == Clean(t)
  {
  }
}

# Sales data cleaning tool — a verified model of its core

The tool loads a table of sales transactions with these columns:

- date (`Datum`)
- seller (`Verkäufer`)
- region
- product (`Produkt`)
- quantity (`Verkaufte Menge`)
- unit price (`Umsatz pro Einheit`)
- total revenue (`Gesamtumsatz`)
- comment (`Kommentar`)

It cleans the table, writes it to a workbook, and charts monthly revenue. This project models the three pieces of that program that carry its logic.

- **`clean_data`** (`Cleaning.Clean`): eight whole-column steps applied in order.
  1. Drop duplicate rows, comparing every column except the comment and keeping the first occurrence (`Dedup.DropDuplicates`).
  2. Rewrite every date that parses into canonical `YYYY-MM-DD` form (`Cleaning.NormalizedDate`). A date that does not parse becomes missing.
  3. Forward-fill the missing dates (`Cleaning.FillForward`).
  4. Give a missing seller the seller responsible for the row's region.
  5. Title-case the seller names (`Titles.Title`).
  6. Give a missing region the region of the row's seller.
  7. Derive the month (`Monat`).
  8. Recompute the total as quantity × unit price.

  The date parser (`Dates.ParseDate`) reads three layouts: `MM/DD/YYYY`, `YYYY-MM-DD` and `MM-DD-YYYY`. It checks the calendar, including leap years, and the range a nanosecond timestamp can hold. Outside that range the coercing parser yields a missing value.
- **The two group-by sums of `save_charts`** (`Aggregation`):
  - Revenue per month, and revenue per month and seller.
  - Rows whose key is missing are dropped. A missing amount adds nothing.
  - Groups come out in ascending key order: months first, then seller names in Python's string order.
  - `save_charts` first recomputes month and total on the frame it is given. That frame is modelled as the class `Aggregation.SalesFrame`.
- **`_adjust_column_widths`** (`ColumnWidths`):
  - A `Worksheet` class holds its columns' cells and a mutable width per column.
  - Each column's width is set to the length of its longest cell, as `str` writes it, plus 2. A cell holding no value reads `None`.

Cells that pandas holds as NaN are `None` in `Optional.Option`. Quantities, prices and totals are integers.

Cleaning is not idempotent. Deduplication runs before dates are normalised. Two copies of one sale that spell the date in different layouts therefore both survive a first cleaning, and a second cleaning merges them. `CleaningExamples.CleanIsNotIdempotent` exhibits this. The model follows the code.

## Model

| member | source | states |
|---|---|---|
| Dates.Format | data_cleaning_tool.py:223 | `strftime('%Y-%m-%d')`: ten characters with dashes at positions 4 and 7; read back as the same day (FormatRoundTrip) and canonical (FormatIsCanonical) |
| Dates.ParseDate | data_cleaning_tool.py:221-225 | A day is produced exactly when the string spells, in one of the three layouts, a real calendar day inside the timestamp range, and it is that day; anything else is missing (complete: FormatRoundTrip, MonthFirstRoundTrip; sound: ParseDateSound) |
| Dates.ParseDateSound | data_cleaning_tool.py:223 | A string read as a day is one of that day's three renderings (`YYYY-MM-DD`, `MM/DD/YYYY`, `MM-DD-YYYY`); the parser accepts nothing else |
| Dates.PaddedOfDigits | data_cleaning_tool.py:223 | A digit string is the zero-padded rendering of the number it spells |
| Dates.MonthFirstRoundTrip | data_cleaning_tool.py:223 | Every valid day written as `MM/DD/YYYY` or `MM-DD-YYYY` is read as that day |
| Dates.PaddedRoundTrip | data_cleaning_tool.py:223 | A zero-padded field reads back as the number it renders |
| Dates.FormatRoundTrip | data_cleaning_tool.py:223 | Rendering a day as `YYYY-MM-DD` and parsing it back gives the same day |
| Dates.CanonicalIsUnique | data_cleaning_tool.py:221-228 | Two canonical date strings naming the same day are the same string, which is why a later deduplication merges rows whose dates were written in different layouts (CleanIsNotIdempotent) |
| Dates.FormatIsCanonical | data_cleaning_tool.py:223 | The rendering is in canonical `YYYY-MM-DD` form |
| Dates.UsSlashLayoutExample | test_data_cleaning.py:25 | `01/25/2024` parses to 25 January 2024 |
| Dates.IsoLayoutExample | test_data_cleaning.py:25 | `2024-01-26` parses to 26 January 2024 |
| Dates.UsDashLayoutExample | test_data_cleaning.py:25 | `01-27-2024` parses to 27 January 2024 |
| Titles.Title | data_cleaning_tool.py:247 | `str.title`: keeps the length; its output is in title case (TitleIsTitled), it fixes titled names (TitledIsFixed), it is idempotent (TitleIsIdempotent), and it changes only case (TitleKeepsLetters) |
| Titles.TitleIsTitled | data_cleaning_tool.py:247 | Every character of `str.title`'s output is upper case at the start of a word and lower case inside one |
| Titles.TitledIsFixed | data_cleaning_tool.py:247 | A name already in title case is unchanged |
| Titles.TitleIsIdempotent | data_cleaning_tool.py:247 | Title-casing twice is title-casing once |
| Titles.TitleKeepsLetters | data_cleaning_tool.py:247 | Title-casing changes only the case of letters: each position keeps its letter, or its non-letter |
| Titles.TitleExamples | test_data_cleaning.py:26 | `STEFAN BERGER` becomes `Stefan Berger`; `peter schmidt` becomes `Peter Schmidt` |
| Sales.LookupsAreInverse | data_cleaning_tool.py:234-258 | The seller-for-region and region-for-seller tables are inverse on the three known pairs and undefined elsewhere |
| Dedup.DropDuplicates | data_cleaning_tool.py:215-218 | Never more rows than before, the same set of keys (all columns but the comment), and no key twice |
| Dedup.FirstIndices | data_cleaning_tool.py:215-218 | The increasing positions of exactly the rows whose key has not occurred earlier |
| Dedup.DropDuplicatesKeepsFirstOccurrences | data_cleaning_tool.py:215-218 | The kept rows are the first occurrences (`keep='first'`), in their original order |
| Dedup.AppendDuplicate | data_cleaning_tool.py:215-218 | A row whose key already occurs is dropped |
| Dedup.DistinctIsFixed | data_cleaning_tool.py:215-218 | A table without duplicate keys is unchanged |
| Dedup.DropDuplicatesIsIdempotent | data_cleaning_tool.py:215-218 | Deduplicating twice is deduplicating once |
| Cleaning.Clean | data_cleaning_tool.py:210-266 | `clean_data`: one output row per first occurrence; what each column then holds is proved in CleanKeepsFirstOccurrences, CleanDates, CleanSellers, CleanRegions and CleanTotals |
| Cleaning.NormalizedDate | data_cleaning_tool.py:221-228 | A date cell becomes present exactly when it was present and parses; it is then canonical and denotes the same day |
| Cleaning.FillForward | data_cleaning_tool.py:231 | Forward filling keeps the row count, changes only the date column, and keeps every present date |
| Cleaning.FillDatesSpec | data_cleaning_tool.py:231 | A missing date takes the nearest present date in an earlier row |
| Cleaning.PrecedingDateIsEarlier | data_cleaning_tool.py:231 | A filled-in date is copied from some earlier row |
| Cleaning.FillDatesLeadingRun | data_cleaning_tool.py:231 | A date stays missing exactly when it and every earlier date are missing |
| Cleaning.CleanKeepsFirstOccurrences | data_cleaning_tool.py:210-266 | The cleaned rows are the first occurrences in order; product, quantity, unit price and comment are copied unchanged |
| Cleaning.CleanDates | data_cleaning_tool.py:221-263 | Every present cleaned date is canonical and carries its month; a parseable date keeps its day; a missing or unparseable one takes the nearest earlier parsed date; no date, no month |
| Cleaning.CleanDateMissing | data_cleaning_tool.py:228-231 | A cleaned date is missing exactly when no date up to that row parses |
| Cleaning.FillSeller | data_cleaning_tool.py:234-242 | `fill_verkaeufer`: only the seller changes; a present seller is kept; a missing one becomes a known seller exactly when the region is a known region, and stays missing otherwise |
| Cleaning.TitleSeller | data_cleaning_tool.py:247 | Only the seller changes; it is present exactly when it was, and then in title case and of the same length |
| Cleaning.FillRegion | data_cleaning_tool.py:250-258 | `fill_region`: only the region changes; a present region is kept; a missing one becomes a known region exactly when the seller is a known seller, and stays missing otherwise |
| Cleaning.WithDerived | data_cleaning_tool.py:263-264 | Only month and total change; the month is present exactly when the date parses, and is that day's month; the total is present exactly when quantity and unit price are, and is their product |
| Cleaning.Derive | data_cleaning_tool.py:263-264 | Row count kept, only month and total change, and deriving again changes nothing (also DeriveKeepsCleaned) |
| Cleaning.KnownSellerIsTitled | data_cleaning_tool.py:237-247 | The three known sellers' names are unchanged by title-casing |
| Cleaning.TitleKeepsImputedSeller | data_cleaning_tool.py:234-247 | The imputed names are already in title case |
| Cleaning.CleanSellers | data_cleaning_tool.py:234-247 | Every present seller is title-cased; a present seller is the title case of the input; a missing one is the region's seller |
| Cleaning.CleanRegions | data_cleaning_tool.py:250-260 | A present region is kept; a missing one is the seller's region; known sellers end with a region, and known regions with a seller |
| Cleaning.CleanTotals | data_cleaning_tool.py:264 | Every total is quantity × unit price of the kept input row, whatever total it had |
| Cleaning.CleanIgnoresAppendedDuplicate | data_cleaning_tool.py:215-218 | Appending a duplicate of an existing row does not change the cleaned table |
| CleaningExamples.TestTableHasNoDuplicates | test_data_cleaning.py:24-33 | The test table has no duplicate rows |
| CleaningExamples.TestCleanData | test_data_cleaning.py:37-60 | Cleaning the test table gives three rows; the first has region `AMERICAS`, date `2024-01-25` and total 57 × 1449 |
| CleaningExamples.TestDropDuplicates | test_data_cleaning.py:47-55 | Cleaning the test table with its first row appended again gives as many rows as the test table |
| CleaningExamples.CleanSameSale | data_cleaning_tool.py:215-228 | One sale recorded twice, with its date in two layouts: both records survive deduplication and clean to two equal rows |
| CleaningExamples.CleanCollapsesPair | data_cleaning_tool.py:215-218 | Two identical rows clean to one |
| CleaningExamples.CleanIsNotIdempotent | data_cleaning_tool.py:215-231 | A table whose first cleaning keeps two rows and whose second cleaning keeps one |
| Aggregation.KeyLessIsStrictTotalOrder | data_cleaning_tool.py:276 | The group order (month, then seller) is irreflexive, transitive and total |
| Aggregation.GroupSumCorrect | data_cleaning_tool.py:276 | Grouping yields ascending distinct keys, exactly the input's keys, each with the sum of its entries |
| Aggregation.MonthlyTotals | data_cleaning_tool.py:276 | `groupby('Monat')['Gesamtumsatz'].sum()`: keys ascending; one entry per month that occurs, each the month's revenue (MonthlyTotalsCorrect) |
| Aggregation.SellerMonthlyTotals | data_cleaning_tool.py:295 | `groupby(['Monat', 'Verkäufer'])['Gesamtumsatz'].sum()`: keys ascending; one entry per (month, seller) pair, each that pair's revenue (SellerMonthlyTotalsCorrect, SellerTotalsAddUpToMonth) |
| Aggregation.MonthlyTotalsCorrect | data_cleaning_tool.py:276 | Monthly totals: ascending, one entry per month that occurs, each the month's revenue with missing amounts as 0 |
| Aggregation.SellerMonthlyTotalsCorrect | data_cleaning_tool.py:295 | Seller totals: ascending, one entry per (month, seller) pair that occurs, each that pair's revenue |
| Aggregation.SellerTotalsAddUpToMonth | data_cleaning_tool.py:295 | For each month, the seller totals plus the revenue of rows without a seller equal the monthly total |
| Aggregation.SalesFrame.ChartTotals | data_cleaning_tool.py:273-276 | The frame's month and total are recomputed in place, and both charts' totals are taken from the recomputed rows |
| Aggregation.ChartCleaned | data_cleaning_tool.py:273-295 | Charting a cleaned table gives the totals of the cleaned rows themselves: the recompute changes nothing |
| ColumnWidths.MaxLength | data_cleaning_tool.py:197 | No cell of the column is longer than the maximum |
| ColumnWidths.MaxLengthIsAttained | data_cleaning_tool.py:197 | Some cell of the column is exactly as long as the maximum |
| ColumnWidths.ColumnMaxLength | data_cleaning_tool.py:197 | The loop returns the length of the longest cell: no cell is longer and some cell is that long |
| ColumnWidths.AdjustSheet | data_cleaning_tool.py:196-199 | Every column of the sheet gets its fitted width, and the widths of other columns are unchanged |
| ColumnWidths.AdjustColumnWidths | data_cleaning_tool.py:195-199 | Every worksheet of the workbook gets its fitted widths |
| ColumnWidths.FittedWidthsFit | data_cleaning_tool.py:196-198 | Each fitted width leaves at least 2 spare characters for every cell, and exactly 2 for the longest |
| ColumnWidths.EmptyColumnExample | data_cleaning_tool.py:197 | A column holding one cell without a value is 6 wide, since `str(None)` is `None` |
| ColumnWidths.DateColumnExample | data_cleaning_tool.py:197 | A date column with a header and a cell holding no value is 12 wide |

## Left out

- The GUI, its dialogs and progress bar, file loading and saving, the locale setting and month-name labels, the plots, temporary image files, the workbook export and sheet reordering: these are I/O and presentation.
- Dates.ParseDate: reads only the three 10-character layouts of the test data (test_data_cleaning.py:25). Other formats pandas infers are not modelled, nor are surrounding whitespace, time parts or non-string date cells; they become missing here.
- Dates.ParseDate: does not read day-first dates. pandas reads `13/01/2024` as 13 January 2024, because no month is 13; the model gives a missing date, which forward filling then replaces with the previous row's date.
- Cleaning.NormalizedDate: treats a Python `None` in the date column like NaN, as a missing date. In the source, `pd.to_datetime(None, errors='coerce')` returns `None`, and `None.strftime` raises `AttributeError`, which the `ValueError` handler does not catch, so `clean_data` fails on such a table. Only NaN takes the path to a missing date.
- Sales.Revenue and Aggregation.GroupSum: use unbounded integers. The source multiplies and sums 64-bit integer columns, which wrap around silently on overflow; that wrap-around is not modelled.
- Cleaning.TitleSeller: does not model the failure of line 247 when the seller column holds no text at all. If every seller is missing and no region is known, the column stays numeric (NaN only), and `.str.title()` raises `AttributeError`; the model returns the table with every seller missing.
- Aggregation.SalesFrame.ChartTotals: does not model the failure of lines 263 and 273 on an unparseable date. `pd.to_datetime` is called there without `errors='coerce'`, so such text raises; the model gives a missing month. A cleaned table never holds such a date (CleanDates), and `process_data` only charts cleaned tables.
- Titles.Title: knows the letters of ASCII and Latin-1 only. The special cases of `str.title` beyond them are not modelled: ß and ÿ at the start of a word, µ, ª, º, and letters outside Latin-1.
- Quantities, unit prices and totals are integers: floating-point amounts and their rounding are not modelled.
- ColumnWidths.AdjustSheet: keys widths by column position rather than by column letter. Cell values other than no value, text and integers (floats, dates, formulas) are not modelled. What the workbook holds is not modelled either: that `to_excel` writes a missing value as empty text, and that a sheet holding only images has no columns.
- Aggregation.SellerMonthlyTotals: models the grouped series before `unstack()`. The pivot into a month × seller grid, with missing combinations filled with NaN, is presentation and is not modelled.
- The `Monat` column is a year-month value; its display as a pandas Period is not modelled.

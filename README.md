# France investor dashboard — verified model of its data pipeline

The dashboard reads small macro tables (GDP growth, inflation,
unemployment, each with a `Year`, a value column and an optional `Type`
label), cleans them, and draws each one as a line chart. The chart splits
historical from forecast points and overlays an "expected range" band that
the viewer sets with sliders. It also shows a fixed sector scorecard sorted
by its `Overall` score.

This project models the parts of `app.py` that compute something:

- `clean_macro` (module `Clean`). It copies the table, strips the `Type`
  labels of the copy in place, drops the rows whose year or value did not
  coerce to a number, and sorts the rest by year. The method `CleanMacro`
  does the copy and the in-place label update with an array and a loop. It
  is proved equal to the specification function `Cleaned`.
- The computing part of `plot_hist_forecast_band` (module `BandChart`): the
  historical/forecast partition, the band bounds, the connector between the
  two segments, the x-axis ticks and the legend entries. Drawing calls are
  represented by the data they would draw (`Chart`).
- The scorecard's `sort_values("Overall", ascending=False)` (module
  `Scorecard`).

Supporting modules:

- `Labels` holds `str.strip()`, `str.lower()` for the comparison, and the
  closed `Segment` enumeration a label parses into.
- `Sequences` holds the generic filter and sort the table operations stand
  for, with their lemmas.
- `Wrappers` holds `Option`: a cell that is missing or failed numeric
  coercion is `None`.

`sort_values` is called with pandas' default sort kind, which does not
promise a stable order for equal keys. So the promised contract
(`IsCleaningOf`, `SortByOverallDescending`) is "sorted and a permutation"
only. The lemmas `CleaningsAgreeOnYears` and `RankingOfAnySortedScorecard`
state what still holds for every tie order.

The caller's table is never modified. A `Frame` is a value, and
`CleanMacro` updates its own fresh array.

## Model

| member | source | states |
|---|---|---|
| `Clean.CleanMacro` | app.py:30-37 | Copying the rows, stripping the labels of the copy in place and then dropping and sorting gives exactly the specification `Cleaned(df)`. |
| `Clean.PreparedRow` | app.py:31-35 | The column updates keep each row's year and value. With a `Type` column they replace the label by its stripped text (an empty cell reads "nan"); without one the row is unchanged. |
| `Clean.CleanedIsCleaning` | app.py:30-37 | The cleaned table is sorted by year and holds only rows with both year and value. Each complete input row (label stripped) appears exactly as often as in the input, and nothing else appears. |
| `Clean.CleanedRowOrigin` | app.py:30-37 | No row is invented: every cleaned row is some complete input row after the label update, so it has a present year and value. |
| `Clean.CompleteRowSurvives` | app.py:36 | No usable row is lost: every input row with both year and value is in the cleaned table. |
| `Clean.CleaningRowsComplete` | app.py:36 | Every row of any correct cleaning (any tie order) has a present year and value. |
| `Clean.CleanedKindsStripped` | app.py:34-35 | With a `Type` column, every cleaned row carries a label with no surrounding whitespace. |
| `Clean.OnceKindStripped` | app.py:35 | Re-stripping a row of any correct cleaning changes nothing. |
| `Clean.CleaningIsFixed` | app.py:30-37 | A correct cleaning is left unchanged by the column updates and by the drop of incomplete rows. |
| `Clean.CleanedYears` | app.py:32-36 | The cleaned table's years are, up to order, the years of the caller's rows whose year and value both coerced. |
| `Clean.CleanedIdempotent` | app.py:30-37 | Cleaning a cleaned table returns it unchanged. |
| `Clean.CleanTwiceKeepsRowsAndYears` | app.py:30-37 | With any tie order, cleaning twice gives the same rows and the same year at every position as cleaning once. |
| `Clean.CleaningsAgreeOnYears` | app.py:36 | Any two correct cleanings of one table have the same length and the same year at every position; only equal-year rows may change places. |
| `Clean.ExampleDropsUnparsedValue` | app.py:32-36 | Rows 2021 (2.3), 2022 (value not a number) and 2023 (1.1) clean to the 2021 and 2023 rows in that order, labels kept. |
| `Sequences.SortBy` | app.py:36 | The sort standing for `sort_values` returns a sequence sorted by the key and a permutation of its input. |
| `Sequences.SortBySorted` | app.py:36 | Sorting an already sorted sequence returns it unchanged. |
| `Sequences.SortedPermutationsAgreeOnKeys` | app.py:36 | Two sorted orderings of the same elements have the same key at every position, whatever the tie order. |
| `Sequences.FilterCounts` | app.py:36 | A boolean-mask filter keeps each passing element as often as it occurs and drops every other one. |
| `Sequences.FilterAll` | app.py:36 | A filter every element passes returns its input unchanged. |
| `Sequences.FilterIsSubsequence` | app.py:44-45 | A filter keeps the relative order of what it keeps. |
| `Sequences.FilterKeepsSorted` | app.py:44-45 | A filter of a year-sorted table is year-sorted. |
| `Labels.TrimStartRemovesLeadingSpace` | app.py:35 | Trimming the start leaves a suffix that does not begin with whitespace, and everything removed is whitespace. |
| `Labels.TrimEndRemovesTrailingSpace` | app.py:35 | Trimming the end leaves a prefix that does not end with whitespace, and everything removed is whitespace. |
| `Labels.Strip` | app.py:35 | The stripped label neither begins nor ends with whitespace and is no longer than the original. |
| `Labels.StripPadding` | app.py:35 | Stripping any whitespace `p`, `q` from around an unpadded text `t` gives back exactly `t`. |
| `Labels.StripSplits` | app.py:35 | Every label is its stripped text with whitespace on either side. |
| `Labels.StripUnpadded` | app.py:35 | A label with no surrounding whitespace is left unchanged. |
| `Labels.StripIdempotent` | app.py:35 | Stripping twice equals stripping once. |
| `Labels.LowerMatchesCaseless` | app.py:44-45 | Comparing the lower-cased label with a lower-case word accepts exactly the spellings of that word with each letter in either case. |
| `Labels.ClassifyMeaning` | app.py:44-45 | A label parses to Historical exactly when it spells "historical" with each letter in either case, to Forecast exactly when it spells "forecast" that way, and to neither otherwise. |
| `Labels.PaddedLabelClassified` | app.py:35-45 | Any case variant of "historical" or "forecast", with any whitespace around it, parses to that segment after stripping. |
| `BandChart.PartitionSelects` | app.py:43-48 | With a `Type` column, `hist` holds exactly the rows labelled historical and `fcst` exactly those labelled forecast, with their multiplicities. Without one, `hist` is the whole table and `fcst` is empty. |
| `BandChart.PartitionDisjoint` | app.py:43-48 | No row is in both parts; a row labelled anything else is in neither. |
| `BandChart.PartitionKeepsOrder` | app.py:43-48 | Both parts are subsequences of the cleaned table, and both are year-sorted when the table is. |
| `BandChart.RowInItsPart` | app.py:43-45 | A row of a table with a `Type` column lands in the part its label names. |
| `BandChart.PaddedLabelLandsInItsPart` | app.py:34-45 | End to end: a complete row labelled, for example, " Forecast " is drawn in the forecast part with its label stripped to "Forecast". |
| `BandChart.BandBounds` | app.py:53-54 | The band's upper minus lower bound is the width and their midpoint is the center. The center lies inside the band whenever the width is not negative. |
| `BandChart.BandRoundTrip` | app.py:53-54 | A band is recovered from its center and width. |
| `BandChart.ConnectorJoinsLatestToEarliest` | app.py:63-70 | The connector exists exactly when both parts are non-empty. On a year-sorted table it joins a historical point of the latest historical year to a forecast point of the earliest forecast year. |
| `BandChart.PlotHistForecastBand` | app.py:39-81 | The chart is the rendering of the cleaned table with the given band parameters. |
| `BandChart.RenderShows` | app.py:52-80 | The band spans center ∓ width/2 with the reference line at the center. Each part is drawn, with its points in order, exactly when it is non-empty. The connector is drawn exactly when both parts are. The legend always starts with "Expected Range" and lists "Historical" / "Forecast (to 2030)" exactly when that part is drawn. |
| `BandChart.PlotTicksAscending` | app.py:76-77 | The x-axis ticks are exactly the cleaned years, one per row, in ascending order. Up to order, they are the years of the caller's rows whose year and value coerced, so together with the order they are fully determined. |
| `BandChart.DrawnPointsHaveTicks` | app.py:58-77 | Every drawn historical or forecast point has a tick at its year. |
| `BandChart.EmptySeriesDrawsOnlyBand` | app.py:52-80 | A table with no usable row draws only the band and the reference line: no line, no connector, no tick, legend "Expected Range" alone. |
| `BandChart.WidthSlidersKeepBandOrdered` | app.py:100-107 | Any width the three width sliders allow gives lower < center < upper. |
| `Scorecard.SortByOverallDescending` | app.py:189 | The sorted scorecard is a permutation of the table and non-increasing by `Overall`. |
| `Scorecard.RankingOfAnySortedScorecard` | app.py:184-189 | Every non-increasing ordering of the four literal rows puts Agri-Food Tech third and Luxury fourth. Healthcare and Aerospace (tied at 8.5) take the first two places in some order. |
| `Scorecard.ScorecardRanking` | app.py:184-189 | The displayed scorecard ranks the sectors that way. |

## Left out

- `load_csv` (app.py:18-25) is not modelled: it checks the file system, reads CSV files, and stops the page on a missing file. That is all I/O and framework control flow.
- Numeric parsing by `pd.to_numeric(errors="coerce")` (app.py:32-33) belongs to a foreign library. Each row's coercion outcome is an input (`Option<int>`, `Option<real>`).
- Floating point is idealised. Values and band bounds are exact `real`s, so the rounding of `band_width / 2` is not modelled.
- Years are `int`, so a fractional year and its truncation by `astype(int)` (app.py:76) are not modelled.
- `Type` cells are modelled as text or empty (empty reads "nan" after `astype(str)`). A numeric `Type` cell converted by `astype(str)` is not modelled.
- `Labels.Lower`: lowers ASCII letters only, while Python's `str.lower()` is Unicode-wide. The one non-ASCII character that lowers to a single ASCII letter is the Kelvin sign, which lowers to "k". Neither "historical" nor "forecast" contains a "k", so the comparison outcome is the same.
- Only the year, value and `Type` columns are modelled. Other columns of the CSV pass through `clean_macro` untouched and nothing reads them.
- Tie order among equal years or equal `Overall` scores is not modelled. `Sequences.SortBy` happens to be a stable insertion sort. Only the tie-independent facts (`Clean.IsCleaningOf`, `Clean.CleanTwiceKeepsRowsAndYears`, `Clean.CleaningsAgreeOnYears`, `Scorecard.RankingOfAnySortedScorecard`) are claimed for the dashboard.
- Clean.CleanedIdempotent: exact only for the model's stable sort. pandas may reorder rows with equal years on a second pass; `Clean.CleanTwiceKeepsRowsAndYears` is what holds there.
- Sequences.SortBySorted: exact only for the model's stable sort. pandas may reorder equal keys of an already sorted table; `Sequences.SortedPermutationsAgreeOnKeys` is what holds there.
- The following are not modelled: page setup, tabs, columns, headings, narrative text and pitch cards (app.py:9-11, 112-230). Of the sidebar sliders (app.py:97-107), only the range constants are kept.
- Figure size, colours, alpha, line styles, markers, titles, axis labels and gridlines are not modelled, and neither is rasterising the figure.
- The LPI bar chart and the FTTH line chart (app.py:155-175) are not modelled beyond their use of `clean_macro`: they only draw the cleaned table.

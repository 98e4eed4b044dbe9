# Bandung rainfall pipeline — a Dafny model

The repository has two Python scripts for one weather station in Bandung:

- `scraping_curah_hujan_ex.py` (the acquirer) fetches daily rainfall, wind and temperature from an
  archive API. It classifies each day's rainfall into an intensity category
  (`kategori_intensitas_curah_hujan`) and writes one row per day to a workbook.
- `app_visualisasi_dan_gis.py` (the dashboard) loads that table and picks a date range, either a
  whole year or two dates chosen by hand. It filters the rows to that range and shows figures for
  them: averages and maxima, the intensity distribution, and a period status from total rainfall.

This project models the decision and aggregation rules under that glue and proves properties of
them. Modules, one per file:

| module | file | models |
|---|---|---|
| `Wrappers` | wrappers.dfy | `Option`, for `None`, NaN and exception paths |
| `Numerals` | numerals.dfy | decimal and hexadecimal digit strings (`str(n)`, the digit readers behind `float` and `int(..., 16)`) |
| `Intensity` | intensity.dfy | the classifier: input coercion, `float()` on text, the five buckets, "N/A" |
| `Acquirer` | acquirer.dfy | the record-building loop (a method with a loop) and the single write of the workbook (a class) |
| `Calendar` | calendar.dfy | dates, their order, `format_indo` and the parse that inverts it |
| `Aggregates` | aggregates.dfy | `sum`, `mean`, `max`, `min` with the empty column made explicit; the "0.0" and "nan" displays |
| `Dashboard` | dashboard.dfy | range selection, the row filter, status, intensity histogram, period summary, the page flow |
| `Colours` | colours.dfy | the hex-to-RGB parse of `make_plotly_chart` |

Points where the code's behaviour is easy to misread, each as the model states it:

- **Falsy input** (scraping_curah_hujan_ex.py:20). `float(v) if v else 0` turns every falsy value
  (`None`, `""`, `0`) into 0, so it is classified "Tidak Hujan", not "N/A". Only non-empty text that
  `float()` rejects reaches the `except` at lines 32-33 and becomes "N/A".
- **Negative rainfall** (scraping_curah_hujan_ex.py:22-25). A negative value is not 0 and is ≤ 10,
  so it is classified "Ringan".
- **Empty range** (app_visualisasi_dan_gis.py:97-104, 171-175, 201). The four metric boxes and the
  temperature range show "0.0", but the popup's wind minimum and maximum have no guard and print
  "nan" (`Dashboard.Summarize`).
- **Missing keys** (scraping_curah_hujan_ex.py:57-65). The response's keys other than `time` are read
  inside the loop body. So an empty `time` list gives an empty record list even when the other keys
  are missing.
- **Exceptions after the write** (scraping_curah_hujan_ex.py:70-96). The workbook is written before
  the statistics are computed. An empty record list (no columns to select) and text in the rainfall
  or wind column (no `sum`/`mean` of text) raise there: the function returns `None`, but the sheet
  has already been overwritten.
- **"N/A" read back** (app_visualisasi_dan_gis.py:41). `read_excel` reads the text "N/A" as NaN, so
  those days have an empty intensity cell and are left out of `value_counts` (line 147).

## Model

| member | source | states |
|---|---|---|
| `Intensity.Coerce` | scraping_curah_hujan_ex.py:20 | `None`, `""` and `0` become 0; a number is itself; only non-empty text can fail to convert |
| `Intensity.ParseFloat` | scraping_curah_hujan_ex.py:20 | a non-empty string of decimal digits reads as its value; every character of an accepted text is a digit, '+', '-' or '.' |
| `Intensity.Classify` | scraping_curah_hujan_ex.py:19-33 | total; the result is "N/A" exactly when the input is non-empty text that `float()` rejects |
| `Intensity.Bucket` | scraping_curah_hujan_ex.py:22-31 | the threshold chain always gives one of the five rainfall categories; negative amounts give "Ringan" |
| `Intensity.BucketMatchesBounds` | scraping_curah_hujan_ex.py:22-31 | for positive rainfall, the bucket's rank is 1 + the number of upper bounds (10, 20, 50 mm) it exceeds, so the buckets are (0,10], (10,20], (20,50], (50,∞) |
| `Intensity.BucketMonotone` | scraping_curah_hujan_ex.py:22-31 | for 0 < x ≤ y, the rank of x's category is ≤ the rank of y's |
| `Intensity.BoundariesInclusive` | scraping_curah_hujan_ex.py:22-31 | upper bounds are inclusive: 0 → Tidak Hujan, 10 → Ringan, 10.01 → Sedang, 20 → Sedang, 20.01 → Lebat, 50 → Lebat, 50.01 → Sangat Lebat |
| `Intensity.FalsyIsNoRain` | scraping_curah_hujan_ex.py:20-23 | `None`, `""` and `0` are coerced to 0 and classified "Tidak Hujan", not "N/A" |
| `Intensity.ForeignCharIsNotAvailable` | scraping_curah_hujan_ex.py:20-33 | text with a character that cannot occur in a decimal number is classified "N/A" |
| `Intensity.NumericTextClassifiesAsNumber` | scraping_curah_hujan_ex.py:20 | the decimal text of a whole number is coerced to that number, so it classifies like the number |
| `Intensity.LabelInjective` | scraping_curah_hujan_ex.py:23-33 | the six labels are distinct, so counting labels counts categories |
| `Acquirer.Average` | scraping_curah_hujan_ex.py:65 | `(max + min) / 2` is defined exactly when both are numbers, and lies between them |
| `Acquirer.AssembleRecords` | scraping_curah_hujan_ex.py:56-66 | succeeds exactly when `time` is present and every day's entries are readable and its temperatures numeric; then one record per `time` entry, in order, with the i-th date, rainfall and wind, intensity = classifier of its own rainfall, and average temperature = (max+min)/2 |
| `Acquirer.StatisticsOfResponse` | scraping_curah_hujan_ex.py:86-96 | for the records of a complete response, the statistics after the write run exactly when `time` is non-empty and every day is readable with no text rainfall or wind entry |
| `Acquirer.DescribesUnique` | scraping_curah_hujan_ex.py:56-66 | the record list is determined by the response |
| `Acquirer.Workbook.Scrape` | scraping_curah_hujan_ex.py:42-102 | if the fetch or the loop fails, returns `None` and leaves the sheet unchanged; once the loop completes, the sheet holds exactly the assembled records; the records are returned exactly when the statistics after the write can be computed (non-empty, no text rainfall or wind), else `None` with the sheet already written |
| `Numerals.NatText` | app_visualisasi_dan_gis.py:48 | `str(n)`: non-empty, digits only, no leading zero |
| `Numerals.NatTextRoundTrip` | app_visualisasi_dan_gis.py:48 | reading `str(n)` back gives n |
| `Numerals.HexValue` | app_visualisasi_dan_gis.py:127 | a k-digit hex string's value is below 16^k |
| `Calendar.DateLeTotalOrder` | app_visualisasi_dan_gis.py:86 | dates are compared by a total order (reflexive, antisymmetric, transitive, total) |
| `Calendar.MonthNumber` | app_visualisasi_dan_gis.py:32 | the inverse lookup of `BULAN_MAP`: a found number names the word, and no month names a word that is not found |
| `Calendar.MonthNumberOfName` | app_visualisasi_dan_gis.py:32 | each of the twelve month names looks up to its own month |
| `Calendar.FormatIndo` | app_visualisasi_dan_gis.py:47-48 | `format_indo` of a valid date, "day MonthName year", parses back to that date |
| `Calendar.FormatIndoInjective` | app_visualisasi_dan_gis.py:47-48 | different dates never render to the same text |
| `Dashboard.LoadedFromScrape` | app_visualisasi_dan_gis.py:41 | for a table loaded back from records the scraper assembled, a day's intensity cell is empty exactly when that day's rainfall in the response is non-empty text that does not read as a number |
| `Dashboard.ReadableScrapeCountsEveryDay` | app_visualisasi_dan_gis.py:41-147 | when no day's rainfall is such text, every loaded day is counted in the intensity distribution |
| `Dashboard.Filter` | app_visualisasi_dan_gis.py:86 | keeps exactly the rows whose date is within [start, end], inclusive, and never grows the table |
| `Dashboard.FilterIsSubsequence` | app_visualisasi_dan_gis.py:86 | the filtered rows keep the table's relative order |
| `Dashboard.FilterAppend` | app_visualisasi_dan_gis.py:86 | filtering a concatenation is the concatenation of the filtered parts |
| `Dashboard.FilterCount` | app_visualisasi_dan_gis.py:86 | each row occurs in the result as often as in the table if it is in range, else never |
| `Dashboard.FilterIdempotent` | app_visualisasi_dan_gis.py:86 | filtering twice by the same bounds equals filtering once |
| `Dashboard.FilterKeepsAll` | app_visualisasi_dan_gis.py:86 | a range covering every row keeps the whole table |
| `Dashboard.FilterWithin` | app_visualisasi_dan_gis.py:86 | a range inside another keeps no more days and, with non-negative rainfall, no more total rain |
| `Dashboard.InsertYear` | app_visualisasi_dan_gis.py:69 | inserting a year into a strictly ascending list keeps it strictly ascending and adds exactly that year |
| `Dashboard.AvailableYears` | app_visualisasi_dan_gis.py:69 | the selectable years are the distinct years of the data, strictly ascending |
| `Dashboard.DefaultYear` | app_visualisasi_dan_gis.py:69-70 | the preselected (last) year is a year of the data and no row is from a later one |
| `Dashboard.YearRange` | app_visualisasi_dan_gis.py:71 | the per-year range 1 Jan – 31 Dec holds exactly the valid dates of that year |
| `Dashboard.SelectRange` | app_visualisasi_dan_gis.py:68-79 | custom mode stops exactly when the start is after the end; otherwise the range is the chosen dates, or the chosen (default: latest) year |
| `Dashboard.StatusOf` | app_visualisasi_dan_gis.py:177-179 | the status level is the number of thresholds (50, 200 mm, both strict) the total exceeds |
| `Dashboard.StatusMonotone` | app_visualisasi_dan_gis.py:177-179 | more total rain never lowers the status |
| `Dashboard.StatusBoundaries` | app_visualisasi_dan_gis.py:177-179 | 200 mm is medium and 200.01 mm high; 50 mm is low and 50.01 mm medium; 0 mm is low |
| `Dashboard.StatusDisplay` | app_visualisasi_dan_gis.py:177-179 | the popup text and the marker colour for each total, and each of them determines the status |
| `Dashboard.Labels` | app_visualisasi_dan_gis.py:147 | the labels counted are those of the rows with a non-empty intensity cell: never more than the rows, all of them when no cell is empty, exactly the categories present in the column, and each category as many times as the column holds it |
| `Dashboard.Histogram` | app_visualisasi_dan_gis.py:147 | lists exactly the categories that occur, each with its number of occurrences (at least 1) |
| `Dashboard.HistogramTotal` | app_visualisasi_dan_gis.py:146-148 | the histogram's counts add up to the number of labels counted |
| `Dashboard.Summarize` | app_visualisasi_dan_gis.py:97-179 | the metric boxes are the mean and max of rain and the means of wind and temperature with the "0.0" guard; the popup has the total, day count, unguarded wind extremes, temperature extremes and the status of the total; the chart is the histogram of the labels, drawn only for a non-empty range. Empty range: "0.0" boxes, "nan" wind, total 0, low status, no chart. Non-empty: mean rain ≤ max rain, min temp ≤ mean temp ≤ max temp, each bar equal to the number of rows carrying that category, bars summing to at most the day count |
| `Dashboard.WiderRangeNoLowerStatus` | app_visualisasi_dan_gis.py:86-179 | widening the range never lowers the day count, the total rain or the status, and the total is never negative |
| `Dashboard.RenderPage` | app_visualisasi_dan_gis.py:50-86 | the page stops on an empty table or a reversed custom range, before any filtering; otherwise it shows the selected range, the table filtered to it (exactly the rows inside it) and their summary |
| `Dashboard.DefaultPageShowsLatestYear` | app_visualisasi_dan_gis.py:69-86 | with the preselected year the page shows exactly the rows of the latest year, at least one, with a distribution chart |
| `Dashboard.FullCustomRangeShowsTable` | app_visualisasi_dan_gis.py:74-86 | a custom range from the first to the last date shows the whole table in order, with its summary |
| `Dashboard.ThreeDayExample` | app_visualisasi_dan_gis.py:86-179 | days of 0, 15 and 60 mm over their own range give mean 25, max 60, total 75, medium status and one day each of Tidak Hujan, Sedang and Sangat Lebat |
| `Aggregates.Sum` | app_visualisasi_dan_gis.py:170 | an empty column sums to 0, not NaN |
| `Aggregates.Max` | app_visualisasi_dan_gis.py:98 | `max` of a non-empty column is one of its values and no value exceeds it; empty gives `None` (NaN) |
| `Aggregates.Min` | app_visualisasi_dan_gis.py:173 | `min` of a non-empty column is one of its values and no value is below it; empty gives `None` (NaN) |
| `Aggregates.Mean` | app_visualisasi_dan_gis.py:97 | `mean` is defined exactly for a non-empty column |
| `Aggregates.MeanWithinExtrema` | app_visualisasi_dan_gis.py:97-100 | the mean of a non-empty column lies between its minimum and maximum |
| `Aggregates.MeanBetween` | app_visualisasi_dan_gis.py:97-100 | the mean of values within [lo, hi] lies within [lo, hi] |
| `Aggregates.SumBounds` | app_visualisasi_dan_gis.py:170 | a sum of n values within [lo, hi] lies within [n·lo, n·hi] |
| `Aggregates.SumNonNegative` | app_visualisasi_dan_gis.py:170 | a total of non-negative amounts is non-negative |
| `Aggregates.ShowOrZero` | app_visualisasi_dan_gis.py:104 | a missing value shows as "0.0" and a present value as itself, never "nan" |
| `Colours.StripHashes` | app_visualisasi_dan_gis.py:126 | `lstrip('#')` keeps a suffix of the text that does not start with '#', and everything dropped is '#' |
| `Colours.ParseHex` | app_visualisasi_dan_gis.py:127 | a base-16 parse of p characters is below 16^p |
| `Colours.HexToRgb` | app_visualisasi_dan_gis.py:126-127 | every component parsed from a `#rrggbb` colour is in 0..255 |
| `Colours.HexRoundTrip` | app_visualisasi_dan_gis.py:126-127 | any byte triple written as `#rrggbb` parses back to itself |
| `Colours.ExtraHashIgnored` | app_visualisasi_dan_gis.py:126 | `lstrip('#')` drops every leading '#', so extra ones do not change the result |
| `Colours.ChartColours` | app_visualisasi_dan_gis.py:126-127 | the wind colour `#2ecc71` gives (46, 204, 113) and the temperature colour `#ff4b4b` gives (255, 75, 75) |

## Left out

- The HTTP request, the URL, the timeout, the status check and JSON decoding (scraping_curah_hujan_ex.py:42-53) are network I/O. The decoded response is a parameter of `Acquirer.Workbook.Scrape`, and `None` stands for any failure there.
- The workbook format, its read back by `load_data`, the column names and the CSS file are file I/O. The sheet is a field holding the record list. The read-back table is a `seq<Row>` given to the dashboard functions. The conversion from a record's date text to a date is not modelled, so there is no record-to-row round trip. The temperature column header differs between the two programs. The scraper writes `Suhu rata-rata (째C)` (scraping_curah_hujan_ex.py:65) and the dashboard reads `Suhu rata-rata (°C)` (app_visualisasi_dan_gis.py:100). On a sheet written by this scraper, that read raises `KeyError`. `Dashboard.Summarize` assumes the two names match.
- Console output (the banner, the preview and the printed statistics) is left out. Of the statistics block (scraping_curah_hujan_ex.py:80-96) only whether it raises is modelled, in `Acquirer.StatisticsOk`: an empty record list, or any text in the rainfall or wind column, makes it raise. The finer pandas rules for text columns give the same verdict, so they are not spelled out: a column of text only sums by concatenation, after which the rainfall total fails at its two-decimal format (line 93) and the wind column at `mean` (line 96).
- Streamlit widgets, tabs, caching and the "show map" toggle are left out. The clamping of the date pickers to the data's first and last day is also not modelled. `st.stop()` is modelled only as `Dashboard.Halt`. `Dashboard.Summarize` always computes the popup figures, even where the page would draw them only with the map shown.
- Plotly and Folium figures, layouts, markers and popup HTML are presentation over foreign libraries. So are the axis scaling `MAX_HUJAN = max * 1.2` and the `:.1f` rounding. A shown number is `Shown.Figure` of the exact real.
- `value_counts` orders its bars by count. `Dashboard.Histogram` is a map, so it does not model that order.
- Floating point is modelled as exact reals. There is no NaN inside a column (pandas skips NaN cells in `mean`/`max`/`sum`). The empty column is the only NaN case, and it is modelled as `None`.
- Intensity.ParseFloat: only plain decimal text with an optional sign and at most one dot is read as a number. Python's `float()` also accepts exponents, surrounding whitespace, underscores between digits, "inf" and "nan"; such text is "N/A" in the model. Boolean JSON values are not modelled.
- Colours.HexToRgb: a slice is read only if it is all hex digits. Python's `int(..., 16)` also accepts a sign, surrounding whitespace and underscores, and could give a negative component for "-f"; the model reports those slices as failures. The colours the source passes are constants, and all of them are plain hex.

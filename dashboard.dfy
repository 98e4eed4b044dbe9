/** The derivations of the dashboard page: choosing the date range, filtering the loaded table to
    it, and the figures shown for the range (metric boxes, the intensity distribution, and the
    totals, extremes and status of the map popup). */
module Dashboard {
  import opened Wrappers
  import opened Intensity
  import opened Calendar
  import opened Aggregates
  import Acquirer

  /** One row of the loaded table. The intensity cell is `None` where the workbook holds "N/A":
      `read_excel` (line 41) reads that text back as NaN. */
  datatype Row = Row(date: Date, rainfall: real, wind: real, intensity: Option<Category>, avgTemp: real)

  /** The intensity cell as loaded from the category the scraper wrote: only "N/A" comes back empty. */
  function LoadedIntensity(c: Category): (o: Option<Category>)
    ensures o.None? <==> c == NotAvailable
    ensures o.Some? ==> o.value == c
  {
    if c == NotAvailable then None else Some(c)
  }

  /** Inclusive bounds of the analysed period. */
  datatype Range = Range(start: Date, end: Date)

  predicate InRange(d: Date, r: Range)
  {
    DateLe(r.start, d) && DateLe(d, r.end)
  }

  /** The intensity column loaded back from the records the scraper wrote: a cell is empty exactly
      on the days whose rainfall is unreadable text. */
  lemma LoadedFromScrape(d: Acquirer.Daily, records: seq<Acquirer.Record>, rows: seq<Row>)
    requires Acquirer.Complete(d) && Acquirer.Describes(records, d)
    requires |rows| == |records|
    requires forall i :: 0 <= i < |rows| ==> rows[i].intensity == LoadedIntensity(records[i].intensity)
    ensures rows != [] ==> d.precipitationSum.Some? && |rows| <= |d.precipitationSum.value|
    ensures forall i :: 0 <= i < |rows| ==>
      (rows[i].intensity.None? <==> Unreadable(d.precipitationSum.value[i]))
  {
    if rows != [] {
      LoadedCell(d, records, |rows| - 1);
    }
    forall i | 0 <= i < |rows|
      ensures rows[i].intensity.None? <==> Unreadable(d.precipitationSum.value[i])
    {
      LoadedCell(d, records, i);
    }
  }

  /** When no day's rainfall is unreadable text, every loaded day is counted in the distribution. */
  lemma ReadableScrapeCountsEveryDay(d: Acquirer.Daily, records: seq<Acquirer.Record>, rows: seq<Row>)
    requires Acquirer.Complete(d) && Acquirer.Describes(records, d)
    requires |rows| == |records|
    requires forall i :: 0 <= i < |rows| ==> rows[i].intensity == LoadedIntensity(records[i].intensity)
    requires forall i :: 0 <= i < |records| ==> !Unreadable(records[i].rainfall)
    ensures |Labels(rows)| == |rows|
  {
    forall i | 0 <= i < |rows| ensures rows[i].intensity.Some? {
      LoadedCell(d, records, i);
    }
  }

  lemma LoadedCell(d: Acquirer.Daily, records: seq<Acquirer.Record>, i: int)
    requires Acquirer.Complete(d) && Acquirer.Describes(records, d) && 0 <= i < |records|
    ensures d.precipitationSum.Some? && i < |d.precipitationSum.value|
    ensures records[i].rainfall == d.precipitationSum.value[i]
    ensures LoadedIntensity(records[i].intensity).None? <==> Unreadable(records[i].rainfall)
  {
    assert Acquirer.DayOk(d, i) && records[i].rainfall == d.precipitationSum.value[i];
    assert records[i].intensity == Classify(records[i].rainfall);
  }

  // ---------------------------------------------------------------- the row filter

  /** The boolean mask of line 86: the rows whose date is at or after the start and at or before the
      end, in table order. */
  function Filter(rows: seq<Row>, r: Range): (kept: seq<Row>)
    ensures |kept| <= |rows|
    ensures forall x :: x in kept <==> x in rows && InRange(x.date, r)
  {
    if rows == [] then []
    else (if InRange(rows[0].date, r) then [rows[0]] else []) + Filter(rows[1..], r)
  }

  /** `s` occurs in `t` in order, possibly with gaps. */
  predicate IsSubsequence(s: seq<Row>, t: seq<Row>)
    decreases |t|
  {
    if s == [] then true
    else if t == [] then false
    else if s[0] == t[0] then IsSubsequence(s[1..], t[1..])
    else IsSubsequence(s, t[1..])
  }

  /** The filter keeps the relative order of the table. */
  lemma {:induction false} FilterIsSubsequence(rows: seq<Row>, r: Range)
    ensures IsSubsequence(Filter(rows, r), rows)
  {
    if rows != [] {
      FilterIsSubsequence(rows[1..], r);
      var kept := Filter(rows, r);
      if !InRange(rows[0].date, r) {
        assert kept == Filter(rows[1..], r);
        if kept != [] {
          assert kept[0] in kept;
        }
      }
    }
  }

  /** Filtering a concatenation filters each part: the mask is applied row by row, in order. */
  lemma {:induction false} FilterAppend(a: seq<Row>, b: seq<Row>, r: Range)
    ensures Filter(a + b, r) == Filter(a, r) + Filter(b, r)
  {
    if a != [] {
      assert (a + b)[1..] == a[1..] + b;
      FilterAppend(a[1..], b, r);
    } else {
      assert a + b == b;
    }
  }

  /** Every occurrence of an in-range row is kept and every other row dropped, duplicates included. */
  lemma {:induction false} FilterCount(rows: seq<Row>, r: Range, x: Row)
    ensures multiset(Filter(rows, r))[x] == if InRange(x.date, r) then multiset(rows)[x] else 0
  {
    if rows != [] {
      FilterCount(rows[1..], r, x);
      assert rows == [rows[0]] + rows[1..];
    }
  }

  /** Filtering a filtered table by the same bounds changes nothing. */
  lemma {:induction false} FilterIdempotent(rows: seq<Row>, r: Range)
    ensures Filter(Filter(rows, r), r) == Filter(rows, r)
  {
    if rows != [] {
      FilterIdempotent(rows[1..], r);
      if InRange(rows[0].date, r) {
        var kept := Filter(rows, r);
        assert kept == [rows[0]] + Filter(rows[1..], r);
        assert kept[1..] == Filter(rows[1..], r);
      } else {
        assert Filter(rows, r) == Filter(rows[1..], r);
      }
    }
  }

  /** A range covering every row keeps the whole table. */
  lemma {:induction false} FilterKeepsAll(rows: seq<Row>, r: Range)
    requires forall i :: 0 <= i < |rows| ==> InRange(rows[i].date, r)
    ensures Filter(rows, r) == rows
  {
    if rows != [] {
      FilterKeepsAll(rows[1..], r);
    }
  }

  // ---------------------------------------------------------------- choosing the range

  /** The set of years the table's dates fall in. */
  function YearsOf(rows: seq<Row>): set<int>
  {
    set i | 0 <= i < |rows| :: rows[i].date.year
  }

  predicate StrictlyIncreasing(ys: seq<int>)
  {
    forall i, j :: 0 <= i < j < |ys| ==> ys[i] < ys[j]
  }

  function InsertYear(ys: seq<int>, y: int): (zs: seq<int>)
    requires StrictlyIncreasing(ys)
    ensures StrictlyIncreasing(zs)
    ensures forall z :: z in zs <==> z in ys || z == y
  {
    if ys == [] then [y]
    else if y < ys[0] then [y] + ys
    else if y == ys[0] then ys
    else
      var rest := InsertYear(ys[1..], y);
      assert forall k :: 0 <= k < |rest| ==> rest[k] in ys[1..] || rest[k] == y;
      assert forall k :: 0 <= k < |ys[1..]| ==> ys[0] < ys[1..][k];
      [ys[0]] + rest
  }

  /** The year box's choices (line 69): each year of the data once, ascending. */
  function AvailableYears(rows: seq<Row>): (ys: seq<int>)
    ensures StrictlyIncreasing(ys)
    ensures forall y :: y in ys <==> y in YearsOf(rows)
  {
    if rows == [] then []
    else
      assert YearsOf(rows) == {rows[0].date.year} + YearsOf(rows[1..]) by {
        forall y | y in YearsOf(rows) ensures y == rows[0].date.year || y in YearsOf(rows[1..]) {
          var i :| 0 <= i < |rows| && rows[i].date.year == y;
          if i > 0 {
            assert rows[1..][i - 1] == rows[i];
          }
        }
        forall y | y in YearsOf(rows[1..]) ensures y in YearsOf(rows) {
          var i :| 0 <= i < |rows| - 1 && rows[1..][i].date.year == y;
          assert rows[i + 1] == rows[1..][i];
        }
      }
      InsertYear(AvailableYears(rows[1..]), rows[0].date.year)
  }

  /** The last of the available years is a year of the data, and no row is later. */
  lemma LastYearIsLatest(rows: seq<Row>, ys: seq<int>)
    requires rows != [] && ys == AvailableYears(rows)
    ensures |ys| > 0 && ys[|ys| - 1] in YearsOf(rows)
    ensures forall i :: 0 <= i < |rows| ==> rows[i].date.year <= ys[|ys| - 1]
  {
    assert rows[0].date.year in YearsOf(rows);
    assert ys[|ys| - 1] in ys;
    forall i | 0 <= i < |rows| ensures rows[i].date.year <= ys[|ys| - 1] {
      var y := rows[i].date.year;
      assert y in YearsOf(rows);
      var k :| 0 <= k < |ys| && ys[k] == y;
      LastIsLargest(ys, k);
    }
  }

  lemma LastIsLargest(ys: seq<int>, k: int)
    requires StrictlyIncreasing(ys) && 0 <= k < |ys|
    ensures ys[k] <= ys[|ys| - 1]
  {
    if k < |ys| - 1 {
      assert ys[k] < ys[|ys| - 1];
    }
  }

  /** The year preselected in the year box (line 70 selects the last entry): the latest year of
      the data. */
  function DefaultYear(rows: seq<Row>): (y: int)
    requires rows != []
    ensures y in YearsOf(rows)
    ensures forall i :: 0 <= i < |rows| ==> rows[i].date.year <= y
  {
    var ys := AvailableYears(rows);
    LastYearIsLatest(rows, ys);
    var y := ys[|ys| - 1];
    assert y in YearsOf(rows) && forall i :: 0 <= i < |rows| ==> rows[i].date.year <= y;
    y
  }

  /** The per-year range, 1 January to 31 December of year `y`: exactly the dates of that year. */
  function YearRange(y: int): (r: Range)
    ensures forall d :: ValidDate(d) ==> (InRange(d, r) <==> d.year == y)
  {
    Range(Date(y, 1, 1), Date(y, 12, 31))
  }

  /** The sidebar's filter mode: a year (`None` until the user changes the preselection), or two
      dates picked by hand. */
  datatype Mode = PerYear(year: Option<int>) | Custom(from: Date, to: Date)

  /** Why the page stops early (`st.stop()`). */
  datatype Stop = NoData | BadRange

  /** The range of the sidebar, or `BadRange` for a custom start after its end (line 77). */
  function SelectRange(rows: seq<Row>, mode: Mode): (res: Result)
    requires rows != []
    ensures res.Fail? <==> mode.Custom? && !DateLe(mode.from, mode.to)
    ensures res.Fail? ==> res.reason == BadRange
    ensures res.Pass? && mode.Custom? ==> res.range == Range(mode.from, mode.to)
    ensures res.Pass? && mode.PerYear? ==>
      res.range == YearRange(if mode.year.Some? then mode.year.value else DefaultYear(rows))
  {
    match mode
    case PerYear(y) => Pass(YearRange(if y.Some? then y.value else DefaultYear(rows)))
    case Custom(from, to) => if DateLe(from, to) then Pass(Range(from, to)) else Fail(BadRange)
  }

  datatype Result = Pass(range: Range) | Fail(reason: Stop)

  // ---------------------------------------------------------------- the figures for a range

  function Rainfalls(rows: seq<Row>): (xs: seq<real>)
    ensures |xs| == |rows| && forall i :: 0 <= i < |rows| ==> xs[i] == rows[i].rainfall
  {
    seq(|rows|, i requires 0 <= i < |rows| => rows[i].rainfall)
  }

  function Winds(rows: seq<Row>): (xs: seq<real>)
    ensures |xs| == |rows| && forall i :: 0 <= i < |rows| ==> xs[i] == rows[i].wind
  {
    seq(|rows|, i requires 0 <= i < |rows| => rows[i].wind)
  }

  function Temperatures(rows: seq<Row>): (xs: seq<real>)
    ensures |xs| == |rows| && forall i :: 0 <= i < |rows| ==> xs[i] == rows[i].avgTemp
  {
    seq(|rows|, i requires 0 <= i < |rows| => rows[i].avgTemp)
  }

  /** The intensity labels `value_counts` counts: those of the rows whose cell is not empty, in
      order (NaN cells are dropped). */
  function Labels(rows: seq<Row>): (cs: seq<Category>)
    ensures |cs| <= |rows|
    ensures (forall i :: 0 <= i < |rows| ==> rows[i].intensity.Some?) ==> |cs| == |rows|
    ensures forall c :: c in cs <==> Some(c) in Column(rows)
    ensures forall c {:trigger multiset(cs)[c]} :: multiset(cs)[c] == multiset(Column(rows))[Some(c)]
  {
    if rows == [] then []
    else
      assert Column(rows) == [rows[0].intensity] + Column(rows[1..]);
      (if rows[0].intensity.Some? then [rows[0].intensity.value] else []) + Labels(rows[1..])
  }

  /** The intensity column, empty cells included. */
  function Column(rows: seq<Row>): (col: seq<Option<Category>>)
    ensures |col| == |rows| && forall i :: 0 <= i < |rows| ==> col[i] == rows[i].intensity
  {
    seq(|rows|, i requires 0 <= i < |rows| => rows[i].intensity)
  }

  /** Severity of the period, from its total rainfall. */
  datatype Status = Low | Medium | High

  /** Lines 177-179: above 200 mm is high, above 50 mm medium, anything else low; the level is
      the number of status bounds the total exceeds. */
  function StatusOf(total: real): (s: Status)
    ensures Level(s) == CountBelow(StatusBounds, total)
  {
    StatusBoundsCount(total);
    if total > 200.0 then High else if total > 50.0 then Medium else Low
  }

  function StatusText(s: Status): string
  {
    match s
    case High => "Curah Hujan Tinggi"
    case Medium => "Curah Hujan Sedang"
    case Low => "Curah Hujan Rendah"
  }

  function MarkerColour(s: Status): string
  {
    match s
    case High => "red"
    case Medium => "orange"
    case Low => "green"
  }

  function Level(s: Status): nat
  {
    match s
    case Low => 0
    case Medium => 1
    case High => 2
  }

  /** Lower bounds, both exclusive, of the medium and high status. */
  const StatusBounds: seq<real> := [50.0, 200.0]

  lemma StatusBoundsCount(total: real)
    ensures CountBelow(StatusBounds, total) == if total > 200.0 then 2 else if total > 50.0 then 1 else 0
  {
    var rest := StatusBounds[1..];
    assert rest == [200.0] && rest[1..] == [];
    assert CountBelow(rest, total) == (if 200.0 < total then 1 else 0);
    assert CountBelow(StatusBounds, total) == (if 50.0 < total then 1 else 0) + CountBelow(rest, total);
  }

  /** More rain never lowers the status. */
  lemma StatusMonotone(a: real, b: real)
    requires a <= b
    ensures Level(StatusOf(a)) <= Level(StatusOf(b))
  {
    CountBelowMonotone(StatusBounds, a, b);
  }

  /** The popup text and the marker colour (lines 177-179, drawn at lines 185 and 217) each name
      the status unambiguously. */
  lemma StatusDisplay(total: real)
    ensures StatusText(StatusOf(total)) ==
      if total > 200.0 then "Curah Hujan Tinggi" else if total > 50.0 then "Curah Hujan Sedang" else "Curah Hujan Rendah"
    ensures MarkerColour(StatusOf(total)) ==
      if total > 200.0 then "red" else if total > 50.0 then "orange" else "green"
    ensures forall t: Status :: StatusText(t) == StatusText(StatusOf(total)) ==> t == StatusOf(total)
    ensures forall t: Status :: MarkerColour(t) == MarkerColour(StatusOf(total)) ==> t == StatusOf(total)
  {
  }

  /** Both thresholds are strict: exactly 200 mm is medium and exactly 50 mm is low. */
  lemma StatusBoundaries()
    ensures StatusOf(200.0) == Medium && StatusOf(200.01) == High
    ensures StatusOf(50.0) == Low && StatusOf(50.01) == Medium
    ensures StatusOf(0.0) == Low
  {
  }

  /** `value_counts()` of the intensity column: each category that occurs, with its count. */
  function Histogram(labels: seq<Category>): (h: map<Category, nat>)
    ensures forall c :: c in h <==> c in labels
    ensures forall c :: c in h ==> h[c] == multiset(labels)[c] && h[c] >= 1
  {
    if labels == [] then map[]
    else
      var h := Histogram(labels[1..]);
      var c := labels[0];
      assert labels == [c] + labels[1..];
      h[c := (if c in h then h[c] else 0) + 1]
  }

  /** Every category the classifier can produce, each once. */
  const AllCategories: seq<Category> := [TidakHujan, Ringan, Sedang, Lebat, SangatLebat, NotAvailable]

  lemma AllCategoriesOnce(c: Category)
    ensures multiset(AllCategories)[c] == 1
  {
    assert c in AllCategories by {
      match c
      case TidakHujan => assert AllCategories[0] == c;
      case Ringan => assert AllCategories[1] == c;
      case Sedang => assert AllCategories[2] == c;
      case Lebat => assert AllCategories[3] == c;
      case SangatLebat => assert AllCategories[4] == c;
      case NotAvailable => assert AllCategories[5] == c;
    }
    DistinctOnce(AllCategories, c);
  }

  /** In a sequence without repeats, a member occurs exactly once. */
  lemma {:induction false} DistinctOnce(s: seq<Category>, c: Category)
    requires forall i, j :: 0 <= i < j < |s| ==> s[i] != s[j]
    ensures multiset(s)[c] == if c in s then 1 else 0
  {
    if s != [] {
      assert s == [s[0]] + s[1..];
      DistinctOnce(s[1..], c);
      if c == s[0] {
        assert forall k :: 0 <= k < |s| - 1 ==> s[1..][k] == s[k + 1] != s[0];
      }
    }
  }

  /** The counts of `h` over the categories `cats`, added up (0 for an absent category). */
  function CountsTotal(h: map<Category, nat>, cats: seq<Category>): nat
  {
    if cats == [] then 0 else (if cats[0] in h then h[cats[0]] else 0) + CountsTotal(h, cats[1..])
  }

  function MultisetTotal(m: multiset<Category>, cats: seq<Category>): nat
  {
    if cats == [] then 0 else m[cats[0]] + MultisetTotal(m, cats[1..])
  }

  lemma {:induction false} MultisetTotalAdd(m: multiset<Category>, c: Category, cats: seq<Category>)
    ensures MultisetTotal(m + multiset{c}, cats) == MultisetTotal(m, cats) + multiset(cats)[c]
  {
    if cats != [] {
      MultisetTotalAdd(m, c, cats[1..]);
      assert cats == [cats[0]] + cats[1..];
    }
  }

  lemma {:induction false} CountsAreMultiplicities(labels: seq<Category>, cats: seq<Category>)
    ensures CountsTotal(Histogram(labels), cats) == MultisetTotal(multiset(labels), cats)
  {
    if cats != [] {
      CountsAreMultiplicities(labels, cats[1..]);
    }
  }

  lemma {:induction false} MultisetTotalOfAll(labels: seq<Category>)
    ensures MultisetTotal(multiset(labels), AllCategories) == |labels|
  {
    if labels != [] {
      MultisetTotalOfAll(labels[1..]);
      assert labels == [labels[0]] + labels[1..];
      assert multiset(labels) == multiset(labels[1..]) + multiset{labels[0]};
      MultisetTotalAdd(multiset(labels[1..]), labels[0], AllCategories);
      AllCategoriesOnce(labels[0]);
    } else {
      assert MultisetTotal(multiset{}, AllCategories) == 0;
    }
  }

  /** The histogram's bars add up to the number of days in the range. */
  lemma HistogramTotal(labels: seq<Category>)
    ensures CountsTotal(Histogram(labels), AllCategories) == |labels|
  {
    CountsAreMultiplicities(labels, AllCategories);
    MultisetTotalOfAll(labels);
  }

  /** The figures shown for a filtered range. The four metric boxes (lines 97-104) fall back to
      "0.0"; the popup's wind extremes (line 171) have no guard; its temperature extremes (line 175)
      show "0.0 - 0.0" on an empty range; the distribution chart is drawn only for a non-empty
      range (line 146). */
  datatype Summary = Summary(
    meanRain: Shown, maxRain: Shown, meanWind: Shown, meanTemp: Shown,
    totalRain: real, days: nat, windMin: Shown, windMax: Shown, tempMin: Shown, tempMax: Shown,
    status: Status, distribution: Option<map<Category, nat>>)

  function Summarize(rows: seq<Row>): (s: Summary)
    ensures s.days == |rows|
    ensures s.totalRain == Sum(Rainfalls(rows)) && s.status == StatusOf(s.totalRain)
    ensures s.meanRain == ShowOrZero(Mean(Rainfalls(rows))) && s.maxRain == ShowOrZero(Max(Rainfalls(rows)))
    ensures s.meanWind == ShowOrZero(Mean(Winds(rows))) && s.meanTemp == ShowOrZero(Mean(Temperatures(rows)))
    ensures s.windMin == ShowUnguarded(Min(Winds(rows))) && s.windMax == ShowUnguarded(Max(Winds(rows)))
    ensures rows != [] ==>
      s.tempMin == Figure(Min(Temperatures(rows)).value) && s.tempMax == Figure(Max(Temperatures(rows)).value)
    ensures s.distribution == if rows == [] then None else Some(Histogram(Labels(rows)))
    ensures rows == [] ==>
      s.meanRain == s.maxRain == s.meanWind == s.meanTemp == ZeroText &&
      s.tempMin == s.tempMax == ZeroText && s.windMin == s.windMax == NanText &&
      s.totalRain == 0.0 && s.status == Low
    ensures rows != [] ==>
      s.meanRain.Figure? && s.maxRain.Figure? && s.meanRain.x <= s.maxRain.x &&
      s.meanWind.Figure? && s.meanTemp.Figure? && s.windMin.Figure? && s.windMax.Figure? &&
      s.tempMin.Figure? && s.tempMax.Figure? && s.tempMin.x <= s.meanTemp.x <= s.tempMax.x &&
      CountsTotal(s.distribution.value, AllCategories) == |Labels(rows)| <= |rows| &&
      forall c :: c in s.distribution.value ==> s.distribution.value[c] == multiset(Column(rows))[Some(c)]
  {
    var rain, wind, temp := Rainfalls(rows), Winds(rows), Temperatures(rows);
    var total := Sum(rain);
    var tempShown :=
      if rows == [] then (ZeroText, ZeroText)
      else (Figure(Min(temp).value), Figure(Max(temp).value));
    var distribution := if rows == [] then None else Some(Histogram(Labels(rows)));
    var s := Summary(
      ShowOrZero(Mean(rain)), ShowOrZero(Max(rain)), ShowOrZero(Mean(wind)), ShowOrZero(Mean(temp)),
      total, |rows|, ShowUnguarded(Min(wind)), ShowUnguarded(Max(wind)), tempShown.0, tempShown.1,
      StatusOf(total), distribution);
    if rows == [] then s
    else
      MeanWithinExtrema(rain);
      MeanWithinExtrema(temp);
      HistogramTotal(Labels(rows));
      s
  }

  /** `inner` lies inside `outer`. */
  predicate Within(inner: Range, outer: Range)
  {
    DateLe(outer.start, inner.start) && DateLe(inner.end, outer.end)
  }

  lemma RainfallsCons(x: Row, rest: seq<Row>)
    ensures Sum(Rainfalls([x] + rest)) == x.rainfall + Sum(Rainfalls(rest))
  {
    assert Rainfalls([x] + rest)[1..] == Rainfalls(rest);
  }

  /** A range inside another keeps no more days and, with non-negative daily sums, no more rain. */
  lemma {:induction false} FilterWithin(rows: seq<Row>, inner: Range, outer: Range)
    requires Within(inner, outer)
    requires forall i :: 0 <= i < |rows| ==> 0.0 <= rows[i].rainfall
    ensures |Filter(rows, inner)| <= |Filter(rows, outer)|
    ensures Sum(Rainfalls(Filter(rows, inner))) <= Sum(Rainfalls(Filter(rows, outer)))
  {
    if rows != [] {
      var x := rows[0];
      FilterWithin(rows[1..], inner, outer);
      var a, b := Filter(rows[1..], inner), Filter(rows[1..], outer);
      if InRange(x.date, inner) {
        DateLeTotalOrder(outer.start, inner.start, x.date);
        DateLeTotalOrder(x.date, inner.end, outer.end);
        assert Filter(rows, inner) == [x] + a && Filter(rows, outer) == [x] + b;
        RainfallsCons(x, a);
        RainfallsCons(x, b);
      } else if InRange(x.date, outer) {
        assert Filter(rows, inner) == a && Filter(rows, outer) == [x] + b;
        RainfallsCons(x, b);
      } else {
        assert Filter(rows, inner) == a && Filter(rows, outer) == b;
      }
    }
  }

  /** Widening the analysed period never lowers the day count, the total or the status (the
      weather service reports non-negative daily sums). */
  lemma WiderRangeNoLowerStatus(table: seq<Row>, inner: Range, outer: Range)
    requires Within(inner, outer)
    requires forall i :: 0 <= i < |table| ==> 0.0 <= table[i].rainfall
    ensures
      var s, t := Summarize(Filter(table, inner)), Summarize(Filter(table, outer));
      0.0 <= s.totalRain && s.days <= t.days && s.totalRain <= t.totalRain && Level(s.status) <= Level(t.status)
  {
    var kept := Filter(table, inner);
    forall j | 0 <= j < |kept| ensures 0.0 <= kept[j].rainfall {
      assert kept[j] in table;
    }
    SumNonNegative(Rainfalls(kept));
    FilterWithin(table, inner, outer);
    StatusMonotone(Summarize(Filter(table, inner)).totalRain, Summarize(Filter(table, outer)).totalRain);
  }

  // ---------------------------------------------------------------- the page

  /** What the page shows for a selection: the range, its rows and their figures. */
  datatype View = View(range: Range, rows: seq<Row>, summary: Summary)

  datatype Page = Show(view: View) | Halt(reason: Stop)

  /** The whole page flow: stop on an empty table (line 51), pick the range (stopping on a custom
      start after its end, before any filtering), filter, and summarise the filtered rows. */
  function RenderPage(table: seq<Row>, mode: Mode): (p: Page)
    ensures p.Halt? <==> table == [] || (mode.Custom? && !DateLe(mode.from, mode.to))
    ensures p.Halt? ==> p.reason == (if table == [] then NoData else BadRange)
    ensures p.Show? ==> forall x :: x in p.view.rows <==> x in table && InRange(x.date, p.view.range)
    ensures p.Show? ==>
      table != [] && SelectRange(table, mode) == Pass(p.view.range) &&
      p.view.rows == Filter(table, p.view.range) && p.view.summary == Summarize(p.view.rows)
  {
    if table == [] then Halt(NoData)
    else
      match SelectRange(table, mode)
      case Fail(reason) => Halt(reason)
      case Pass(range) =>
        var rows := Filter(table, range);
        Show(View(range, rows, Summarize(rows)))
  }

  /** With the preselected year the page shows exactly the table's rows of its latest year; there
      is at least one, so the distribution chart is drawn. */
  lemma DefaultPageShowsLatestYear(table: seq<Row>)
    requires table != []
    requires forall i :: 0 <= i < |table| ==> ValidDate(table[i].date)
    ensures
      var p := RenderPage(table, PerYear(None));
      p.Show? && p.view.rows != [] && p.view.summary.distribution.Some? &&
      forall x :: x in p.view.rows <==> x in table && x.date.year == DefaultYear(table)
  {
    var y := DefaultYear(table);
    var i :| 0 <= i < |table| && table[i].date.year == y;
    assert table[i] in Filter(table, YearRange(y));
  }

  /** A custom range from the first to the last date of the data (the date boxes' defaults,
      lines 74-76) shows the whole table, in its order. */
  lemma FullCustomRangeShowsTable(table: seq<Row>, from: Date, to: Date)
    requires table != [] && DateLe(from, to)
    requires forall i :: 0 <= i < |table| ==> DateLe(from, table[i].date) && DateLe(table[i].date, to)
    ensures
      var p := RenderPage(table, Custom(from, to));
      p.Show? && p.view.rows == table && p.view.summary == Summarize(table)
  {
    FilterKeepsAll(table, Range(from, to));
  }

  /** A worked example: three days of January 2024 with 0, 15 and 60 mm of rain, each labelled
      by the classifier as the scraper does. */
  const ExampleTable: seq<Row> := [
    Row(Date(2024, 1, 1), 0.0, 5.0, LoadedIntensity(Classify(Num(0.0))), 24.0),
    Row(Date(2024, 1, 2), 15.0, 6.0, LoadedIntensity(Classify(Num(15.0))), 23.0),
    Row(Date(2024, 1, 3), 60.0, 7.0, LoadedIntensity(Classify(Num(60.0))), 22.0)]

  lemma ExampleRainfall()
    ensures Sum(Rainfalls(ExampleTable)) == 75.0
    ensures Mean(Rainfalls(ExampleTable)) == Some(25.0)
    ensures Max(Rainfalls(ExampleTable)) == Some(60.0)
  {
    ExampleRainColumn();
    ExampleRainFigures();
  }

  lemma ExampleRainColumn()
    ensures Rainfalls(ExampleTable) == [0.0, 15.0, 60.0]
  {
  }

  lemma ExampleRainFigures()
    ensures Sum([0.0, 15.0, 60.0]) == 75.0 && Mean([0.0, 15.0, 60.0]) == Some(25.0)
    ensures Max([0.0, 15.0, 60.0]) == Some(60.0)
  {
    var rain: seq<real> := [0.0, 15.0, 60.0];
    assert rain[1..] == [15.0, 60.0] && rain[1..][1..] == [60.0] && rain[1..][1..][1..] == [];
    assert Sum(rain[1..][1..]) == 60.0;
    assert Sum(rain[1..]) == 75.0;
    assert Max(rain[1..][1..]) == Some(60.0);
    assert Max(rain[1..]) == Some(60.0);
  }

  lemma ExampleClassified()
    ensures Classify(Num(0.0)) == TidakHujan && Classify(Num(15.0)) == Sedang
    ensures Classify(Num(60.0)) == SangatLebat
  {
    assert Coerce(Num(0.0)) == Some(0.0) && Coerce(Num(15.0)) == Some(15.0) && Coerce(Num(60.0)) == Some(60.0);
  }

  lemma ExampleLabels()
    ensures Labels(ExampleTable) == [TidakHujan, Sedang, SangatLebat]
  {
    var t := ExampleTable;
    ExampleClassified();
    assert t == [t[0], t[1], t[2]];
    LabelsOfThree(t[0], t[1], t[2], TidakHujan, Sedang, SangatLebat);
  }

  /** Three classified rows label as their three categories, in order. */
  lemma LabelsOfThree(x: Row, y: Row, z: Row, a: Category, b: Category, c: Category)
    requires x.intensity == Some(a) && y.intensity == Some(b) && z.intensity == Some(c)
    ensures Labels([x, y, z]) == [a, b, c]
  {
    LabelsOfTwo(y, z, b, c);
    LabelOfOne(x, [y, z], a);
    assert [x] + [y, z] == [x, y, z];
  }

  lemma LabelsOfTwo(y: Row, z: Row, b: Category, c: Category)
    requires y.intensity == Some(b) && z.intensity == Some(c)
    ensures Labels([y, z]) == [b, c]
  {
    LabelOfOne(z, [], c);
    assert [z] + [] == [z];
    LabelOfOne(y, [z], b);
    assert [y] + [z] == [y, z];
  }

  lemma LabelOfOne(x: Row, rest: seq<Row>, c: Category)
    requires x.intensity == Some(c)
    ensures Labels([x] + rest) == [c] + Labels(rest)
  {
    assert ([x] + rest)[1..] == rest;
  }

  lemma ExampleLastTwoDays()
    ensures Histogram([Sedang, SangatLebat]) == map[Sedang := 1, SangatLebat := 1]
  {
    assert [Sedang, SangatLebat][1..] == [SangatLebat];
    assert Histogram([SangatLebat]) == map[SangatLebat := 1];
  }

  lemma ExampleThreeLabels()
    ensures Histogram([TidakHujan, Sedang, SangatLebat]) == map[TidakHujan := 1, Sedang := 1, SangatLebat := 1]
  {
    ExampleLastTwoDays();
    assert [TidakHujan, Sedang, SangatLebat][1..] == [Sedang, SangatLebat];
  }

  lemma ExampleDistribution()
    ensures Histogram(Labels(ExampleTable)) == map[TidakHujan := 1, Sedang := 1, SangatLebat := 1]
  {
    ExampleLabels();
    ExampleThreeLabels();
  }
  /** The example's own first and last day bound a range that keeps all three days. */
  lemma ExampleFiltered()
    ensures Filter(ExampleTable, Range(Date(2024, 1, 1), Date(2024, 1, 3))) == ExampleTable
  {
    FilterKeepsAll(ExampleTable, Range(Date(2024, 1, 1), Date(2024, 1, 3)));
  }

  /** Filtered to its own first and last day, the example has a mean of 25 mm, a maximum of
      60 mm, a total of 75 mm (medium status: above 50, not above 200), and one day each of no
      rain, moderate and very heavy rain. */
  lemma ThreeDayExample()
    ensures
      var s := Summarize(Filter(ExampleTable, Range(Date(2024, 1, 1), Date(2024, 1, 3))));
      s.meanRain == Figure(25.0) && s.maxRain == Figure(60.0) && s.totalRain == 75.0 &&
      s.status == Medium && s.days == 3 &&
      s.distribution == Some(map[TidakHujan := 1, Sedang := 1, SangatLebat := 1])
  {
    ExampleFiltered();
    ExampleSummary();
  }

  lemma ExampleSummary()
    ensures
      var s := Summarize(ExampleTable);
      s.meanRain == Figure(25.0) && s.maxRain == Figure(60.0) && s.totalRain == 75.0 &&
      s.status == Medium && s.days == 3 &&
      s.distribution == Some(map[TidakHujan := 1, Sedang := 1, SangatLebat := 1])
  {
    ExampleRainfall();
    ExampleDistribution();
  }
}

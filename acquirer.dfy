/** The record-building loop of `scrape_openmeteo_api`: one record per entry of the `time` array
    of the decoded archive response, all or nothing, written to the workbook once. */
module Acquirer {
  import opened Wrappers
  import opened Intensity

  /** The `daily` object of the response. A key that is absent or null is `None`. */
  datatype Daily = Daily(
    time: Option<seq<Value>>,
    precipitationSum: Option<seq<Value>>,
    windSpeedMax: Option<seq<Value>>,
    temperatureMax: Option<seq<Value>>,
    temperatureMin: Option<seq<Value>>)

  /** The decoded JSON body; `daily` is `None` when the key is absent. */
  datatype Response = Response(daily: Option<Daily>)

  /** One row of the sheet: date, rainfall and wind as received, derived intensity, mean temperature. */
  datatype Record = Record(date: Value, rainfall: Value, wind: Value, intensity: Category, avgTemp: real)

  /** `column[i]` of a key of `daily`; `None` for the `KeyError` or `IndexError` it raises. */
  function Entry(column: Option<seq<Value>>, i: nat): (e: Option<Value>)
    ensures e.Some? <==> column.Some? && i < |column.value|
    ensures e.Some? ==> e.value == column.value[i]
  {
    if column.Some? && i < |column.value| then Some(column.value[i]) else None
  }

  /** The mean of the day's two temperatures (line 65): only two numbers add; `None` is the
      `TypeError` any other pair raises. */
  function Average(a: Value, b: Value): (m: Option<real>)
    ensures m.Some? <==> a.Num? && b.Num?
    ensures m.Some? ==> a.x <= b.x ==> a.x <= m.value <= b.x
    ensures m.Some? ==> b.x <= a.x ==> b.x <= m.value <= a.x
  {
    if a.Num? && b.Num? then Some((a.x + b.x) / 2.0) else None
  }

  /** The loop body for day `i` runs without raising. */
  predicate DayOk(d: Daily, i: nat)
  {
    Entry(d.precipitationSum, i).Some? && Entry(d.windSpeedMax, i).Some? &&
    Entry(d.temperatureMax, i).Some? && Entry(d.temperatureMin, i).Some? &&
    Average(d.temperatureMax.value[i], d.temperatureMin.value[i]).Some?
  }

  /** The whole loop runs without raising: `time` is present and every day of it is readable. */
  predicate Complete(d: Daily)
  {
    d.time.Some? && forall i :: 0 <= i < |d.time.value| ==> DayOk(d, i)
  }

  /** `records` holds exactly one record per `time` entry, in order, each built from day i. */
  predicate Describes(records: seq<Record>, d: Daily)
    requires Complete(d)
  {
    |records| == |d.time.value| &&
    forall i :: 0 <= i < |records| ==>
      DayOk(d, i) &&
      records[i].date == d.time.value[i] &&
      records[i].rainfall == d.precipitationSum.value[i] &&
      records[i].wind == d.windSpeedMax.value[i] &&
      records[i].intensity == Classify(records[i].rainfall) &&
      records[i].avgTemp == (d.temperatureMax.value[i].x + d.temperatureMin.value[i].x) / 2.0
  }

  /** The loop of lines 57-66 over the indexed `time` entries, appending to `records`; any
      exception inside it ends the scrape with `None`. */
  method AssembleRecords(d: Daily) returns (records: Option<seq<Record>>)
    ensures records.Some? <==> Complete(d)
    ensures records.Some? ==> Describes(records.value, d)
  {
    if d.time.None? {
      return None;
    }
    var time := d.time.value;
    var acc: seq<Record> := [];
    var i := 0;
    while i < |time|
      invariant 0 <= i <= |time|
      invariant |acc| == i
      invariant forall j :: 0 <= j < i ==>
        DayOk(d, j) &&
        acc[j].date == time[j] &&
        acc[j].rainfall == d.precipitationSum.value[j] &&
        acc[j].wind == d.windSpeedMax.value[j] &&
        acc[j].intensity == Classify(acc[j].rainfall) &&
        acc[j].avgTemp == (d.temperatureMax.value[j].x + d.temperatureMin.value[j].x) / 2.0
    {
      var rain := Entry(d.precipitationSum, i);
      if rain.None? {
        assert !DayOk(d, i);
        return None;
      }
      var wind := Entry(d.windSpeedMax, i);
      if wind.None? {
        assert !DayOk(d, i);
        return None;
      }
      var hi := Entry(d.temperatureMax, i);
      var lo := Entry(d.temperatureMin, i);
      if hi.None? || lo.None? {
        assert !DayOk(d, i);
        return None;
      }
      var avg := Average(hi.value, lo.value);
      if avg.None? {
        assert !DayOk(d, i);
        return None;
      }
      acc := acc + [Record(time[i], rain.value, wind.value, Classify(rain.value), avg.value)];
      i := i + 1;
    }
    records := Some(acc);
  }

  /** Two record lists describing the same response are equal: the result is determined by the input. */
  lemma {:induction false} DescribesUnique(a: seq<Record>, b: seq<Record>, d: Daily)
    requires Complete(d) && Describes(a, d) && Describes(b, d)
    ensures a == b
  {
    assert forall i :: 0 <= i < |a| ==> a[i] == b[i];
  }

  /** The response was fetched, has a `daily` object, and its loop completes. */
  predicate Fetched(fetched: Option<Response>)
  {
    fetched.Some? && fetched.value.daily.Some? && Complete(fetched.value.daily.value)
  }

  /** The summary printed after the write (lines 86-96) runs without raising. An empty list
      builds a frame without columns, so reading its intensity column fails; a text value in the
      rainfall column makes its `sum` fail, and one in the wind column makes its `mean` fail. */
  predicate StatisticsOk(records: seq<Record>)
  {
    |records| > 0 &&
    forall i :: 0 <= i < |records| ==> !records[i].rainfall.Text? && !records[i].wind.Text?
  }

  /** Whether the statistics after the write raise depends on the response alone: they run
      exactly when `time` is non-empty and no day's rainfall or wind entry is text. */
  lemma StatisticsOfResponse(d: Daily, records: seq<Record>)
    requires Complete(d) && Describes(records, d)
    ensures StatisticsOk(records) <==>
      |d.time.value| > 0 &&
      forall i :: 0 <= i < |d.time.value| ==>
        DayOk(d, i) && !d.precipitationSum.value[i].Text? && !d.windSpeedMax.value[i].Text?
  {
    forall i | 0 <= i < |records|
      ensures DayOk(d, i) && records[i].rainfall == d.precipitationSum.value[i]
      ensures records[i].wind == d.windSpeedMax.value[i]
    {
    }
  }

  /** The output workbook `curah_hujan_bandung.xlsx`; `sheet` is `None` while no file exists. */
  class Workbook {
    var sheet: Option<seq<Record>>

    constructor (existing: Option<seq<Record>>)
      ensures sheet == existing
    {
      sheet := existing;
    }

    /** `scrape_openmeteo_api` after the HTTP request: `fetched` is `None` when the request, the
        status check or the JSON decoding failed. The sheet is overwritten once, with the whole
        list, as soon as the loop has completed; if the loop fails it is left as it was. The
        statistics printed after the write can still raise, and then the result is `None` although
        the sheet has been written. */
    method Scrape(fetched: Option<Response>) returns (df: Option<seq<Record>>)
      modifies this
      ensures Fetched(fetched) ==> sheet.Some? && Describes(sheet.value, fetched.value.daily.value)
      ensures !Fetched(fetched) ==> sheet == old(sheet)
      ensures df.Some? <==> Fetched(fetched) && StatisticsOk(sheet.value)
      ensures df.Some? ==> df == sheet
    {
      if fetched.None? || fetched.value.daily.None? {
        return None;
      }
      var records := AssembleRecords(fetched.value.daily.value);
      if records.None? {
        return None;
      }
      sheet := records;
      if !StatisticsOk(records.value) {
        return None;
      }
      df := records;
    }
  }
}

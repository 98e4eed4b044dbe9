/** Calendar dates as the dashboard uses them (midnight timestamps compared by day), and
    `format_indo`, which renders a date as "day MonthName year" in Indonesian. */
module Calendar {
  import opened Wrappers
  import opened Numerals

  datatype Date = Date(year: int, month: int, day: int)

  predicate IsLeapYear(y: int)
  {
    y % 4 == 0 && (y % 100 != 0 || y % 400 == 0)
  }

  function DaysInMonth(y: int, m: int): (n: int)
    requires 1 <= m <= 12
    ensures 28 <= n <= 31
  {
    if m == 2 then (if IsLeapYear(y) then 29 else 28)
    else if m == 4 || m == 6 || m == 9 || m == 11 then 30
    else 31
  }

  /** A date a pandas timestamp can carry. */
  predicate ValidDate(d: Date)
  {
    1 <= d.year && 1 <= d.month <= 12 && 1 <= d.day <= DaysInMonth(d.year, d.month)
  }

  /** Chronological order of days: year, then month, then day. */
  predicate DateLe(a: Date, b: Date)
  {
    a.year < b.year ||
    (a.year == b.year && (a.month < b.month || (a.month == b.month && a.day <= b.day)))
  }

  /** `DateLe` is a total order. */
  lemma DateLeTotalOrder(a: Date, b: Date, c: Date)
    ensures DateLe(a, a)
    ensures DateLe(a, b) && DateLe(b, a) ==> a == b
    ensures DateLe(a, b) && DateLe(b, c) ==> DateLe(a, c)
    ensures DateLe(a, b) || DateLe(b, a)
  {
  }

  /** `BULAN_MAP`: the Indonesian month names, January first. */
  const MonthNames: seq<string> := ["Januari", "Februari", "Maret", "April", "Mei", "Juni",
    "Juli", "Agustus", "September", "Oktober", "November", "Desember"]

  function MonthName(m: int): string
    requires 1 <= m <= 12
  {
    MonthNames[m - 1]
  }

  /** The month number whose name is `w` (the inverse lookup of `BULAN_MAP`). */
  function MonthNumber(w: string): (m: Option<int>)
    ensures m.Some? ==> 1 <= m.value <= 12 && MonthName(m.value) == w
    ensures m.None? ==> forall k :: 1 <= k <= 12 ==> MonthName(k) != w
  {
    FindName(w, 0)
  }

  function FindName(w: string, k: nat): (m: Option<int>)
    requires k <= 12
    ensures m.Some? ==> k < m.value <= 12 && MonthNames[m.value - 1] == w
    ensures m.None? ==> forall j :: k <= j < 12 ==> MonthNames[j] != w
    decreases 12 - k
  {
    if k == 12 then None
    else if MonthNames[k] == w then Some(k + 1)
    else FindName(w, k + 1)
  }

  /** `format_indo`: e.g. 5 Maret 2024 for 2024-03-05. It is defined for every valid date and
      loses nothing: its text reads back as the date it was made from. */
  function FormatIndo(d: Date): (text: string)
    requires ValidDate(d)
    ensures ParseIndo(text) == Some(d)
  {
    ParseOfParts(d);
    NatText(d.day) + " " + MonthName(d.month) + " " + NatText(d.year)
  }

  /** `s.split(' ')`. */
  function Words(s: string): seq<string>
    decreases |s|
  {
    var k := FirstIndex(s, ' ');
    if k == |s| then [s] else [s[..k]] + Words(s[k + 1..])
  }

  /** Reads "day MonthName year" back into a date. */
  function ParseIndo(s: string): Option<Date>
  {
    var w := Words(s);
    if |w| == 3 && |w[0]| > 0 && AllDigits(w[0]) && |w[2]| > 0 && AllDigits(w[2]) && MonthNumber(w[1]).Some? then
      Some(Date(DigitsValue(w[2]), MonthNumber(w[1]).value, DigitsValue(w[0])))
    else None
  }

  predicate NoSpace(s: string) { forall i :: 0 <= i < |s| ==> s[i] != ' ' }

  lemma WordsOfJoin(a: string, rest: string)
    requires NoSpace(a)
    ensures Words(a + " " + rest) == [a] + Words(rest)
  {
    var s := a + " " + rest;
    assert s[|a|] == ' ';
    assert FirstIndex(s, ' ') == |a|;
    assert s[..|a|] == a && s[|a| + 1..] == rest;
  }

  lemma WordsOfWord(a: string)
    requires NoSpace(a)
    ensures Words(a) == [a]
  {
    assert forall j :: 0 <= j < |a| ==> a[j] != ' ';
  }

  lemma MonthNamesHaveNoSpace(m: int)
    requires 1 <= m <= 12
    ensures NoSpace(MonthName(m))
  {
  }

  lemma DigitsHaveNoSpace(s: string)
    requires AllDigits(s)
    ensures NoSpace(s)
  {
  }

  /** The month names are pairwise distinct, so the month lookup inverts `BULAN_MAP`. */
  lemma MonthNumberOfName(m: int)
    requires 1 <= m <= 12
    ensures MonthNumber(MonthName(m)) == Some(m)
  {
    var r := MonthNumber(MonthName(m));
    assert r.Some?;
    assert MonthName(r.value) == MonthName(m);
    MonthNamesDistinct(r.value, m);
  }

  lemma MonthNamesDistinct(i: int, j: int)
    requires 1 <= i <= 12 && 1 <= j <= 12 && MonthName(i) == MonthName(j)
    ensures i == j
  {
  }

  /** "day MonthName year" splits into the day, the month name and the year. */
  lemma WordsOfParts(d: Date)
    requires ValidDate(d)
    ensures Words(NatText(d.day) + " " + MonthName(d.month) + " " + NatText(d.year)) ==
      [NatText(d.day), MonthName(d.month), NatText(d.year)]
  {
    var day, month, year := NatText(d.day), MonthName(d.month), NatText(d.year);
    DigitsHaveNoSpace(day);
    DigitsHaveNoSpace(year);
    MonthNamesHaveNoSpace(d.month);
    assert day + " " + month + " " + year == day + " " + (month + " " + year);
    WordsOfJoin(day, month + " " + year);
    WordsOfJoin(month, year);
    WordsOfWord(year);
  }

  lemma ParseOfParts(d: Date)
    requires ValidDate(d)
    ensures ParseIndo(NatText(d.day) + " " + MonthName(d.month) + " " + NatText(d.year)) == Some(d)
  {
    WordsOfParts(d);
    MonthNumberOfName(d.month);
    NatTextRoundTrip(d.day);
    NatTextRoundTrip(d.year);
  }

  /** Two different dates never render to the same text. */
  lemma FormatIndoInjective(a: Date, b: Date)
    requires ValidDate(a) && ValidDate(b) && FormatIndo(a) == FormatIndo(b)
    ensures a == b
  {
  }
}

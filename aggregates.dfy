/** The column reductions the dashboard shows: pandas `sum`, `mean`, `max` and `min`, with the
    empty column made explicit (`None` where pandas yields NaN), and how a value is displayed. */
module Aggregates {
  import opened Wrappers

  /** `Series.sum()`: an empty column sums to 0, not NaN. */
  function Sum(xs: seq<real>): (t: real)
    ensures xs == [] ==> t == 0.0
  {
    if xs == [] then 0.0 else xs[0] + Sum(xs[1..])
  }

  /** `Series.max()`: the largest value, `None` for an empty column. */
  function Max(xs: seq<real>): (m: Option<real>)
    ensures m.Some? <==> xs != []
    ensures m.Some? ==> m.value in xs && forall i :: 0 <= i < |xs| ==> xs[i] <= m.value
  {
    if xs == [] then None
    else
      var rest := Max(xs[1..]);
      if rest.None? || xs[0] >= rest.value then Some(xs[0]) else rest
  }

  /** `Series.min()`: the smallest value, `None` for an empty column. */
  function Min(xs: seq<real>): (m: Option<real>)
    ensures m.Some? <==> xs != []
    ensures m.Some? ==> m.value in xs && forall i :: 0 <= i < |xs| ==> m.value <= xs[i]
  {
    if xs == [] then None
    else
      var rest := Min(xs[1..]);
      if rest.None? || xs[0] <= rest.value then Some(xs[0]) else rest
  }

  /** `Series.mean()`: the sum over the count, `None` for an empty column. */
  function Mean(xs: seq<real>): (m: Option<real>)
    ensures m.Some? <==> xs != []
  {
    if xs == [] then None else Some(Sum(xs) / |xs| as real)
  }

  /** A sum of values within [lo, hi] lies within [n * lo, n * hi]. */
  lemma {:induction false} SumBounds(xs: seq<real>, lo: real, hi: real)
    requires forall i :: 0 <= i < |xs| ==> lo <= xs[i] <= hi
    ensures |xs| as real * lo <= Sum(xs) <= |xs| as real * hi
  {
    if xs != [] {
      SumBounds(xs[1..], lo, hi);
    }
  }

  /** Rainfall amounts are non-negative, so their total is too. */
  lemma SumNonNegative(xs: seq<real>)
    requires forall i :: 0 <= i < |xs| ==> 0.0 <= xs[i]
    ensures 0.0 <= Sum(xs)
  {
    if xs != [] {
      SumBounds(xs, 0.0, Max(xs).value);
    }
  }

  /** The mean of a non-empty column lies between its minimum and its maximum. */
  lemma MeanWithinExtrema(xs: seq<real>)
    requires xs != []
    ensures Min(xs).value <= Mean(xs).value <= Max(xs).value
  {
    MeanBetween(xs, Min(xs).value, Max(xs).value);
  }

  /** The mean of values within [lo, hi] lies within [lo, hi]. */
  lemma MeanBetween(xs: seq<real>, lo: real, hi: real)
    requires xs != [] && forall i :: 0 <= i < |xs| ==> lo <= xs[i] <= hi
    ensures lo <= Mean(xs).value <= hi
  {
    SumBounds(xs, lo, hi);
    DivideBounds(Sum(xs), |xs| as real, lo, hi);
  }

  lemma DivideBounds(s: real, n: real, lo: real, hi: real)
    requires n > 0.0 && n * lo <= s <= n * hi
    ensures lo <= s / n <= hi
  {
    var q := s / n;
    assert q * n == s;
    assert (q - lo) * n == s - n * lo;
    assert (hi - q) * n == n * hi - s;
  }

  /** What a metric box shows: the number, the "0.0" placeholder, or the text "nan". */
  datatype Shown = ZeroText | NanText | Figure(x: real)

  /** A metric box (line 104): a present value is formatted, a missing one is shown as "0.0". */
  function ShowOrZero(v: Option<real>): (s: Shown)
    ensures s != NanText
    ensures s == ZeroText <==> v.None?
    ensures v.Some? ==> s == Figure(v.value)
  {
    if v.Some? then Figure(v.value) else ZeroText
  }

  /** A popup figure formatted without a guard (line 201): a missing value prints as "nan". */
  function ShowUnguarded(v: Option<real>): (s: Shown)
    ensures s != ZeroText
    ensures s == NanText <==> v.None?
    ensures v.Some? ==> s == Figure(v.value)
  {
    if v.Some? then Figure(v.value) else NanText
  }
}

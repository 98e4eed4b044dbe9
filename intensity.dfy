/** The daily rainfall-intensity classifier `kategori_intensitas_curah_hujan`: the input is coerced
    to a number (falsy inputs to 0) and put in one of five buckets with inclusive upper bounds;
    anything that cannot be coerced is "N/A". */
module Intensity {
  import opened Wrappers
  import opened Numerals

  /** A scalar as it arrives from the decoded JSON response: `null`, a number, or a string. */
  datatype Value = Null | Num(x: real) | Text(s: string)

  datatype Category = TidakHujan | Ringan | Sedang | Lebat | SangatLebat | NotAvailable

  /** The label the source stores in the `Intensitas` column. */
  function Label(c: Category): string
  {
    match c
    case TidakHujan => "Tidak Hujan"
    case Ringan => "Ringan"
    case Sedang => "Sedang"
    case Lebat => "Lebat"
    case SangatLebat => "Sangat Lebat"
    case NotAvailable => "N/A"
  }

  /** Distinct categories carry distinct labels, so counting labels counts categories. */
  lemma LabelInjective(a: Category, b: Category)
    requires Label(a) == Label(b)
    ensures a == b
  {
  }

  /** Order of the five rainfall buckets, from dry to very heavy. */
  function Rank(c: Category): nat
    requires c != NotAvailable
  {
    match c
    case TidakHujan => 0
    case Ringan => 1
    case Sedang => 2
    case Lebat => 3
    case SangatLebat => 4
  }

  /** Inclusive upper bounds (mm) of the "Ringan", "Sedang" and "Lebat" buckets. */
  const UpperBounds: seq<real> := [10.0, 20.0, 50.0]

  /** How many bounds of `bounds` lie strictly below `x`. */
  function CountBelow(bounds: seq<real>, x: real): (k: nat)
    ensures k <= |bounds|
  {
    if bounds == [] then 0
    else (if bounds[0] < x then 1 else 0) + CountBelow(bounds[1..], x)
  }

  /** Unsigned decimal text "ddd", "ddd.ddd", "ddd." or ".ddd" with at least one digit. */
  function ParseUnsigned(s: string): Option<real>
  {
    var k := FirstIndex(s, '.');
    var whole := s[..k];
    var frac := if k < |s| then s[k + 1..] else [];
    if AllDigits(whole) && AllDigits(frac) && |whole| + |frac| > 0 then
      Some(DigitsValue(whole) as real + DigitsValue(frac) as real / Pow10(|frac|) as real)
    else None
  }

  /** Python's `float(s)` for plain decimal text with an optional sign; `None` stands for the
      `ValueError` it raises on anything else. */
  function ParseFloat(s: string): (r: Option<real>)
    ensures |s| > 0 && AllDigits(s) ==> r == Some(DigitsValue(s) as real)
    ensures r.Some? ==> forall i :: 0 <= i < |s| ==> IsNumberChar(s[i])
  {
    DigitsParse(s);
    UnsignedChars(s);
    UnsignedChars(if |s| > 0 then s[1..] else s);
    if |s| > 0 && s[0] == '-' then
      match ParseUnsigned(s[1..])
      case Some(x) => Some(-x)
      case None => None
    else if |s| > 0 && s[0] == '+' then ParseUnsigned(s[1..])
    else ParseUnsigned(s)
  }

  /** The coercion of line 20: falsy inputs (null, "", 0) become 0, a number is kept, and only
      non-empty text can fail (`None` is the exception path). */
  function Coerce(v: Value): (r: Option<real>)
    ensures v.Null? || v == Text("") || v == Num(0.0) ==> r == Some(0.0)
    ensures v.Num? ==> r == Some(v.x)
    ensures r.None? ==> v.Text? && v.s != ""
  {
    match v
    case Null => Some(0.0)
    case Num(x) => Some(x)
    case Text(s) => if s == "" then Some(0.0) else ParseFloat(s)
  }

  /** The if/elif chain over the coerced value. Negative values are not 0 and are <= 10, so
      they land in "Ringan". */
  function Bucket(x: real): (c: Category)
    ensures c != NotAvailable
    ensures x < 0.0 ==> c == Ringan
  {
    if x == 0.0 then TidakHujan
    else if x <= 10.0 then Ringan
    else if x <= 20.0 then Sedang
    else if x <= 50.0 then Lebat
    else SangatLebat
  }

  /** Non-empty text that does not read as a number: the only input `float()` raises on. */
  predicate Unreadable(v: Value)
  {
    v.Text? && v.s != "" && ParseFloat(v.s).None?
  }

  /** The classifier: total, and "N/A" exactly for non-empty text that does not read as a number. */
  function Classify(v: Value): (c: Category)
    ensures c == NotAvailable <==> Unreadable(v)
  {
    match Coerce(v)
    case None => NotAvailable
    case Some(x) => Bucket(x)
  }

  /** Every positive amount's bucket is one more than the number of upper bounds it exceeds:
      the buckets are the intervals (0, 10], (10, 20], (20, 50], (50, oo). */
  lemma BucketMatchesBounds(x: real)
    requires x > 0.0
    ensures Rank(Bucket(x)) == 1 + CountBelow(UpperBounds, x)
  {
    var b1 := UpperBounds[1..];
    var b2 := b1[1..];
    assert b1 == [20.0, 50.0] && b2 == [50.0] && b2[1..] == [];
    assert CountBelow(b2, x) == (if 50.0 < x then 1 else 0);
    assert CountBelow(b1, x) == (if 20.0 < x then 1 else 0) + CountBelow(b2, x);
    assert CountBelow(UpperBounds, x) == (if 10.0 < x then 1 else 0) + CountBelow(b1, x);
  }

  lemma {:induction false} CountBelowMonotone(bounds: seq<real>, x: real, y: real)
    requires x <= y
    ensures CountBelow(bounds, x) <= CountBelow(bounds, y)
  {
    if bounds != [] {
      CountBelowMonotone(bounds[1..], x, y);
    }
  }

  /** For positive rainfall the category never decreases as the amount grows. */
  lemma BucketMonotone(x: real, y: real)
    requires 0.0 < x <= y
    ensures Rank(Bucket(x)) <= Rank(Bucket(y))
  {
    BucketMatchesBounds(x);
    BucketMatchesBounds(y);
    CountBelowMonotone(UpperBounds, x, y);
  }

  /** The upper bounds are inclusive: each boundary belongs to the lower bucket. */
  lemma BoundariesInclusive()
    ensures Classify(Num(0.0)) == TidakHujan
    ensures Classify(Num(10.0)) == Ringan && Classify(Num(10.01)) == Sedang
    ensures Classify(Num(20.0)) == Sedang && Classify(Num(20.01)) == Lebat
    ensures Classify(Num(50.0)) == Lebat && Classify(Num(50.01)) == SangatLebat
  {
  }

  /** Falsy inputs are coerced to 0 and classified as no rain, not as "N/A". */
  lemma FalsyIsNoRain()
    ensures Classify(Null) == TidakHujan
    ensures Classify(Text("")) == TidakHujan
    ensures Classify(Num(0.0)) == TidakHujan
  {
  }

  predicate IsNumberChar(c: char) { IsDigit(c) || c == '.' || c == '+' || c == '-' }

  /** Digit-only text has no dot, so it reads as a whole number. */
  lemma DigitsParse(s: string)
    ensures |s| > 0 && AllDigits(s) ==> ParseUnsigned(s) == Some(DigitsValue(s) as real)
  {
    if |s| > 0 && AllDigits(s) {
      NoDotInDigits(s);
      UnsignedWithoutDot(s);
      WholeValue(DigitsValue(s) as real, DigitsValue([]), Pow10(0));
    }
  }

  lemma NoDotInDigits(s: string)
    requires AllDigits(s)
    ensures FirstIndex(s, '.') == |s|
  {
    assert forall j :: 0 <= j < |s| ==> s[j] != '.';
  }

  lemma UnsignedWithoutDot(s: string)
    requires |s| > 0 && AllDigits(s) && FirstIndex(s, '.') == |s|
    ensures ParseUnsigned(s) == Some(DigitsValue(s) as real + DigitsValue([]) as real / Pow10(0) as real)
  {
    assert s[..|s|] == s;
  }

  lemma WholeValue(x: real, d: nat, p: nat)
    requires d == 0 && p == 1
    ensures x + d as real / p as real == x
  {
  }

  /** Only digits and a dot survive the unsigned reader. */
  lemma UnsignedChars(s: string)
    ensures ParseUnsigned(s).Some? ==> forall i :: 0 <= i < |s| ==> IsDigit(s[i]) || s[i] == '.'
  {
    forall i | 0 <= i < |s| && !IsDigit(s[i]) && s[i] != '.' ensures ParseUnsigned(s).None? {
      UnsignedRejectsForeignChar(s, i);
    }
  }

  lemma UnsignedRejectsForeignChar(s: string, i: nat)
    requires i < |s| && !IsDigit(s[i]) && s[i] != '.'
    ensures ParseUnsigned(s).None?
  {
    var k := FirstIndex(s, '.');
    if i < k {
      assert s[..k][i] == s[i];
    } else {
      assert i > k;
      assert s[k + 1..][i - k - 1] == s[i];
    }
  }

  /** Text holding a character that cannot occur in a decimal number is "N/A". */
  lemma ForeignCharIsNotAvailable(s: string, i: nat)
    requires i < |s| && !IsNumberChar(s[i])
    ensures Classify(Text(s)) == NotAvailable
  {
    if s[0] == '-' || s[0] == '+' {
      UnsignedRejectsForeignChar(s[1..], i - 1);
    } else {
      UnsignedRejectsForeignChar(s, i);
    }
  }

  /** The decimal text of a whole number reads back as that number, so it classifies like it. */
  lemma NumericTextClassifiesAsNumber(n: nat)
    ensures Coerce(Text(NatText(n))) == Some(n as real)
    ensures Classify(Text(NatText(n))) == Classify(Num(n as real))
  {
    var s := NatText(n);
    assert forall j :: 0 <= j < |s| ==> s[j] != '.';
    assert FirstIndex(s, '.') == |s|;
    assert s[..|s|] == s;
    NatTextRoundTrip(n);
  }
}

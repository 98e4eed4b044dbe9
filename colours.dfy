/** The hex-colour parse in `make_plotly_chart` (area charts): strip the leading '#' and read
    three two-character slices as base-16 integers. */
module Colours {
  import opened Wrappers
  import opened Numerals

  datatype Rgb = Rgb(r: nat, g: nat, b: nat)

  /** `s.lstrip('#')`: every leading '#' is dropped, nothing else. */
  function StripHashes(s: string): (t: string)
    ensures |t| <= |s| && t == s[|s| - |t|..]
    ensures t == [] || t[0] != '#'
    ensures forall i :: 0 <= i < |s| - |t| ==> s[i] == '#'
  {
    if s != [] && s[0] == '#' then StripHashes(s[1..]) else s
  }

  /** Python's slice `c[i:j]`, which is clamped to the string and never fails. */
  function Slice(c: string, i: nat, j: nat): (p: string)
    requires i <= j
    ensures |p| <= j - i
  {
    var lo := if i < |c| then i else |c|;
    var hi := if j < |c| then j else |c|;
    c[lo..hi]
  }

  /** `int(p, 16)` on a piece of hex digits; `None` stands for the `ValueError` on an empty
      piece or a non-hex character. */
  function ParseHex(p: string): (n: Option<nat>)
    ensures n.Some? ==> n.value < Pow16(|p|)
  {
    if |p| > 0 && AllHexDigits(p) then Some(HexValue(p)) else None
  }

  /** One component: a slice of at most two characters read in base 16, which is a byte. */
  function ParseByte(p: string): (n: Option<nat>)
    requires |p| <= 2
    ensures n == ParseHex(p)
    ensures n.Some? ==> n.value < 256
  {
    assert Pow16(0) == 1 && Pow16(1) == 16 && Pow16(2) == 256;
    ParseHex(p)
  }

  /** Lines 126-127: the colour without its leading '#', cut into the slices at 0, 2 and 4 of width
      two, each read in base 16. Every component is a byte. */
  function HexToRgb(colour: string): (rgb: Option<Rgb>)
    ensures rgb.Some? ==> rgb.value.r < 256 && rgb.value.g < 256 && rgb.value.b < 256
  {
    var c := StripHashes(colour);
    var r, g, b := ParseByte(Slice(c, 0, 2)), ParseByte(Slice(c, 2, 4)), ParseByte(Slice(c, 4, 6));
    if r.Some? && g.Some? && b.Some? then Some(Rgb(r.value, g.value, b.value)) else None
  }

  /** Two lower-case hex digits for a byte. */
  function ByteHex(n: nat): (s: string)
    requires n < 256
    ensures |s| == 2 && AllHexDigits(s)
  {
    [HexDigitChar(n / 16), HexDigitChar(n % 16)]
  }

  /** The `#rrggbb` text of a colour. */
  function RgbHex(c: Rgb): string
    requires c.r < 256 && c.g < 256 && c.b < 256
  {
    "#" + ByteHex(c.r) + ByteHex(c.g) + ByteHex(c.b)
  }

  lemma ByteHexRoundTrip(n: nat)
    requires n < 256
    ensures ParseHex(ByteHex(n)) == Some(n)
  {
    var s := ByteHex(n);
    assert s[..1] == [s[0]] && s[..1][..0] == [] && s[..|s| - 1] == s[..1];
    assert HexValue(s[..1]) == n / 16;
    assert HexValue(s) == (n / 16) * 16 + n % 16;
  }

  /** Parsing inverts rendering: every byte triple survives `#rrggbb` and back. */
  lemma HexRoundTrip(c: Rgb)
    requires c.r < 256 && c.g < 256 && c.b < 256
    ensures HexToRgb(RgbHex(c)) == Some(c)
  {
    var x, y, z := ByteHex(c.r), ByteHex(c.g), ByteHex(c.b);
    StripRendered(c);
    SlicesOfPairs(x, y, z);
    ByteHexRoundTrip(c.r);
    ByteHexRoundTrip(c.g);
    ByteHexRoundTrip(c.b);
  }

  lemma StripRendered(c: Rgb)
    requires c.r < 256 && c.g < 256 && c.b < 256
    ensures StripHashes(RgbHex(c)) == ByteHex(c.r) + ByteHex(c.g) + ByteHex(c.b)
  {
    var x := ByteHex(c.r);
    var body := x + ByteHex(c.g) + ByteHex(c.b);
    assert RgbHex(c) == "#" + body;
    assert ("#" + body)[1..] == body;
    assert body[0] == x[0] && IsHexDigit(x[0]);
  }

  lemma SlicesOfPairs(x: string, y: string, z: string)
    requires |x| == 2 && |y| == 2 && |z| == 2
    ensures Slice(x + y + z, 0, 2) == x && Slice(x + y + z, 2, 4) == y && Slice(x + y + z, 4, 6) == z
  {
    var body := x + y + z;
    assert body[0..2] == x && body[2..4] == y && body[4..6] == z;
  }

  lemma StripExtraHash(s: string)
    ensures StripHashes("#" + s) == StripHashes(s)
  {
    assert ("#" + s)[1..] == s;
  }

  /** Extra leading '#' characters make no difference. */
  lemma ExtraHashIgnored(s: string)
    ensures HexToRgb("#" + s) == HexToRgb(s)
  {
    StripExtraHash(s);
  }

  lemma WindColourText()
    ensures RgbHex(Rgb(46, 204, 113)) == "#2ecc71"
  {
    assert ByteHex(46) == "2e" && ByteHex(204) == "cc" && ByteHex(113) == "71";
  }

  lemma TemperatureColourText()
    ensures RgbHex(Rgb(255, 75, 75)) == "#ff4b4b"
  {
    assert ByteHex(255) == "ff" && ByteHex(75) == "4b";
  }

  /** The two colours the area charts parse: wind `#2ecc71` and temperature `#ff4b4b`. */
  lemma ChartColours()
    ensures HexToRgb("#2ecc71") == Some(Rgb(46, 204, 113))
    ensures HexToRgb("#ff4b4b") == Some(Rgb(255, 75, 75))
  {
    HexRoundTrip(Rgb(46, 204, 113));
    HexRoundTrip(Rgb(255, 75, 75));
    WindColourText();
    TemperatureColourText();
  }
}

/**
 * src/shared/color.ts: the strict `#rrggbb` parser and the brightness test
 * built on it.
 */
module Color {
  import opened Wrappers
  import opened Ascii
  import ColorEngine

  /** `RgbColor`. */
  datatype Rgb = Rgb(r: int, g: int, b: int)

  predicate InByteRange(c: Rgb) {
    0 <= c.r <= 255 && 0 <= c.g <= 255 && 0 <= c.b <= 255
  }

  /** The regular-expression class `[a-f\d]` under the `i` flag. */
  predicate IsHexDigit(c: char) {
    '0' <= c <= '9' || 'a' <= c <= 'f' || 'A' <= c <= 'F'
  }

  predicate AllHexDigits(s: string) {
    forall i :: 0 <= i < |s| ==> IsHexDigit(s[i])
  }

  function HexDigitValue(c: char): (n: nat)
    requires IsHexDigit(c)
    ensures n < 16
  {
    if c <= '9' then c as int - '0' as int
    else if c <= 'F' then c as int - 'A' as int + 10
    else c as int - 'a' as int + 10
  }

  /** `Number.parseInt(pair, 16)` for a two-digit pair. */
  function PairValue(hi: char, lo: char): (n: nat)
    requires IsHexDigit(hi) && IsHexDigit(lo)
    ensures n <= 255
    ensures n / 16 == HexDigitValue(hi) && n % 16 == HexDigitValue(lo)
  {
    16 * HexDigitValue(hi) + HexDigitValue(lo)
  }

  /** The strings the pattern `^#?([a-f\d]{2})([a-f\d]{2})([a-f\d]{2})$` with flag `i` accepts. */
  predicate MatchesHexPattern(s: string)
    ensures MatchesHexPattern(s) ==> |s| >= 6 && AllHexDigits(s[|s| - 6..])
    ensures MatchesHexPattern(s) ==> (|s| == 7 <==> s[0] == '#')
  {
    || (|s| == 6 && AllHexDigits(s))
    || (|s| == 7 && s[0] == '#' && AllHexDigits(s[1..]))
  }

  /** The six digits of a string that matches the pattern. */
  function DigitsOf(s: string): (d: string)
    requires MatchesHexPattern(s)
    ensures |d| == 6 && AllHexDigits(d)
  {
    if |s| == 7 then s[1..] else s
  }

  /**
   * `hexToRgb`: `None` (the source's `null`) unless the whole string is an
   * optional `#` and exactly six hex digits in either case; otherwise each
   * channel is the value of its two-digit pair.
   */
  function HexToRgb(hex: string): (r: Option<Rgb>)
    ensures r.Some? <==> MatchesHexPattern(hex)
    ensures r.Some? ==>
              var d := DigitsOf(hex);
              && r.value == Rgb(PairValue(d[0], d[1]), PairValue(d[2], d[3]), PairValue(d[4], d[5]))
              && InByteRange(r.value)
  {
    var d := if |hex| > 0 && hex[0] == '#' then hex[1..] else hex;
    if |d| == 6 && AllHexDigits(d) then
      Some(Rgb(PairValue(d[0], d[1]), PairValue(d[2], d[3]), PairValue(d[4], d[5])))
    else
      None
  }

  /** The shorthand form, a missing digit, an extra digit and surrounding white space are refused. */
  lemma HexToRgbRejects()
    ensures HexToRgb("#fff") == None
    ensures HexToRgb("#fffff") == None
    ensures HexToRgb("#fffffff") == None
    ensures HexToRgb(" #ffffff") == None
    ensures HexToRgb("#ffffff ") == None
  {
    assert !IsHexDigit(' ');
    assert !AllHexDigits("#ffffff "[1..]) by { assert "#ffffff "[1..][6] == ' '; }
  }

  /** An accepted string holds no white space at all. */
  lemma HexToRgbNoSpace(s: string, i: int)
    requires HexToRgb(s).Some? && 0 <= i < |s|
    ensures !IsSpace(s[i])
  {
    if |s| == 7 && i > 0 {
      assert s[i] == s[1..][i - 1];
    }
  }

  /** The leading `#` is optional. */
  lemma HexToRgbHashOptional(s: string)
    requires |s| == 0 || s[0] != '#'
    ensures HexToRgb("#" + s) == HexToRgb(s)
  {
    assert ("#" + s)[1..] == s;
  }

  /** Upper- and lower-case digits are read alike. */
  lemma HexToRgbCaseInsensitive(s: string)
    ensures HexToRgb(ToLower(s)) == HexToRgb(s)
  {
    var l := ToLower(s);
    if |s| > 0 {
      LowerDigit(s[0]);
      assert l[0] == '#' <==> s[0] == '#';
    }
    var d := if |s| > 0 && s[0] == '#' then s[1..] else s;
    var e := if |l| > 0 && l[0] == '#' then l[1..] else l;
    assert |e| == |d| && forall i :: 0 <= i < |d| ==> e[i] == LowerChar(d[i]);
    LowerKeepsDigits(d, e);
  }

  lemma LowerDigit(c: char)
    ensures IsHexDigit(LowerChar(c)) == IsHexDigit(c)
    ensures IsHexDigit(c) ==> HexDigitValue(LowerChar(c)) == HexDigitValue(c)
    ensures LowerChar(c) == '#' <==> c == '#'
  {
  }

  /** A lowered string has the same digits, with the same values. */
  lemma LowerKeepsDigits(a: string, b: string)
    requires |a| == |b| && forall i :: 0 <= i < |a| ==> b[i] == LowerChar(a[i])
    ensures AllHexDigits(b) == AllHexDigits(a)
    ensures AllHexDigits(a) ==> forall i :: 0 <= i < |a| ==> HexDigitValue(b[i]) == HexDigitValue(a[i])
  {
    forall i | 0 <= i < |a| ensures IsHexDigit(b[i]) == IsHexDigit(a[i]) {
      LowerDigit(a[i]);
    }
    forall i | 0 <= i < |a| && IsHexDigit(a[i]) ensures HexDigitValue(b[i]) == HexDigitValue(a[i]) {
      LowerDigit(a[i]);
    }
  }

  /** The lower-case digit for a value below 16. */
  function HexDigitChar(n: nat): (c: char)
    requires n < 16
    ensures IsHexDigit(c) && !IsUpper(c) && HexDigitValue(c) == n
  {
    "0123456789abcdef"[n]
  }

  /** Two lower-case digits for a byte. */
  function ByteToHex(n: nat): (s: string)
    requires n <= 255
    ensures |s| == 2 && AllHexDigits(s) && IsLower(s)
    ensures PairValue(s[0], s[1]) == n
  {
    [HexDigitChar(n / 16), HexDigitChar(n % 16)]
  }

  /** The canonical `#rrggbb` text of a colour whose channels are bytes. */
  function RgbToHex(c: Rgb): (s: string)
    requires InByteRange(c)
    ensures |s| == 7 && s[0] == '#'
  {
    "#" + ByteToHex(c.r) + ByteToHex(c.g) + ByteToHex(c.b)
  }

  /** Rendering a colour as six hex digits and parsing it gives the colour back. */
  lemma HexRoundTrip(c: Rgb)
    requires InByteRange(c)
    ensures HexToRgb(RgbToHex(c)) == Some(c)
    ensures HexToRgb(RgbToHex(c)[1..]) == Some(c)
  {
    var s := RgbToHex(c);
    var d := s[1..];
    assert d == ByteToHex(c.r) + ByteToHex(c.g) + ByteToHex(c.b);
    assert AllHexDigits(d);
  }

  /**
   * Parsing and re-rendering gives the canonical form of the input, which
   * is what `normalizeHex` makes of it.
   */
  lemma HexToRgbCanonical(s: string)
    requires HexToRgb(s).Some?
    ensures RgbToHex(HexToRgb(s).value) == ColorEngine.NormalizeHex(s)
  {
    var d := DigitsOf(s);
    RenderedDigits(d);
    forall i | 0 <= i < |s| ensures !IsSpace(s[i]) { HexToRgbNoSpace(s, i); }
    TrimOfTrimmed(s);
    var l := ToLower(s);
    if |s| == 7 {
      ToLowerTail(s);
      assert l == "#" + ToLower(d);
    } else {
      assert l == ToLower(d);
    }
  }

  /** Six parsed digits are rendered back as the same digits in lower case. */
  lemma RenderedDigits(d: string)
    requires |d| == 6 && AllHexDigits(d)
    ensures RgbToHex(Rgb(PairValue(d[0], d[1]), PairValue(d[2], d[3]), PairValue(d[4], d[5]))) == "#" + ToLower(d)
  {
    PairToHex(d[0], d[1]);
    PairToHex(d[2], d[3]);
    PairToHex(d[4], d[5]);
    var ld := ToLower(d);
    assert ld == [ld[0], ld[1]] + [ld[2], ld[3]] + [ld[4], ld[5]];
  }

  /** A parsed pair is rendered as the same two digits in lower case. */
  lemma PairToHex(hi: char, lo: char)
    requires IsHexDigit(hi) && IsHexDigit(lo)
    ensures ByteToHex(PairValue(hi, lo)) == [LowerChar(hi), LowerChar(lo)]
  {
    var n := PairValue(hi, lo);
    assert n / 16 == HexDigitValue(hi) && n % 16 == HexDigitValue(lo);
    DigitCharOfValue(hi);
    DigitCharOfValue(lo);
  }

  lemma DigitCharOfValue(c: char)
    requires IsHexDigit(c)
    ensures HexDigitChar(HexDigitValue(c)) == LowerChar(c)
  {
  }

  /** The weighted sum `299 r + 587 g + 114 b` (the source divides it by 1000). */
  function WeightedBrightness(c: Rgb): int {
    c.r * 299 + c.g * 587 + c.b * 114
  }

  /**
   * `isLightColor`: false when the text does not parse; otherwise whether
   * the brightness `(299 r + 587 g + 114 b) / 1000` exceeds 128.
   */
  function IsLightColor(hexColor: string): (light: bool)
    ensures HexToRgb(hexColor).None? ==> !light
    ensures HexToRgb(hexColor).Some? ==> (light <==> WeightedBrightness(HexToRgb(hexColor).value) > 128000)
  {
    match HexToRgb(hexColor)
    case None => false
    case Some(rgb) => WeightedBrightness(rgb) as real / 1000.0 > 128.0
  }

  /** Raising channels never turns a light colour dark. */
  lemma IsLightColorMonotone(a: string, b: string)
    requires HexToRgb(a).Some? && HexToRgb(b).Some?
    requires HexToRgb(a).value.r <= HexToRgb(b).value.r
    requires HexToRgb(a).value.g <= HexToRgb(b).value.g
    requires HexToRgb(a).value.b <= HexToRgb(b).value.b
    requires IsLightColor(a)
    ensures IsLightColor(b)
  {
  }

  /** White is light, black is not, and mid grey sits exactly on the threshold, which is not light. */
  lemma IsLightColorExamples()
    ensures IsLightColor("#ffffff")
    ensures !IsLightColor("#000000")
    ensures !IsLightColor("#808080")
    ensures IsLightColor("#818181")
    ensures !IsLightColor("white")
  {
    assert AllHexDigits("#ffffff"[1..]);
    assert AllHexDigits("#000000"[1..]);
    assert AllHexDigits("#808080"[1..]);
    assert AllHexDigits("#818181"[1..]);
  }
}

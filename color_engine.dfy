/**
 * The format catalogue and the numeric and textual normalisations of
 * src/shared/color-engine.ts.  The colour-space conversions themselves are
 * done by a library; here they are a `Renderer` passed in by the caller.
 */
module ColorEngine {
  import opened Wrappers
  import opened Ascii

  /** The `ColorFormatId` union. */
  datatype FormatId = Hex | Rgb | Hsl | Oklch | Oklab | Lab | Lch | P3

  /** `COLOR_FORMAT_IDS`, in display order. */
  const FormatIds: seq<FormatId> := [Hex, Rgb, Hsl, Oklch, Oklab, Lab, Lch, P3]

  /** The string literal that stands for each format id. */
  function IdString(f: FormatId): string {
    match f
    case Hex => "hex"
    case Rgb => "rgb"
    case Hsl => "hsl"
    case Oklch => "oklch"
    case Oklab => "oklab"
    case Lab => "lab"
    case Lch => "lch"
    case P3 => "p3"
  }

  /** `COLOR_FORMAT_LABELS`. */
  function Label(f: FormatId): string {
    match f
    case Hex => "HEX"
    case Rgb => "RGB"
    case Hsl => "HSL"
    case Oklch => "OKLCH"
    case Oklab => "OKLab"
    case Lab => "Lab"
    case Lch => "LCH"
    case P3 => "Display-P3"
  }

  /** The id whose string literal is `s`, if there is one. */
  function FormatIdOf(s: string): (r: Option<FormatId>)
    ensures r.Some? ==> IdString(r.value) == s
    ensures r.None? ==> forall f :: IdString(f) != s
  {
    if s == "hex" then Some(Hex)
    else if s == "rgb" then Some(Rgb)
    else if s == "hsl" then Some(Hsl)
    else if s == "oklch" then Some(Oklch)
    else if s == "oklab" then Some(Oklab)
    else if s == "lab" then Some(Lab)
    else if s == "lch" then Some(Lch)
    else if s == "p3" then Some(P3)
    else None
  }

  /**
   * The catalogue lists eight distinct ids, every member of the union is
   * listed, distinct ids have distinct strings, and every id has a label.
   */
  lemma FormatCatalogue()
    ensures |FormatIds| == 8
    ensures forall i, j :: 0 <= i < j < |FormatIds| ==> FormatIds[i] != FormatIds[j]
    ensures forall f: FormatId :: f in FormatIds
    ensures forall f, g :: IdString(f) == IdString(g) ==> f == g
    ensures forall f :: |Label(f)| > 0
  {
    forall f: FormatId ensures f in FormatIds {
      match f
      case Hex => assert FormatIds[0] == f;
      case Rgb => assert FormatIds[1] == f;
      case Hsl => assert FormatIds[2] == f;
      case Oklch => assert FormatIds[3] == f;
      case Oklab => assert FormatIds[4] == f;
      case Lab => assert FormatIds[5] == f;
      case Lch => assert FormatIds[6] == f;
      case P3 => assert FormatIds[7] == f;
    }
    forall f, g | IdString(f) == IdString(g) ensures f == g {
      assert FormatIdOf(IdString(f)) == Some(f);
    }
  }

  /** `clamp(value, min, max)`, that is `Math.min(max, Math.max(min, value))`. */
  function Clamp(value: real, min: real, max: real): (r: real)
    ensures r <= max
    ensures min <= max ==> min <= r
    ensures min <= value <= max ==> r == value
    ensures value < min && min <= max ==> r == min
    ensures max < value ==> r == max
  {
    var lower := if min < value then value else min;
    if lower < max then lower else max
  }

  /** ECMAScript's truncation toward zero of the quotient. */
  function Trunc(x: real): int {
    if x >= 0.0 then x.Floor else -((-x).Floor)
  }

  /**
   * ECMAScript's `a % 360`: the result takes the sign of the dividend,
   * unlike Dafny's Euclidean remainder.
   */
  function JsRem360(a: real): (r: real)
    ensures 0.0 <= a ==> 0.0 <= r < 360.0
    ensures a < 0.0 ==> -360.0 < r <= 0.0
    ensures r == a - 360.0 * Trunc(a / 360.0) as real
  {
    a - 360.0 * Trunc(a / 360.0) as real
  }

  /** The mathematical (floored) remainder of a hue angle by a full turn. */
  function HueMod(v: real): real {
    v - 360.0 * (v / 360.0).Floor as real
  }

  /**
   * `normalizeHue`: `((value % 360) + 360) % 360` with ECMAScript's `%`.
   * The result is an angle in [0, 360) and it is the floored remainder of
   * the input by 360, whatever the sign of the input.
   */
  function NormalizeHue(value: real): (r: real)
    ensures 0.0 <= r < 360.0
    ensures r == HueMod(value)
  {
    var t := JsRem360(value);
    var r := JsRem360(t + 360.0);
    HueModAgrees(value, t, r);
    r
  }

  lemma HueModAgrees(v: real, t: real, r: real)
    requires t == JsRem360(v)
    requires r == JsRem360(t + 360.0)
    ensures r == HueMod(v)
  {
    var T := Trunc(v / 360.0);
    var u := t + 360.0;
    assert t == v - 360.0 * T as real;
    if v >= 0.0 {
      assert 360.0 <= u < 720.0;
      assert (u / 360.0).Floor == 1;
      assert (v / 360.0).Floor == T;
    } else if t == 0.0 {
      assert u / 360.0 == 1.0;
      assert v / 360.0 == T as real;
    } else {
      assert 0.0 < u < 360.0;
      assert (u / 360.0).Floor == 0;
      assert T == -((-v / 360.0).Floor);
      assert (-v / 360.0) != (-v / 360.0).Floor as real;
      assert (v / 360.0).Floor == T - 1;
    }
  }

  /** On an integer angle the result is Dafny's Euclidean `v % 360`. */
  lemma NormalizeHueOfInt(v: int)
    ensures NormalizeHue(v as real) == (v % 360) as real
  {
    var q, m := v / 360, v % 360;
    assert v == 360 * q + m && 0 <= m < 360;
    assert v as real / 360.0 == q as real + m as real / 360.0;
    assert (v as real / 360.0).Floor == q;
  }

  /** Normalising a second time changes nothing. */
  lemma NormalizeHueIdempotent(v: real)
    ensures NormalizeHue(NormalizeHue(v)) == NormalizeHue(v)
  {
    var r := NormalizeHue(v);
    assert (r / 360.0).Floor == 0;
  }

  /** Whole turns added or removed do not change the normalised hue. */
  lemma NormalizeHuePeriodic(v: real, k: int)
    ensures NormalizeHue(v + 360.0 * k as real) == NormalizeHue(v)
  {
    var w := v + 360.0 * k as real;
    assert w / 360.0 == v / 360.0 + k as real;
    assert (w / 360.0).Floor == (v / 360.0).Floor + k;
  }

  lemma NormalizeHueExamples()
    ensures NormalizeHue(-30.0) == 330.0
    ensures NormalizeHue(720.0) == 0.0
    ensures NormalizeHue(0.0) == 0.0
    ensures NormalizeHue(360.0) == 0.0
  {
    NormalizeHueOfInt(-30);
    NormalizeHueOfInt(720);
    NormalizeHueOfInt(0);
    NormalizeHueOfInt(360);
  }

  /** Already trimmed, free of upper-case letters and starting with `#`. */
  predicate IsNormalizedHex(s: string) {
    |s| > 0 && s[0] == '#' && IsTrimmed(s) && IsLower(s)
  }

  /**
   * `normalizeHex`: trim, lower-case, then prefix `#` unless the string
   * already starts with one.  No check of the digits is made.
   */
  function NormalizeHex(hex: string): (r: string)
    ensures IsNormalizedHex(r)
    ensures var n := ToLower(Trim(hex)); r == n || r == "#" + n
    ensures var n := ToLower(Trim(hex)); r == n <==> (|n| > 0 && n[0] == '#')
  {
    var normalized := ToLower(Trim(hex));
    ToLowerKeepsTrimmed(Trim(hex));
    if |normalized| > 0 && normalized[0] == '#' then normalized
    else
      HashPrefixNormalized(normalized);
      "#" + normalized
  }

  lemma HashPrefixNormalized(n: string)
    requires IsTrimmed(n) && IsLower(n)
    ensures IsNormalizedHex("#" + n)
  {
    var h := "#" + n;
    assert forall i :: 1 <= i < |h| ==> h[i] == n[i - 1];
  }

  /** A string in normal form is returned unchanged. */
  lemma NormalizeHexOfNormalized(s: string)
    requires IsNormalizedHex(s)
    ensures NormalizeHex(s) == s
  {
    TrimOfTrimmed(s);
    ToLowerOfLower(s);
  }

  lemma NormalizeHexIdempotent(s: string)
    ensures NormalizeHex(NormalizeHex(s)) == NormalizeHex(s)
  {
    NormalizeHexOfNormalized(NormalizeHex(s));
  }

  /** No digit-count validation: shorthand and non-hex text pass through. */
  lemma NormalizeHexExamples()
    ensures NormalizeHex("ABC") == "#abc"
    ensures NormalizeHex("") == "#"
  {
    TrimOfTrimmed("ABC");
    var l := ToLower("ABC");
    assert l[0] == 'a' && l[1] == 'b' && l[2] == 'c';
    assert l == "abc";
  }

  /** Surrounding white space and case are removed. */
  lemma NormalizeHexTrims()
    ensures NormalizeHex(" #FA\n") == "#fa"
  {
    TrimExample();
    var l := ToLower("#FA");
    assert l[0] == '#' && l[1] == 'f' && l[2] == 'a';
    assert l == "#fa";
  }

  lemma TrimExample()
    ensures Trim(" #FA\n") == "#FA"
  {
    var s := " #FA\n";
    var u := s[1..];
    assert IsSpace(s[0]) && !IsSpace(u[0]);
    assert TrimStart(u) == u;
    var v := u[..3];
    assert IsSpace(u[3]) && !IsSpace(v[2]);
    assert TrimEnd(v) == v;
    assert v == "#FA";
  }

  /** `Math.round`: the nearest integer, halves rounded up. */
  function Round(x: real): (r: int)
    ensures r as real - 0.5 <= x < r as real + 0.5
  {
    (x + 0.5).Floor
  }

  /**
   * One channel of `formatAsRgbString`: a coordinate that is not a number
   * counts as 0, the coordinate is clamped to [0, 1] and scaled to 0..255.
   */
  function RgbChannel(coord: Option<real>): (r: int)
    ensures 0 <= r <= 255
    ensures coord.None? ==> r == 0
    ensures coord.Some? && coord.value <= 0.0 ==> r == 0
    ensures coord.Some? && coord.value >= 1.0 ==> r == 255
    ensures coord.Some? && 0.0 <= coord.value <= 1.0 ==>
              r as real - 0.5 <= coord.value * 255.0 < r as real + 0.5
  {
    Round(Clamp(coord.GetOr(0.0), 0.0, 1.0) * 255.0)
  }

  /** A channel that is an exact byte step comes back as that byte. */
  lemma RgbChannelOfByte(n: int)
    requires 0 <= n <= 255
    ensures RgbChannel(Some(n as real / 255.0)) == n
  {
    var c := n as real / 255.0;
    assert 0.0 <= c <= 1.0;
    assert c * 255.0 == n as real;
  }

  /** The three integers `formatAsRgbString` renders. */
  datatype RgbChannels = RgbChannels(red: int, green: int, blue: int)

  function RgbChannelsOf(r: Option<real>, g: Option<real>, b: Option<real>): (c: RgbChannels)
    ensures 0 <= c.red <= 255 && 0 <= c.green <= 255 && 0 <= c.blue <= 255
    ensures c.red == RgbChannel(r) && c.green == RgbChannel(g) && c.blue == RgbChannel(b)
  {
    RgbChannels(RgbChannel(r), RgbChannel(g), RgbChannel(b))
  }

  /**
   * A saturation or lightness component of `formatAsHslString` before
   * `toFixed(1)`: a percentage in [0, 100].
   */
  function HslPercent(coord: Option<real>): (r: real)
    ensures 0.0 <= r <= 100.0
    ensures coord.None? ==> r == 0.0
    ensures coord.Some? && coord.value <= 0.0 ==> r == 0.0
    ensures coord.Some? && 0.0 <= coord.value <= 1.0 ==> r == coord.value * 100.0
    ensures coord.Some? && coord.value > 1.0 ==> r == 100.0
  {
    Clamp(coord.GetOr(0.0), 0.0, 1.0) * 100.0
  }

  /** The three numbers `formatAsHslString` renders. */
  datatype HslComponents = HslComponents(hue: real, saturation: real, lightness: real)

  /** A missing hue (an achromatic colour) becomes 0, never an undefined value. */
  function HslComponentsOf(h: Option<real>, s: Option<real>, l: Option<real>): (c: HslComponents)
    ensures 0.0 <= c.hue < 360.0
    ensures h.None? ==> c.hue == 0.0
    ensures 0.0 <= c.saturation <= 100.0 && 0.0 <= c.lightness <= 100.0
    ensures c.hue == HueMod(h.GetOr(0.0)) && c.saturation == HslPercent(s) && c.lightness == HslPercent(l)
  {
    HslComponents(NormalizeHue(h.GetOr(0.0)), HslPercent(s), HslPercent(l))
  }

  /** `formatHexAsType(hex, format)`; the colour library does the work. */
  type Renderer = (string, FormatId) -> string

  /** `Record<ColorFormatId, string>`: one string per format id, no more and no less. */
  datatype FormatSnapshot = FormatSnapshot(
    hex: string, rgb: string, hsl: string, oklch: string,
    oklab: string, lab: string, lch: string, p3: string)
  {
    /** `snapshot[format]`. */
    function Get(f: FormatId): string {
      match f
      case Hex => hex
      case Rgb => rgb
      case Hsl => hsl
      case Oklch => oklch
      case Oklab => oklab
      case Lab => lab
      case Lch => lch
      case P3 => p3
    }
  }

  /** `getHexFormats`: the entry for every format is that format's rendering of `hex`. */
  function GetHexFormats(hex: string, render: Renderer): (snap: FormatSnapshot)
    ensures forall f :: snap.Get(f) == render(hex, f)
  {
    FormatSnapshot(
      render(hex, Hex), render(hex, Rgb), render(hex, Hsl), render(hex, Oklch),
      render(hex, Oklab), render(hex, Lab), render(hex, Lch), render(hex, P3))
  }

  /** Two snapshots that agree on every catalogue id are the same snapshot. */
  lemma SnapshotExtensionality(a: FormatSnapshot, b: FormatSnapshot)
    requires forall i :: 0 <= i < |FormatIds| ==> a.Get(FormatIds[i]) == b.Get(FormatIds[i])
    ensures a == b
  {
    assert a.Get(FormatIds[0]) == b.Get(FormatIds[0]);
    assert a.Get(FormatIds[1]) == b.Get(FormatIds[1]);
    assert a.Get(FormatIds[2]) == b.Get(FormatIds[2]);
    assert a.Get(FormatIds[3]) == b.Get(FormatIds[3]);
    assert a.Get(FormatIds[4]) == b.Get(FormatIds[4]);
    assert a.Get(FormatIds[5]) == b.Get(FormatIds[5]);
    assert a.Get(FormatIds[6]) == b.Get(FormatIds[6]);
    assert a.Get(FormatIds[7]) == b.Get(FormatIds[7]);
  }
}

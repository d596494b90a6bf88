/**
 * The viewer's pixel pipeline (web/src/App.jsx): the red channel of the decoded
 * preview becomes a one-byte-per-pixel intensity buffer, and every intensity is
 * turned into an RGBA pixel by stretch, optional inversion and a colourmap whose
 * colour text is read back by a small parser.
 */
module ViewerPixels {
  import opened Wrappers
  import opened Decimal
  import opened ColourString

  // ---------------------------------------------------------------------------
  // Red-channel extraction

  /**
   * The intensity buffer of an RGBA buffer: `n` samples, sample `j` being the red
   * byte of pixel `j`; samples past the end of the RGBA data keep the zero a new
   * `Uint8Array` starts with.
   */
  function RedChannel(src: seq<byte>, n: nat): (gray: seq<byte>)
  {
    seq(n, j requires 0 <= j < n => if 4 * j < |src| then src[4 * j] else 0)
  }

  /**
   * The extraction loop: walk the RGBA bytes four at a time and keep the first of
   * each four. A write past the end of the typed array is dropped, as JavaScript
   * drops it.
   */
  method ExtractIntensity(src: array<byte>, width: nat, height: nat) returns (gray: array<byte>)
    ensures fresh(gray)
    ensures gray.Length == width * height
    ensures gray[..] == RedChannel(src[..], width * height)
  {
    var n := width * height;
    gray := new byte[n](_ => 0);
    ghost var want := RedChannel(src[..], n);
    var i, j := 0, 0;
    while i < src.Length
      invariant i == 4 * j && i < src.Length + 4
      invariant gray != src && want == RedChannel(src[..], n)
      invariant forall k :: 0 <= k < n ==> gray[k] == if k < j then want[k] else 0
      decreases src.Length - i
    {
      if j < n {
        gray[j] := src[i];
      }
      i, j := i + 4, j + 1;
    }
    assert gray[..] == want;
  }

  // ---------------------------------------------------------------------------
  // Stretch

  /** The transcendental functions of JavaScript's `Math` that the stretches use. */
  datatype MathLib = MathLib(log: real -> real, sqrt: real -> real, asinh: real -> real, pow: (real, real) -> real)

  /** The display controls the recolouring reads. */
  datatype Settings = Settings(colormap: string, invert: bool, stretch: string, gamma: real, asinhK: real)

  /** The controls the viewer starts with. */
  const InitialSettings: Settings := Settings("grayscale", false, "linear", 1.0, 0.1)

  const StretchKinds: set<string> := {"linear", "log", "sqrt", "asinh", "gamma"}
  const LogEps: real := 0.000001
  const MinAsinhK: real := 0.000001
  const MinGamma: real := 0.001

  function Max(a: real, b: real): real { if a >= b then a else b }

  /** The divisor of the chosen stretch is not zero (true of the real `log` and `asinh`). */
  predicate StretchDefined(kind: string, asinhK: real, m: MathLib)
  {
    (kind == "log" ==> m.log(1.0 + LogEps) != 0.0) &&
    (kind == "asinh" ==> m.asinh(1.0 / Max(MinAsinhK, asinhK)) != 0.0)
  }

  /** `applyStretch`: the named stretch of a normalised intensity, the identity for an unknown name. */
  function ApplyStretch(kind: string, x: real, gamma: real, asinhK: real, m: MathLib): (y: real)
    requires StretchDefined(kind, asinhK, m)
    ensures kind == "linear" || kind !in StretchKinds ==> y == x
  {
    if kind == "linear" then x
    else if kind == "log" then m.log(LogEps + x) / m.log(1.0 + LogEps)
    else if kind == "sqrt" then m.sqrt(x)
    else if kind == "asinh" then m.asinh(x / Max(MinAsinhK, asinhK)) / m.asinh(1.0 / Max(MinAsinhK, asinhK))
    else if kind == "gamma" then m.pow(x, Max(MinGamma, gamma))
    else x
  }

  /** The value `t` handed to the colourmap for intensity `v`: `v/255`, stretched, then inverted if asked. */
  function Tone(v: byte, s: Settings, m: MathLib): real
    requires StretchDefined(s.stretch, s.asinhK, m)
  {
    var t := ApplyStretch(s.stretch, v as real / 255.0, s.gamma, s.asinhK, m);
    if s.invert then 1.0 - t else t
  }

  // ---------------------------------------------------------------------------
  // Colourmaps

  /** What a colourmap returns: a colour text, or some other value. */
  datatype Sample = Str(text: string) | NonString(tag: nat)

  /**
   * The colour libraries: d3's named interpolators, and `interpolateRgb('#000000', c)(1)`,
   * which turns any colour value into an `rgb(...)` text.
   */
  datatype ColourLib = ColourLib(d3: (string, real) -> Sample, interpolateRgb: Sample -> string)

  const D3Names: set<string> := {"inferno", "magma", "plasma", "viridis", "cividis", "turbo", "warm", "cool"}

  datatype Palette = Grayscale | D3(name: string)

  /** `cmaps[colormap] || cmaps.grayscale`: a d3 map by name, grayscale for any other name. */
  function PaletteOf(name: string): (p: Palette)
    ensures p.D3? <==> name in D3Names
    ensures p.D3? ==> p.name == name
  {
    if name in D3Names then D3(name) else Grayscale
  }

  /** `Math.round` on a finite number: the nearest integer, halves rounded up. */
  function Round(x: real): (n: int)
    ensures n as real - 0.5 <= x < n as real + 0.5
  {
    (x + 0.5).Floor
  }

  /** `cmaps.grayscale`: the text `rgb(n,n,n)` with `n = Math.round(t*255)`. */
  function GrayText(t: real): string
  {
    var n := Show(Round(t * 255.0));
    "rgb(" + n + "," + n + "," + n + ")"
  }

  function SampleAt(p: Palette, t: real, cl: ColourLib): Sample
  {
    match p
    case Grayscale => Str(GrayText(t))
    case D3(name) => cl.d3(name, t)
  }

  predicate StartsWith(s: string, prefix: string) { |prefix| <= |s| && s[..|prefix|] == prefix }

  function Channels(c: (nat, nat, nat)): (Channel, Channel, Channel) { (Num(c.0), Num(c.1), Num(c.2)) }

  /**
   * The three branches of the recolouring loop: a text after `#`, an `rgb...`
   * text through the pattern, anything else through `interpolateRgb` and the
   * pattern. `None` is the case where `r` stays undefined.
   */
  function ParseColour(sample: Sample, cl: ColourLib): Option<(Channel, Channel, Channel)>
  {
    if sample.Str? && StartsWith(sample.text, "#") then Some(ParseHexTriple(sample.text[1..]))
    else if sample.Str? && StartsWith(sample.text, "rgb") then
      match SearchRgb(sample.text)
      case None => None
      case Some(c) => Some(Channels(c))
    else
      match SearchRgb(cl.interpolateRgb(sample))
      case None => None
      case Some(c) => Some(Channels(c))
  }

  /** An integer stored into a `Uint8ClampedArray`. */
  function Clamp(n: int): (b: byte)
    ensures 0 <= n <= 255 ==> b == n
    ensures n < 0 ==> b == 0
    ensures n > 255 ==> b == 255
  {
    if n < 0 then 0 else if n > 255 then 255 else n
  }

  /** A number stored into a `Uint8ClampedArray`: NaN becomes 0. */
  function Store(c: Channel): byte
  {
    match c
    case NaN => 0
    case Num(n) => Clamp(n)
  }

  datatype Rgb = Rgb(r: byte, g: byte, b: byte)

  /** The colour a palette gives the value `t`; gray `Math.round(t*255)` when no branch set `r`. */
  function ToneRgb(p: Palette, t: real, cl: ColourLib): Rgb
  {
    match ParseColour(SampleAt(p, t, cl), cl)
    case None => var g := Clamp(Round(t * 255.0)); Rgb(g, g, g)
    case Some((r, g, b)) => Rgb(Store(r), Store(g), Store(b))
  }

  /** The colour of one intensity sample. */
  function PixelRgb(v: byte, s: Settings, m: MathLib, cl: ColourLib): Rgb
    requires StretchDefined(s.stretch, s.asinhK, m)
  {
    ToneRgb(PaletteOf(s.colormap), Tone(v, s, m), cl)
  }

  function Rgba(p: Rgb): seq<byte> { [p.r, p.g, p.b, 255] }

  // ---------------------------------------------------------------------------
  // Recolouring

  /** The colour of every intensity sample, in order. */
  function MapColour(samples: seq<byte>, colour: byte -> Rgb): (cs: seq<Rgb>)
    ensures |cs| == |samples|
  {
    seq(|samples|, k requires 0 <= k < |samples| => colour(samples[k]))
  }

  /** The colour of every intensity sample under the given controls. */
  function Colours(intens: seq<byte>, s: Settings, m: MathLib, cl: ColourLib): (cs: seq<Rgb>)
    requires StretchDefined(s.stretch, s.asinhK, m)
    ensures |cs| == |intens|
  {
    MapColour(intens, (v: byte) => PixelRgb(v, s, m, cl))
  }

  /**
   * An ImageData of `len` bytes holding `pixels`: byte `4j+c` is channel `c` of
   * pixel `j`; the rest keeps the zero of a new ImageData.
   */
  function Layout(pixels: seq<Rgb>, len: nat): seq<byte>
  {
    seq(len, k requires 0 <= k < len => if k / 4 < |pixels| then Rgba(pixels[k / 4])[k % 4] else 0)
  }

  /** The recoloured ImageData of `len` bytes for an intensity buffer. */
  function Recolored(intens: seq<byte>, len: nat, s: Settings, m: MathLib, cl: ColourLib): seq<byte>
    requires StretchDefined(s.stretch, s.asinhK, m)
  {
    Layout(Colours(intens, s, m, cl), len)
  }

  datatype Dims = Dims(width: nat, height: nat)

  /**
   * The per-pixel loop of `recolorIfNeeded`: sample `j` is coloured and its four
   * bytes are written at `i = 4j`. A write past the end of the ImageData is
   * dropped; its length is a multiple of four, so a pixel's four writes all
   * land or all drop.
   */
  method PaintPixels(intens: array<byte>, len: nat, colour: byte -> Rgb) returns (out: array<byte>)
    requires len % 4 == 0
    ensures fresh(out)
    ensures out[..] == Layout(MapColour(intens[..], colour), len)
  {
    out := new byte[len](_ => 0);
    ghost var samples := intens[..];
    ghost var colours := MapColour(samples, colour);
    var i, j := 0, 0;
    while j < intens.Length
      invariant 0 <= j <= intens.Length && i == 4 * j
      invariant out != intens && intens[..] == samples
      invariant forall q :: 0 <= q < j && 4 * q + 4 <= len ==> PixelAt(out[..], q, colours[q])
      invariant forall k :: i <= k < len ==> out[k] == 0
    {
      if i + 3 < len {
        WritePixel(out, i, colour(intens[j]));
      }
      i, j := i + 4, j + 1;
    }
    LayoutOfPixels(out[..], colours, len);
  }

  /** `outData[i..i+3] = r, g, b, 255`; nothing else changes. */
  method WritePixel(out: array<byte>, i: nat, p: Rgb)
    requires i + 4 <= out.Length
    modifies out
    ensures out[i] == p.r && out[i + 1] == p.g && out[i + 2] == p.b && out[i + 3] == 255
    ensures forall k :: 0 <= k < out.Length && (k < i || k >= i + 4) ==> out[k] == old(out[k])
  {
    out[i] := p.r;
    out[i + 1] := p.g;
    out[i + 2] := p.b;
    out[i + 3] := 255;
  }

  /**
   * `recolorIfNeeded`: no image or no intensity buffer gives nothing; an image
   * with a zero side makes `createImageData` throw (`sizeError`); otherwise a new
   * `4·w·h`-byte ImageData holding the colour of every intensity sample.
   */
  method RecolorIfNeeded(img: Option<Dims>, intens: array?<byte>, s: Settings, m: MathLib, cl: ColourLib)
    returns (out: array?<byte>, sizeError: bool)
    requires StretchDefined(s.stretch, s.asinhK, m)
    ensures sizeError <==> img.Some? && intens != null && (img.value.width == 0 || img.value.height == 0)
    ensures out == null <==> img.None? || intens == null || sizeError
    ensures out != null ==> fresh(out) && img.Some? && intens != null
    ensures out != null ==> out[..] == Recolored(intens[..], 4 * img.value.width * img.value.height, s, m, cl)
  {
    sizeError := false;
    if img.None? || intens == null {
      return null, false;
    }
    if img.value.width == 0 || img.value.height == 0 {
      return null, true;
    }
    var area := img.value.width * img.value.height;
    var len := 4 * area;
    assert len == 4 * img.value.width * img.value.height;
    var colour := (v: byte) => PixelRgb(v, s, m, cl);
    out := PaintPixels(intens, len, colour);
    assert MapColour(intens[..], colour) == Colours(intens[..], s, m, cl);
  }

  // ---------------------------------------------------------------------------
  // Properties

  /** Bytes `4q..4q+3` of `b` are pixel `p`'s red, green, blue and an opaque alpha. */
  predicate PixelAt(b: seq<byte>, q: nat, p: Rgb)
  {
    4 * q + 4 <= |b| && b[4 * q] == p.r && b[4 * q + 1] == p.g && b[4 * q + 2] == p.b && b[4 * q + 3] == 255
  }

  /** A buffer holding every pixel that fits at `4q..4q+3` and zeros after the last pixel is their layout. */
  lemma LayoutOfPixels(b: seq<byte>, pixels: seq<Rgb>, len: nat)
    requires |b| == len && len % 4 == 0
    requires forall q :: 0 <= q < |pixels| && 4 * q + 4 <= len ==> PixelAt(b, q, pixels[q])
    requires forall k :: 4 * |pixels| <= k < len ==> b[k] == 0
    ensures b == Layout(pixels, len)
  {
    forall k | 0 <= k < len
      ensures b[k] == Layout(pixels, len)[k]
    {
      var q, c := k / 4, k % 4;
      assert k == 4 * q + c && 0 <= c < 4;
      if q < |pixels| {
        assert 4 * q + 4 <= len;
        assert PixelAt(b, q, pixels[q]);
      }
    }
  }

  /** Bytes `4j..4j+3` of a laid-out buffer are pixel `j`'s red, green, blue and an opaque alpha. */
  lemma LayoutPixel(pixels: seq<Rgb>, len: nat, j: nat)
    requires j < |pixels| && 4 * j + 4 <= len
    ensures Layout(pixels, len)[4 * j..4 * j + 4] == Rgba(pixels[j])
    ensures Layout(pixels, len)[4 * j] == pixels[j].r && Layout(pixels, len)[4 * j + 1] == pixels[j].g
    ensures Layout(pixels, len)[4 * j + 2] == pixels[j].b && Layout(pixels, len)[4 * j + 3] == 255
  {
    var out := Layout(pixels, len);
    forall c | 0 <= c < 4
      ensures out[4 * j + c] == Rgba(pixels[j])[c]
    {
      assert (4 * j + c) / 4 == j && (4 * j + c) % 4 == c;
    }
  }

  /** Past the last pixel a laid-out buffer is zero. */
  lemma LayoutTail(pixels: seq<Rgb>, len: nat)
    ensures forall k :: 4 * |pixels| <= k < len ==> Layout(pixels, len)[k] == 0
  {
  }

  /** Bytes `4j..4j+3` of the recoloured buffer are intensity `j`'s colour with alpha 255. */
  lemma RecoloredPixel(intens: seq<byte>, len: nat, s: Settings, m: MathLib, cl: ColourLib, j: nat)
    requires StretchDefined(s.stretch, s.asinhK, m)
    requires j < |intens| && 4 * j + 4 <= len
    ensures Recolored(intens, len, s, m, cl)[4 * j..4 * j + 4] == Rgba(PixelRgb(intens[j], s, m, cl))
    ensures Recolored(intens, len, s, m, cl)[4 * j + 3] == 255
  {
    LayoutPixel(Colours(intens, s, m, cl), len, j);
  }

  /**
   * The grayscale text is read by the `rgb` branch: a level `n >= 0` comes back
   * as itself on all three channels; a negative one matches nowhere.
   */
  lemma GrayTextParse(t: real, cl: ColourLib)
    ensures var n := Round(t * 255.0);
      ParseColour(Str(GrayText(t)), cl) == if n >= 0 then Some((Num(n), Num(n), Num(n))) else None
  {
    var n := Round(t * 255.0);
    var text := GrayText(t);
    assert StartsWith(text, "rgb") && !StartsWith(text, "#") by {
      assert text[..3] == "rgb" && text[0] == 'r';
    }
    ShowShape(n);
    if n >= 0 {
      MatchRgbOfDigits(n, n, n);
    } else {
      GrayTextNegative(n);
    }
  }

  /** The grayscale map gives `r = g = b`, the clamped `Math.round(t*255)`, by whichever branch reads its text. */
  lemma GrayscalePixel(v: byte, s: Settings, m: MathLib, cl: ColourLib)
    requires StretchDefined(s.stretch, s.asinhK, m)
    requires PaletteOf(s.colormap) == Grayscale
    ensures var c := Clamp(Round(Tone(v, s, m) * 255.0)); PixelRgb(v, s, m, cl) == Rgb(c, c, c)
  {
    GrayscaleTone(Tone(v, s, m), cl);
  }

  lemma GrayscaleTone(t: real, cl: ColourLib)
    ensures var c := Clamp(Round(t * 255.0)); ToneRgb(Grayscale, t, cl) == Rgb(c, c, c)
  {
    GrayTextParse(t, cl);
  }

  /** For a negative level, `rgb(-d,-d,-d)` matches nowhere: `\d` cannot read the minus sign. */
  lemma GrayTextNegative(n: int)
    requires n < 0
    ensures SearchRgb("rgb(" + Show(n) + "," + Show(n) + "," + Show(n) + ")") == None
  {
    ShowShape(n);
    NegativeShowNoR(n);
    MinusTripleNoMatch(Show(n));
  }

  lemma MinusTripleNoMatch(d: string)
    requires |d| >= 1 && d[0] == '-' && NoR(d)
    ensures SearchRgb("rgb(" + d + "," + d + "," + d + ")") == None
  {
    var rest := "gb(" + d + "," + d + "," + d + ")";
    var text := "r" + rest;
    assert text == "rgb(" + d + "," + d + "," + d + ")";
    assert text[..4] == "rgb(" && text[4] == '-' && text[1..] == rest;
    NoRConcat("gb(", d);
    NoRConcat("gb(" + d, ",");
    NoRConcat("gb(" + d + ",", d);
    NoRConcat("gb(" + d + "," + d, ",");
    NoRConcat("gb(" + d + "," + d + ",", d);
    NoRConcat("gb(" + d + "," + d + "," + d, ")");
    SearchRgbAtMinus(text);
  }

  /** A negative number's text is a minus sign and digits. */
  lemma NegativeShowNoR(n: int)
    requires n < 0
    ensures NoR(Show(n))
  {
    ShowShape(n);
    var d := Show(n);
    forall k | 0 <= k < |d| ensures d[k] != 'r' {
      if k > 0 {
        assert d[k] == d[1..][k - 1];
      }
    }
  }

  /** Linear stretch, grayscale: intensity `v` is drawn as `(v,v,v)`, or `(255-v,…)` inverted. */
  lemma GrayscaleLinearPixel(v: byte, s: Settings, m: MathLib, cl: ColourLib)
    requires PaletteOf(s.colormap) == Grayscale
    requires s.stretch == "linear" || s.stretch !in StretchKinds
    ensures StretchDefined(s.stretch, s.asinhK, m)
    ensures !s.invert ==> PixelRgb(v, s, m, cl) == Rgb(v, v, v)
    ensures s.invert ==> PixelRgb(v, s, m, cl) == Rgb(255 - v, 255 - v, 255 - v)
  {
    GrayscalePixel(v, s, m, cl);
    LinearLevel(v, s, m);
  }

  /** With a linear stretch the gray level of intensity `v` is `v`, or `255 - v` inverted. */
  lemma LinearLevel(v: byte, s: Settings, m: MathLib)
    requires s.stretch == "linear" || s.stretch !in StretchKinds
    ensures StretchDefined(s.stretch, s.asinhK, m)
    ensures Clamp(Round(Tone(v, s, m) * 255.0)) == if s.invert then 255 - v else v
  {
    var x := v as real / 255.0;
    assert Tone(v, s, m) == if s.invert then 1.0 - x else x;
    assert x * 255.0 == v as real;
    assert Round(v as real) == v;
    assert (1.0 - x) * 255.0 == (255 - v) as real;
    assert Round((255 - v) as real) == 255 - v;
  }

  /** A d3 map that answers with a well-formed `#rrggbb` text gives exactly those three bytes. */
  lemma HexSamplePixel(v: byte, s: Settings, m: MathLib, cl: ColourLib, r: byte, g: byte, b: byte)
    requires StretchDefined(s.stretch, s.asinhK, m)
    requires PaletteOf(s.colormap).D3?
    requires cl.d3(s.colormap, Tone(v, s, m)) == Str(HexColour(r, g, b))
    ensures PixelRgb(v, s, m, cl) == Rgb(r, g, b)
  {
    HexTone(PaletteOf(s.colormap), Tone(v, s, m), cl, r, g, b);
  }

  lemma HexTone(p: Palette, t: real, cl: ColourLib, r: byte, g: byte, b: byte)
    requires p.D3? && cl.d3(p.name, t) == Str(HexColour(r, g, b))
    ensures ToneRgb(p, t, cl) == Rgb(r, g, b)
  {
    ParseColourOfHex(r, g, b, cl);
  }

  lemma ParseColourOfHex(r: byte, g: byte, b: byte, cl: ColourLib)
    ensures ParseColour(Str(HexColour(r, g, b)), cl) == Some((Num(r), Num(g), Num(b)))
  {
    assert StartsWith(HexColour(r, g, b), "#");
    ParseHexColour(r, g, b);
  }

  /** A pixel whose colour text parses to three channels stores those channels. */
  lemma PixelOfColour(v: byte, s: Settings, m: MathLib, cl: ColourLib, c: (Channel, Channel, Channel))
    requires StretchDefined(s.stretch, s.asinhK, m)
    requires ParseColour(SampleAt(PaletteOf(s.colormap), Tone(v, s, m), cl), cl) == Some(c)
    ensures PixelRgb(v, s, m, cl) == Rgb(Store(c.0), Store(c.1), Store(c.2))
  {
  }

  /** A colour value none of the three branches reads falls back to gray `Math.round(t*255)`. */
  lemma UnmatchedColourIsGray(v: byte, s: Settings, m: MathLib, cl: ColourLib)
    requires StretchDefined(s.stretch, s.asinhK, m)
    requires ParseColour(SampleAt(PaletteOf(s.colormap), Tone(v, s, m), cl), cl) == None
    ensures var c := Clamp(Round(Tone(v, s, m) * 255.0)); PixelRgb(v, s, m, cl) == Rgb(c, c, c)
  {
  }

  /** In the `rgb...` branch, a text the pattern matches nowhere leaves `r` undefined. */
  lemma RgbTextWithoutMatch(text: string, cl: ColourLib)
    requires StartsWith(text, "rgb") && SearchRgb(text) == None
    ensures ParseColour(Str(text), cl) == None
  {
    assert !StartsWith(text, "#") by { assert text[..3][0] == text[0]; }
  }

  /** Neither a `#...` nor an `rgb...` text: the value the last branch hands to `interpolateRgb`. */
  predicate OtherColour(smp: Sample)
  {
    smp.NonString? || (!StartsWith(smp.text, "#") && !StartsWith(smp.text, "rgb"))
  }

  /** In the last branch, a value whose `interpolateRgb` text the pattern matches nowhere leaves `r` undefined. */
  lemma InterpolatedWithoutMatch(smp: Sample, cl: ColourLib)
    requires OtherColour(smp) && SearchRgb(cl.interpolateRgb(smp)) == None
    ensures ParseColour(smp, cl) == None
  {
  }

  /** The text d3 and `interpolateRgb` write for a colour: `rgb(r, g, b)`. */
  function D3RgbText(r: byte, g: byte, b: byte): string
  {
    RgbText(Digits(r), " ", Digits(g), " ", Digits(b))
  }

  /** A d3 map answering `rgb(r, g, b)`, as most d3 maps do, gives that pixel exactly `(r, g, b)`. */
  lemma RgbSamplePixel(v: byte, s: Settings, m: MathLib, cl: ColourLib, r: byte, g: byte, b: byte)
    requires StretchDefined(s.stretch, s.asinhK, m)
    requires PaletteOf(s.colormap).D3?
    requires cl.d3(s.colormap, Tone(v, s, m)) == Str(D3RgbText(r, g, b))
    ensures PixelRgb(v, s, m, cl) == Rgb(r, g, b)
  {
    RgbTone(PaletteOf(s.colormap), Tone(v, s, m), cl, r, g, b);
  }

  lemma RgbTone(p: Palette, t: real, cl: ColourLib, r: byte, g: byte, b: byte)
    requires p.D3? && cl.d3(p.name, t) == Str(D3RgbText(r, g, b))
    ensures ToneRgb(p, t, cl) == Rgb(r, g, b)
  {
    ParseColourOfRgbText(r, g, b, cl);
  }

  /** The `rgb...` branch reads `rgb(r, g, b)` back as its three bytes. */
  lemma ParseColourOfRgbText(r: byte, g: byte, b: byte, cl: ColourLib)
    ensures ParseColour(Str(D3RgbText(r, g, b)), cl) == Some((Num(r), Num(g), Num(b)))
  {
    var tail := Digits(r) + ([','] + (" " + (Digits(g) + ([','] + (" " + (Digits(b) + [')']))))));
    RgbPrefix(tail);
    AllJsSpaceOfBlank();
    MatchRgbOfSpacedDigits(r, " ", g, " ", b);
  }

  /** A text after `rgb(` takes the `rgb...` branch. */
  lemma RgbPrefix(tail: string)
    ensures StartsWith("rgb(" + tail, "rgb") && !StartsWith("rgb(" + tail, "#")
  {
    var text := "rgb(" + tail;
    assert text[..3] == "rgb" && text[0] == 'r';
  }

  lemma AllJsSpaceOfBlank()
    ensures AllJsSpace(" ")
  {
  }

  /**
   * A value that is neither a `#...` nor an `rgb...` text, whose `interpolateRgb`
   * text is `rgb(r, g, b)`, goes through the last branch and gives that pixel
   * exactly `(r, g, b)`.
   */
  lemma InterpolatedPixel(v: byte, s: Settings, m: MathLib, cl: ColourLib, r: byte, g: byte, b: byte)
    requires StretchDefined(s.stretch, s.asinhK, m)
    requires PaletteOf(s.colormap).D3?
    requires var smp := cl.d3(s.colormap, Tone(v, s, m));
      OtherColour(smp) && cl.interpolateRgb(smp) == D3RgbText(r, g, b)
    ensures PixelRgb(v, s, m, cl) == Rgb(r, g, b)
  {
    AllJsSpaceOfBlank();
    MatchRgbOfSpacedDigits(r, " ", g, " ", b);
  }

  /**
   * Recolouring with the viewer's initial controls and then keeping the red
   * channel gives the intensity buffer back.
   */
  lemma {:induction false} GrayscaleRoundTrip(intens: seq<byte>, w: nat, h: nat, m: MathLib, cl: ColourLib)
    requires |intens| == w * h
    ensures StretchDefined(InitialSettings.stretch, InitialSettings.asinhK, m)
    ensures RedChannel(Recolored(intens, 4 * w * h, InitialSettings, m, cl), w * h) == intens
  {
    var s := InitialSettings;
    assert PaletteOf(s.colormap) == Grayscale;
    var out := Recolored(intens, 4 * w * h, s, m, cl);
    var back := RedChannel(out, w * h);
    forall j | 0 <= j < w * h
      ensures back[j] == intens[j]
    {
      RecoloredPixel(intens, 4 * w * h, s, m, cl, j);
      GrayscaleLinearPixel(intens[j], s, m, cl);
      assert out[4 * j] == out[4 * j..4 * j + 4][0];
    }
  }
}

/**
 * The 8-bit preview of scripts/export_preview.py: the data is reduced to its
 * first 2-D plane, normalised against a percentile range, clipped and
 * truncated to bytes, and described by a small metadata record.
 */
module ExportPreview {
  import opened Wrappers
  import opened FitsHeader

  /** A float64 array element. */
  datatype Sample = Finite(x: real) | PosInf | NegInf | NaN

  /** An n-dimensional array in row-major order. */
  datatype NdArray<T> = NdArray(shape: seq<nat>, data: seq<T>)

  predicate Valid<T>(a: NdArray<T>)
  {
    |a.data| == Size(a.shape)
  }

  /** The default percentiles of `percentile_scale`. */
  const LoPercentile: real := 2.0
  const HiPercentile: real := 98.0
  /** The widening of a degenerate range. */
  const MinSpan: real := 0.000001

  /** `np.percentile(values, q)`: an input of the model. */
  type Percentile = (seq<real>, real) -> real

  /** `arr[np.isfinite(arr)]`: the finite values, in order. */
  function Finites(s: seq<Sample>): (r: seq<real>)
    ensures |r| <= |s|
    ensures r == [] <==> forall i :: 0 <= i < |s| ==> !s[i].Finite?
  {
    if s == [] then []
    else if s[0].Finite? then [s[0].x] + Finites(s[1..])
    else
      var r := Finites(s[1..]);
      assert forall i :: 1 <= i < |s| ==> s[i] == s[1..][i - 1];
      r
  }

  /** `np.clip(u, 0, 1)`. */
  function Clip01(u: real): (r: real)
    ensures 0.0 <= r <= 1.0
    ensures 0.0 <= u <= 1.0 ==> r == u
  {
    if u < 0.0 then 0.0 else if u > 1.0 then 1.0 else u
  }

  /** `(clip(u) * 255).astype(np.uint8)` for a finite `u`: truncation of a value in [0, 255]. */
  function Level(u: real): (b: byte)
    ensures b as real <= Clip01(u) * 255.0 < b as real + 1.0
  {
    var y := Clip01(u) * 255.0;
    assert 0.0 <= y.Floor as real <= y <= 255.0;
    y.Floor
  }

  /**
   * One sample's byte: finite values are normalised against `[vmin, vmax]`;
   * infinities clip to the ends; NaN is taken to give 0.
   */
  function Quantize(s: Sample, vmin: real, vmax: real): (b: byte)
    requires vmax > vmin
  {
    match s
    case Finite(x) => Level((x - vmin) / (vmax - vmin))
    case PosInf => 255
    case NegInf => 0
    case NaN => 0
  }

  /** `percentile_scale`: the byte image and the range used. */
  function PercentileScale(a: NdArray<Sample>, pct: Percentile): (r: (NdArray<byte>, real, real))
    ensures r.0.shape == a.shape && |r.0.data| == |a.data|
    ensures r.2 > r.1
    ensures Finites(a.data) == [] ==> r.1 == 0.0 && r.2 == 1.0 && forall i :: 0 <= i < |a.data| ==> r.0.data[i] == 0
    ensures Finites(a.data) != [] ==>
      r.1 == pct(Finites(a.data), LoPercentile) &&
      (pct(Finites(a.data), HiPercentile) > r.1 ==> r.2 == pct(Finites(a.data), HiPercentile)) &&
      (pct(Finites(a.data), HiPercentile) <= r.1 ==> r.2 == r.1 + MinSpan) &&
      forall i :: 0 <= i < |a.data| ==> r.0.data[i] == Quantize(a.data[i], r.1, r.2)
  {
    var finite := Finites(a.data);
    if finite == [] then
      (NdArray(a.shape, seq(|a.data|, i => 0)), 0.0, 1.0)
    else
      var vmin := pct(finite, LoPercentile);
      var hi := pct(finite, HiPercentile);
      var vmax := if hi <= vmin then vmin + MinSpan else hi;
      (NdArray(a.shape, seq(|a.data|, i requires 0 <= i < |a.data| => Quantize(a.data[i], vmin, vmax))), vmin, vmax)
  }

  // ---------------------------------------------------------------------------
  // Properties of the quantisation

  /** Finite samples at or below `vmin` give 0; at or above `vmax`, 255. */
  lemma QuantizeEnds(x: real, vmin: real, vmax: real)
    requires vmax > vmin
    ensures x <= vmin ==> Quantize(Finite(x), vmin, vmax) == 0
    ensures x >= vmax ==> Quantize(Finite(x), vmin, vmax) == 255
  {
    var u := (x - vmin) / (vmax - vmin);
    assert u * (vmax - vmin) == x - vmin;
    if x <= vmin {
      assert u <= 0.0;
    }
    if x >= vmax {
      DivAtLeastOne(x - vmin, vmax - vmin);
    }
  }

  lemma DivAtLeastOne(n: real, d: real)
    requires d > 0.0 && n >= d
    ensures n / d >= 1.0
  {
  }

  /** The normalisation `(x - vmin) / (vmax - vmin)` is monotone. */
  lemma NormaliseMonotone(x: real, y: real, vmin: real, vmax: real)
    requires vmax > vmin && x <= y
    ensures (x - vmin) / (vmax - vmin) <= (y - vmin) / (vmax - vmin)
  {
    var d := vmax - vmin;
    var u, w := (x - vmin) / d, (y - vmin) / d;
    assert u * d == x - vmin && w * d == y - vmin;
    assert (w - u) * d == y - x;
  }

  /** Truncation after clipping is monotone. */
  lemma LevelMonotone(u: real, w: real)
    requires u <= w
    ensures Level(u) <= Level(w)
  {
    assert Clip01(u) <= Clip01(w);
    assert Clip01(u) * 255.0 <= Clip01(w) * 255.0;
  }

  /** Quantisation preserves order: `-inf` < finite values in order < `+inf`. */
  lemma QuantizeMonotone(a: Sample, b: Sample, vmin: real, vmax: real)
    requires vmax > vmin
    requires a.Finite? && b.Finite? && a.x <= b.x
    ensures Quantize(a, vmin, vmax) <= Quantize(b, vmin, vmax)
    ensures Quantize(NegInf, vmin, vmax) <= Quantize(a, vmin, vmax) <= Quantize(PosInf, vmin, vmax)
  {
    NormaliseMonotone(a.x, b.x, vmin, vmax);
    LevelMonotone((a.x - vmin) / (vmax - vmin), (b.x - vmin) / (vmax - vmin));
  }

  // ---------------------------------------------------------------------------
  // First-plane reduction

  /** `data[0]`: the first sub-array along the leading axis; an empty leading axis raises. */
  function FirstIndex(a: NdArray<Sample>): (r: Result<NdArray<Sample>>)
    requires Valid(a) && |a.shape| > 0
    ensures r.Ok? <==> a.shape[0] > 0
    ensures r.Ok? ==>
      Valid(r.value) && r.value.shape == a.shape[1..] &&
      |r.value.data| <= |a.data| && r.value.data == a.data[..|r.value.data|]
  {
    if a.shape[0] == 0 then Err("IndexError")
    else
      var rest := Size(a.shape[1..]);
      SizeOfTail(a.shape);
      assert rest <= |a.data|;
      Ok(NdArray(a.shape[1..], a.data[..rest]))
  }

  /** Dropping a non-empty leading axis does not grow the element count. */
  lemma SizeOfTail(shape: seq<nat>)
    requires |shape| > 0 && shape[0] > 0
    ensures Size(shape[1..]) <= Size(shape)
  {
    var rest := Size(shape[1..]);
    assert Size(shape) == shape[0] * rest;
    MulAtLeastOne(shape[0], rest);
  }

  lemma MulAtLeastOne(a: nat, b: nat)
    requires a >= 1
    ensures b <= a * b
  {
    var c: nat := a - 1;
    assert a * b == b + c * b;
  }

  /** Repeated `data = data[0]` while there are more than two dimensions. */
  function FirstPlane(a: NdArray<Sample>): Result<NdArray<Sample>>
    requires Valid(a)
    decreases |a.shape|
  {
    if |a.shape| <= 2 then Ok(a)
    else match FirstIndex(a)
      case Err(e) => Err(e)
      case Ok(b) => FirstPlane(b)
  }

  /** The last two entries of a shape, or all of it when there are at most two. */
  function LastTwo(shape: seq<nat>): seq<nat>
  {
    if |shape| <= 2 then shape else shape[|shape| - 2..]
  }

  /** `p` is the first plane of `a`: its last two dimensions and the first elements of its data. */
  predicate IsPlaneOf(p: NdArray<Sample>, a: NdArray<Sample>)
  {
    Valid(p) && p.shape == LastTwo(a.shape) && |p.data| <= |a.data| && p.data == a.data[..|p.data|]
  }

  /** Predicate over the leading dimensions: all of them non-zero. */
  predicate LeadingNonZero(shape: seq<nat>)
  {
    forall i :: 0 <= i < |shape| - 2 ==> shape[i] > 0
  }

  /** The reduction succeeds exactly when every leading dimension is non-zero, and then gives the first plane. */
  lemma {:induction false} FirstPlaneShape(a: NdArray<Sample>)
    requires Valid(a)
    ensures FirstPlane(a).Ok? <==> LeadingNonZero(a.shape)
    ensures FirstPlane(a).Ok? ==> IsPlaneOf(FirstPlane(a).value, a)
    decreases |a.shape|
  {
    if |a.shape| > 2 {
      var r := FirstIndex(a);
      if r.Ok? {
        FirstPlaneShape(r.value);
        LeadingStep(a.shape, r.value.shape);
        if FirstPlane(r.value).Ok? {
          PlaneOfStep(FirstPlane(r.value).value, a, r.value);
        }
      }
    }
  }

  /** Dropping a non-zero leading axis keeps the other leading axes. */
  lemma LeadingStep(a: seq<nat>, b: seq<nat>)
    requires |a| > 2 && a[0] > 0 && b == a[1..]
    ensures LeadingNonZero(a) <==> LeadingNonZero(b)
  {
    assert forall i :: 0 <= i < |b| - 2 ==> b[i] == a[i + 1];
  }

  /** The first plane of the first sub-array is the first plane of the array. */
  lemma PlaneOfStep(p: NdArray<Sample>, a: NdArray<Sample>, b: NdArray<Sample>)
    requires |a.shape| > 2 && b.shape == a.shape[1..]
    requires |b.data| <= |a.data| && b.data == a.data[..|b.data|]
    requires IsPlaneOf(p, b)
    ensures IsPlaneOf(p, a)
  {
    assert LastTwo(b.shape) == LastTwo(a.shape);
    assert a.data[..|p.data|] == b.data[..|p.data|];
  }

  /** The `while data.ndim > 2: data = data[0]` loop. */
  method ReducePlanes(a: NdArray<Sample>) returns (r: Result<NdArray<Sample>>)
    requires Valid(a)
    ensures r == FirstPlane(a)
  {
    var data := a;
    while |data.shape| > 2
      invariant Valid(data) && FirstPlane(data) == FirstPlane(a)
      decreases |data.shape|
    {
      var next := FirstIndex(data);
      if next.Err? {
        return Err(next.error);
      }
      data := next.value;
    }
    return Ok(data);
  }

  // ---------------------------------------------------------------------------
  // Metadata

  function Reverse<T>(s: seq<T>): (r: seq<T>)
    ensures |r| == |s| && forall i :: 0 <= i < |s| ==> r[i] == s[|s| - 1 - i]
  {
    seq(|s|, i requires 0 <= i < |s| => s[|s| - 1 - i])
  }

  /** The WCS keywords copied into the metadata, in order. */
  const WcsKeys: seq<string> :=
    ["CTYPE1", "CTYPE2", "CRVAL1", "CRVAL2", "CRPIX1", "CRPIX2", "CDELT1", "CDELT2", "CUNIT1", "CUNIT2"]

  datatype Meta = Meta(shape: seq<nat>, vmin: real, vmax: real, unit: Value, wcs: seq<Entry>)

  /** `hdr.get(k)` for each WCS keyword; the first that raises ends it. */
  function WcsEntries(h: Header, ks: seq<string>): (r: Result<seq<Entry>>)
    ensures r.Ok? ==> FetchedAll(h, ks, r.value)
    ensures r.Ok? <==> AllFound(h, ks)
    decreases |ks|
  {
    if ks == [] then Ok([])
    else match Get(h, ks[0], NoneV)
      case Raises(e) => Err(e)
      case Found(v) =>
        var rest := WcsEntries(h, ks[1..]);
        AllFoundCons(h, ks);
        match rest
        case Err(e) => Err(e)
        case Ok(es) =>
          FetchedAllCons(h, ks, v, es);
          Ok([(ks[0], v)] + es)
  }

  /** One entry per keyword of `ks`, in order, keyed by it and holding `hdr.get` of it. */
  predicate FetchedAll(h: Header, ks: seq<string>, es: seq<Entry>)
  {
    |es| == |ks| && forall i :: 0 <= i < |ks| ==> es[i].0 == ks[i] && Get(h, ks[i], NoneV) == Found(es[i].1)
  }

  /** No `hdr.get` of a keyword of `ks` raises. */
  predicate AllFound(h: Header, ks: seq<string>)
  {
    forall i :: 0 <= i < |ks| ==> Get(h, ks[i], NoneV).Found?
  }

  lemma AllFoundCons(h: Header, ks: seq<string>)
    requires ks != []
    ensures AllFound(h, ks) <==> Get(h, ks[0], NoneV).Found? && AllFound(h, ks[1..])
  {
    assert forall i :: 1 <= i < |ks| ==> ks[i] == ks[1..][i - 1];
  }

  lemma FetchedAllCons(h: Header, ks: seq<string>, v: Value, es: seq<Entry>)
    requires ks != [] && Get(h, ks[0], NoneV) == Found(v) && FetchedAll(h, ks[1..], es)
    ensures FetchedAll(h, ks, [(ks[0], v)] + es)
  {
    var all := [(ks[0], v)] + es;
    forall i | 1 <= i < |ks| ensures all[i].0 == ks[i] && Get(h, ks[i], NoneV) == Found(all[i].1) {
      assert all[i] == es[i - 1] && ks[i] == ks[1..][i - 1];
    }
  }

  /** The metadata dict; `unit` defaults to `""`. */
  function MakeMeta(img: NdArray<byte>, vmin: real, vmax: real, h: Header): (r: Result<Meta>)
    ensures r.Ok? ==> r.value.shape == Reverse(img.shape) && r.value.vmin == vmin && r.value.vmax == vmax
    ensures r.Ok? ==> Get(h, "BUNIT", Str("")) == Found(r.value.unit) && WcsEntries(h, WcsKeys) == Ok(r.value.wcs)
    ensures r.Ok? <==> Get(h, "BUNIT", Str("")).Found? && WcsEntries(h, WcsKeys).Ok?
  {
    match Get(h, "BUNIT", Str(""))
    case Raises(e) => Err(e)
    case Found(unit) =>
      match WcsEntries(h, WcsKeys)
      case Err(e) => Err(e)
      case Ok(wcs) => Ok(Meta(Reverse(img.shape), vmin, vmax, unit, wcs))
  }

  /** For a 2-D image the metadata `shape` is `[width, height]`: columns first, then rows. */
  lemma MetaShapeIsWidthHeight(img: NdArray<byte>, vmin: real, vmax: real, h: Header, meta: Meta)
    requires |img.shape| == 2 && MakeMeta(img, vmin, vmax, h) == Ok(meta)
    ensures meta.shape == [img.shape[1], img.shape[0]]
  {
    ReverseOfPair(img.shape);
  }

  lemma ReverseOfPair<T>(s: seq<T>)
    requires |s| == 2
    ensures Reverse(s) == [s[1], s[0]]
  {
  }

  datatype Preview = Preview(image: NdArray<byte>, meta: Meta)

  /**
   * `export_preview` without its file writes: reduce, scale, describe. The
   * image is the scaled first plane, and the metadata reports its reversed shape.
   */
  method Export(data: NdArray<Sample>, pct: Percentile, h: Header) returns (r: Result<Preview>)
    requires Valid(data)
    ensures r.Ok? <==> FirstPlane(data).Ok? && MakeMeta(PercentileScale(FirstPlane(data).value, pct).0,
      PercentileScale(FirstPlane(data).value, pct).1, PercentileScale(FirstPlane(data).value, pct).2, h).Ok?
    ensures r.Ok? ==>
      var scaled := PercentileScale(FirstPlane(data).value, pct);
      r.value.image == scaled.0 && r.value.meta == MakeMeta(scaled.0, scaled.1, scaled.2, h).value &&
      r.value.meta.shape == Reverse(FirstPlane(data).value.shape) && r.value.meta.vmax > r.value.meta.vmin
  {
    var plane := ReducePlanes(data);
    if plane.Err? {
      return Err(plane.error);
    }
    var scaled := PercentileScale(plane.value, pct);
    var meta := MakeMeta(scaled.0, scaled.1, scaled.2, h);
    if meta.Err? {
      return Err(meta.error);
    }
    return Ok(Preview(scaled.0, meta.value));
  }
}

# CHILES Viewer: a verified model of its display pipeline and preprocessing

The CHILES Viewer has two halves, and this project models the logic of both in Dafny.

- **The browser viewer** (`web/src/App.jsx`) shows an 8-bit preview of a radio-astronomy intensity map.
  - It keeps the red channel of the decoded preview as an intensity buffer.
  - It recolours each sample through a stretch, an optional inversion and a named colourmap.
  - It parses the colourmap's `#rrggbb` or `rgb(r,g,b)` string into RGBA bytes.
  - It zooms on the mouse wheel and pans by dragging.
- **The Python preprocessing scripts**:
  - `scripts/analyze_fits.py` summarises a FITS file. It gives a filtered header map per HDU, the `NAXISn` entries and the data's shape and statistics.
  - `scripts/export_preview.py` reduces the data to its first plane and quantises it to bytes against a percentile range. It also writes a small metadata record.
  - `scripts/read_paper.py` builds a title, an author, a page count and a 30-line text snippet from a PDF.

## Modules

| file | module | models |
|---|---|---|
| `wrappers.dfy` | `Wrappers` | `Option`, `Result` (an exception as `Err`), `byte` |
| `decimal.dfy` | `Decimal` | JavaScript/Python decimal formatting of integers and its parse |
| `colour_string.dfy` | `ColourString` | `parseInt(·, 16)` and the `rgb\((\d+),\s*(\d+),\s*(\d+)\)` search |
| `viewer_pixels.dfy` | `ViewerPixels` | red-channel extraction, `applyStretch`, colourmap lookup, the per-pixel recolouring loop |
| `viewer_view.dfy` | `ViewerView` | the zoom clamp and the drag-pan handlers; a `Viewport` class holds `scale`, `offset` and `drag` |
| `fits_header.dfy` | `FitsHeader` | a header as a sequence of cards; `hdr[k]`, `hdr.get(k, default)` |
| `analyze_fits.dfy` | `AnalyzeFits` | the header filter loop, the dict it fills, the `NAXISn` loop, the per-HDU summary |
| `export_preview.dfy` | `ExportPreview` | `percentile_scale`, the first-plane loop, the metadata |
| `read_paper.dfy` | `ReadPaper` | `str.strip`, `str.splitlines`, the page loop, the snippet |

Loops in the source are methods with loop invariants, and each is proved equal to a specification function:
- the intensity extraction and the recolour loop, over arrays;
- the header loop with its `taken` counter, `continue` and `break`;
- the `NAXISn` loop;
- the HDU loop;
- the `while data.ndim > 2` loop;
- the page loop.

The wheel and pointer handlers are methods of a class, and each relates its new state to a step function on a `View` value.

## Model

| member | source | states |
|---|---|---|
| ViewerPixels.ExtractIntensity | web/src/App.jsx:42-46 | the intensity array has `width·height` entries; entry `j` is the red byte `src[4j]`; entries past the source's end stay 0 |
| ViewerPixels.ApplyStretch | web/src/App.jsx:66-76 | `linear` and any unknown stretch kind are the identity |
| ViewerPixels.PaletteOf | web/src/App.jsx:92 | a name picks a d3 interpolator exactly when it is one of the eight map names; any other name falls back to grayscale |
| ViewerPixels.Round | web/src/App.jsx:55 | `Math.round` gives the integer `n` with `n − 0.5 ≤ x < n + 0.5` |
| ViewerPixels.Clamp | web/src/App.jsx:113 | a `Uint8ClampedArray` store keeps 0..255, maps below 0 to 0 and above 255 to 255 |
| ViewerPixels.PaintPixels | web/src/App.jsx:93-114 | the output buffer is each sample's RGBA laid out at `4j..4j+3`; writes past the buffer are dropped; untouched bytes stay 0 |
| ViewerPixels.RecolorIfNeeded | web/src/App.jsx:78-117 | no image or no intensity gives null; a zero side gives null with `sizeError` set, as `createImageData` throws; otherwise a fresh `4·w·h` buffer equal to the recoloured intensities |
| ViewerPixels.RecoloredPixel | web/src/App.jsx:93-113 | bytes `4j..4j+3` are pixel `j`'s red, green, blue and alpha; alpha is always 255 |
| ViewerPixels.GrayTextParse | web/src/App.jsx:104-106 | the grayscale map's `rgb(n,n,n)` string, parsed by the `rgb` branch, gives `r = g = b = n` for `n ≥ 0`; for negative `n` the regex does not match |
| ViewerPixels.GrayscalePixel | web/src/App.jsx:94-112 | under the grayscale map every pixel is gray with value `clamp(round(t·255))` of its stretched, inverted tone |
| ViewerPixels.LinearLevel | web/src/App.jsx:94-96 | under a linear (or unknown) stretch the gray level `clamp(round(t·255))` of intensity `v` is `v`, or `255 − v` when inverted |
| ViewerPixels.GrayscaleLinearPixel | web/src/App.jsx:94-113 | grayscale with linear (or unknown) stretch gives `(v,v,v)`, or `(255−v, 255−v, 255−v)` when inverted |
| ViewerPixels.HexSamplePixel | web/src/App.jsx:99-103 | a map answering a well-formed `#rrggbb` gives that pixel exactly `(rr, gg, bb)` |
| ViewerPixels.PixelOfColour | web/src/App.jsx:99-113 | when one of the three branches reads the colour value as three channels, the pixel stores exactly those channels, clamped to a byte |
| ViewerPixels.UnmatchedColourIsGray | web/src/App.jsx:96-112 | whenever none of the three branches sets `r`, the pixel falls back to gray `clamp(round(t·255))` |
| ViewerPixels.RgbTextWithoutMatch | web/src/App.jsx:104-106 | an `rgb...` text on which the pattern matches nowhere leaves `r` undefined |
| ViewerPixels.InterpolatedWithoutMatch | web/src/App.jsx:107-110 | a value that is neither a `#...` nor an `rgb...` text, and whose `interpolateRgb` text the pattern matches nowhere, leaves `r` undefined |
| ViewerPixels.ParseColourOfRgbText | web/src/App.jsx:104-106 | the `rgb...` branch reads d3's `rgb(r, g, b)` text back as its three channels |
| ViewerPixels.RgbSamplePixel | web/src/App.jsx:96-113 | a d3 map answering `rgb(r, g, b)` gives that pixel exactly `(r, g, b)` |
| ViewerPixels.InterpolatedPixel | web/src/App.jsx:96-113 | a value that is neither a `#...` nor an `rgb...` text, and that `interpolateRgb` turns into `rgb(r, g, b)`, gives that pixel exactly `(r, g, b)` |
| ViewerPixels.GrayscaleRoundTrip | web/src/App.jsx:42-113 | with the initial settings, extracting the red channel of the recoloured buffer gives back the intensities |
| ColourString.ParseHexPair | web/src/App.jsx:101-103 | `parseInt` of two hex digits is `16·hi + lo`, which lies in 0..255 |
| ColourString.ParseHexColour | web/src/App.jsx:99-103 | slicing and parsing `#rrggbb` recovers the three channel values |
| ColourString.MatchRgbOfDigits | web/src/App.jsx:105-106 | the regex search on `rgb(r,g,b)` in decimal captures exactly `r`, `g`, `b` |
| ColourString.TrimSpacesBeforeDigit | web/src/App.jsx:105 | `\s*` consumes a whole run of white space and stops at the digit after it |
| ColourString.MatchRgbOfSpacedDigits | web/src/App.jsx:105-106 | the regex search on `rgb(r,` + spaces + `g,` + spaces + `b)`, the form d3 writes as `rgb(r, g, b)`, captures exactly `r`, `g`, `b` |
| ColourString.SearchRgbNoR | web/src/App.jsx:105 | a string without an `r` never matches |
| Decimal.DigitsRoundTrip | web/src/App.jsx:55 | the decimal text of a natural is non-empty, all digits, and parses back to the number |
| Decimal.ShowShape | web/src/App.jsx:55 | a negative number's text is `-` followed by the digits of its absolute value |
| Decimal.ShowInjective | scripts/analyze_fits.py:42 | different integers have different decimal texts |
| ViewerView.ZoomScale | web/src/App.jsx:145 | the clamped scale lies in [0.05, 32] and equals `s·factor` whenever that is in range |
| ViewerView.ZoomInNeverShrinks | web/src/App.jsx:143-145 | a factor ≥ 1 never decreases an in-range scale |
| ViewerView.ZoomOutNeverGrows | web/src/App.jsx:143-145 | a factor in (0, 1] never increases an in-range scale |
| ViewerView.WheelUpZoomsIn | web/src/App.jsx:141-146 | a wheel event with `deltaY < 0` (factor > 1) never decreases the scale and leaves offset and drag as they were |
| ViewerView.MovesWithoutDrag | web/src/App.jsx:153 | with no drag active, pointer moves change nothing |
| ViewerView.MovesDisplacement | web/src/App.jsx:152-158 | during a drag, a run of moves shifts the offset by the total pointer displacement; the drag ends at the last position; the scale is unchanged |
| ViewerView.Viewport.constructor | web/src/App.jsx:19-21 | scale 1, offset (0, 0), no drag |
| ViewerView.Viewport.OnWheel | web/src/App.jsx:141-146 | the new view is the wheel step of the old one; the scale stays in [0.05, 32] |
| ViewerView.Viewport.OnPointerDown | web/src/App.jsx:148-151 | a drag starts at the pointer; nothing else changes |
| ViewerView.Viewport.OnPointerMove | web/src/App.jsx:152-158 | the new view is the move step of the old one |
| ViewerView.Viewport.OnPointerUp | web/src/App.jsx:159 | the drag ends; nothing else changes |
| FitsHeader.KeysOf | scripts/analyze_fits.py:27 | one keyword per card, in card order |
| FitsHeader.Fetch | scripts/analyze_fits.py:33 | `hdr[k]` is the lookup of the first card with keyword `k`; a missing keyword raises `KeyError` |
| FitsHeader.FirstCardIsFirst | scripts/analyze_fits.py:33 | no card before the one `hdr[k]` reads has keyword `k` |
| FitsHeader.HasKeyMeaning | scripts/analyze_fits.py:33 | a header has keyword `k` exactly when some card carries it |
| FitsHeader.Get | scripts/analyze_fits.py:40 | `hdr.get` gives the default for a missing keyword, and for a lookup that raises `KeyError` or `IndexError`; otherwise it behaves as `hdr[k]`, so any other failure propagates |
| AnalyzeFits.CollectHeader | scripts/analyze_fits.py:25-38 | the loop builds the dict of the filter's assignments; it has at most 80 items with no `COMMENT`/`HISTORY` key and only primitive values, no key twice, and keys in header order |
| AnalyzeFits.TakenBounded | scripts/analyze_fits.py:28-36 | at most `room` values are taken; none has a commentary key; every one is a str, int, float, bool or None |
| AnalyzeFits.TakenInOrder | scripts/analyze_fits.py:27-35 | the taken keys occur in the header's keyword order |
| AnalyzeFits.SkippedKey | scripts/analyze_fits.py:32-38 | a keyword whose lookup raises or gives a non-primitive value uses no room and leaves the result unchanged, wherever it stands |
| AnalyzeFits.TakenNoRoom | scripts/analyze_fits.py:30-31 | once 80 values are taken, nothing more is taken |
| AnalyzeFits.TakenAppend | scripts/analyze_fits.py:27-38 | visiting `a` then `b` takes what `a` takes, then what `b` takes with the remaining room |
| AnalyzeFits.Assign | scripts/analyze_fits.py:35 | assigning an existing dict key keeps the key order; a new key is appended |
| AnalyzeFits.AssignValues | scripts/analyze_fits.py:35 | in a dict with distinct keys, assigning a key already present keeps the length, puts the new value at that key's position and leaves every other item as it was |
| AnalyzeFits.HeadMapValues | scripts/analyze_fits.py:33-35 | every item of `head_map` holds `hdr[k]` of its own key `k` |
| AnalyzeFits.TakenIsKeptPrefix | scripts/analyze_fits.py:27-36 | the loop takes exactly the first `room` pairs `(k, hdr[k])` that the filter accepts, in keyword order, or all of them when there are fewer |
| AnalyzeFits.StoreAllHasKeys | scripts/analyze_fits.py:35 | after a run of assignments, every assigned key and every key present before is in the dict |
| AnalyzeFits.StoreAllFrom | scripts/analyze_fits.py:35 | every item after a run of assignments was in the dict before or is one of the assigned pairs |
| AnalyzeFits.HeadMapExact | scripts/analyze_fits.py:25-38 | an item is in `head_map` if and only if it is one of the first `min(80, n)` of the `n` pairs the filter accepts |
| AnalyzeFits.TakenFetched | scripts/analyze_fits.py:33-35 | every assignment the header loop performs stores `hdr[k]` under `k` |
| AnalyzeFits.AssignFetched | scripts/analyze_fits.py:35 | assigning a looked-up value keeps every item equal to the lookup of its key |
| AnalyzeFits.StoreAllShape | scripts/analyze_fits.py:35 | assignments keep the dict's keys distinct and its entries clean, adding at most one item each |
| AnalyzeFits.StoreAllInOrder | scripts/analyze_fits.py:35 | the dict's keys are a subsequence of the earlier keys followed by the assigned keys |
| AnalyzeFits.StoreAllKeys | scripts/analyze_fits.py:35 | after a run of assignments the dict's keys are its earlier keys, in place, followed by each new key at its first assignment; a later assignment never moves a key |
| AnalyzeFits.StoreKeysFirstOccurrences | scripts/analyze_fits.py:25-35 | a dict filled from empty has as keys the assigned keys, each at its first occurrence |
| AnalyzeFits.HeadMapProperties | scripts/analyze_fits.py:25-38 | `head_map` has at most 80 items, no commentary key, only primitive values, distinct keys, in header order; its keys are the taken keys, each at its first occurrence, even when the header lists a keyword twice |
| AnalyzeFits.AxisCount | scripts/analyze_fits.py:41 | falsy `NAXIS` gives no axes; an int `n` gives `max(n, 0)`; `True` gives 1; a truthy str, float or other object raises `TypeError` |
| AnalyzeFits.AxisKeyInjective | scripts/analyze_fits.py:42 | different axes get different `NAXISn` keys |
| AnalyzeFits.AxesShape | scripts/analyze_fits.py:41-42 | the entries exist exactly when no lookup raises; then there is one per axis, in order, holding `hdr.get("NAXISn")` |
| AnalyzeFits.CollectAxes | scripts/analyze_fits.py:41-42 | the loop gives the entries, or the first lookup's error |
| AnalyzeFits.HeaderSummary | scripts/analyze_fits.py:39-42 | the header part holds `head_map`, `hdr.get("NAXIS")` and exactly as many axis entries as the `range` yields |
| AnalyzeFits.NaxisEntries | scripts/analyze_fits.py:40-42 | `NAXISn` entries exist for `n = 1..NAXIS` and hold `hdr.get`; none exist when `NAXIS` is missing, 0 or otherwise falsy |
| AnalyzeFits.DataSummary | scripts/analyze_fits.py:43-53 | statistics are reported exactly when the array is non-empty |
| AnalyzeFits.HduSummary | scripts/analyze_fits.py:17-54 | the info carries its position and class; it has a header part exactly when the HDU has a header, and a data part exactly when it has data; an HDU without a header never fails |
| AnalyzeFits.CollectHeaderInfo | scripts/analyze_fits.py:19-42 | the header part computed by the two loops equals its specification |
| AnalyzeFits.Analyze | scripts/analyze_fits.py:9-55 | one info per HDU, in order, with `index == i`; `num_hdus` is the HDU count; the first HDU that raises ends it with that error |
| ExportPreview.Finites | scripts/export_preview.py:12 | the finite values are empty exactly when no sample is finite |
| ExportPreview.Clip01 | scripts/export_preview.py:20 | `np.clip` lies in [0, 1] and is the identity on [0, 1] |
| ExportPreview.Level | scripts/export_preview.py:21 | the byte is the truncation of the clipped value times 255 |
| ExportPreview.PercentileScale | scripts/export_preview.py:11-21 | same shape; `vmax > vmin`; no finite sample gives all zeros with range (0, 1); otherwise `vmin` is the 2nd percentile; `vmax` is the 98th when that exceeds `vmin`, and `vmin + 1e-6` when it does not; each byte is that sample's quantisation |
| ExportPreview.QuantizeEnds | scripts/export_preview.py:19-21 | finite samples ≤ vmin give 0 and samples ≥ vmax give 255 |
| ExportPreview.NormaliseMonotone | scripts/export_preview.py:19 | `(x − vmin)/(vmax − vmin)` is monotone |
| ExportPreview.LevelMonotone | scripts/export_preview.py:20-21 | clip-and-truncate is monotone |
| ExportPreview.QuantizeMonotone | scripts/export_preview.py:19-21 | finite `a ≤ b` gives `byte(a) ≤ byte(b)`, with `−inf`'s byte ≤ every finite byte ≤ `+inf`'s byte |
| ExportPreview.FirstIndex | scripts/export_preview.py:29 | `data[0]` keeps the trailing dimensions and the first block of the data; an empty leading axis raises |
| ExportPreview.FirstPlaneShape | scripts/export_preview.py:26-29 | the reduction succeeds exactly when every leading dimension is non-zero; it keeps the last two dimensions and a prefix of the data |
| ExportPreview.ReducePlanes | scripts/export_preview.py:26-29 | the `while` loop computes the first plane |
| ExportPreview.Reverse | scripts/export_preview.py:36 | `shape[::-1]` |
| ExportPreview.WcsEntries | scripts/export_preview.py:40-51 | one entry per WCS keyword, in order, each `hdr.get` of it, unless a lookup raises |
| ExportPreview.MakeMeta | scripts/export_preview.py:35-51 | the metadata has the reversed image shape, the range, `BUNIT` (default `""`) and the ten WCS entries, each `hdr.get` of its key; it fails exactly when one of those lookups raises |
| ExportPreview.MetaShapeIsWidthHeight | scripts/export_preview.py:36 | for a 2-D image, `shape` is `[width, height]` |
| ExportPreview.Export | scripts/export_preview.py:24-51 | the image is the scaled first plane; the metadata reports the plane's reversed shape and a range with `vmax > vmin` |
| ReadPaper.Strip | scripts/read_paper.py:24 | the stripped line is empty or starts and ends with a non-whitespace character |
| ReadPaper.StripIsSlice | scripts/read_paper.py:24 | the stripped line is the slice of the line after its leading whitespace, and only whitespace lies outside it, so `strip()` removes exactly the leading and trailing whitespace |
| ReadPaper.SplitLines | scripts/read_paper.py:24 | no line holds a line boundary |
| ReadPaper.SplitJoin | scripts/read_paper.py:24 | splitting `"\n".join(ls)` gives back `ls` when no line is empty or holds a boundary |
| ReadPaper.NonBlankClean | scripts/read_paper.py:24 | every kept line is non-empty, has no boundary and no whitespace at either end |
| ReadPaper.SnippetLines | scripts/read_paper.py:24 | the snippet's lines are the first at most 30 stripped non-blank lines of the text, each non-empty with no whitespace at either end |
| ReadPaper.FirstFailure | scripts/read_paper.py:18-22 | the first page that raises; every page before it yields |
| ReadPaper.AccumulateText | scripts/read_paper.py:16-22 | the text is each of the first `min(2, pages)` pages before the first failure, each followed by `"\n\n"` |
| ReadPaper.MetaText | scripts/read_paper.py:11-13 | missing metadata gives `''`; a present value is stripped, so the result has no whitespace at either end |
| ReadPaper.Summarize | scripts/read_paper.py:8-31 | `pages` is the page count; title and author are the stripped metadata; the snippet is built from the accumulated text and has at most 30 lines |

## Left out

- Fetching `metadata.json`, decoding the preview image, canvas drawing, `putImageData`, device-pixel-ratio sizing and the JSX UI are left out. They are I/O and a rendering surface.
- React state, effects, re-render scheduling and state batching are left out. The view state is a class whose handlers update its fields in order.
- `Math.log`, `sqrt`, `asinh`, `pow` and `exp` are left out as concrete functions: they are parameters of the model (`MathLib`, the `exp` argument of `OnWheel`). They are transcendental floating-point functions. Only the linear and fallback stretches have proved pixel values.
- The d3 colour interpolators and `interpolateRgb` are foreign libraries. They are parameters (`ColourLib`) that return a string or a non-string value.
- ViewerPixels.PaletteOf: looks the name up only among the nine listed maps. A name that is an `Object.prototype` property (`toString`, say) is not modelled.
- ViewerPixels.GrayText: formats `Math.round(t·255)` with integer decimal digits. JavaScript's exponent notation for numbers of 1e21 and beyond is not modelled.
- ViewerPixels.Store: a `NaN` channel from `parseInt` stores 0, as a `Uint8ClampedArray` does. Fractional channel values cannot arise from the integer parses.
- ViewerView.Viewport.OnWheel: the zoom factor is a parameter `exp` and is not known to be positive. So the zoom-direction lemmas take the needed fact about `exp` as a hypothesis.
- All floating-point arithmetic (JavaScript numbers, Python floats, numpy float64) is modelled with exact reals. Rounding is not modelled.
- ExportPreview.PercentileScale: `vmax > vmin` holds in real arithmetic. In binary64, `vmin + 1e-6` rounds back to `vmin` once `|vmin|` is 2^34 (about 1.7e10) or more, and the model does not capture that.
- ExportPreview.Quantize: a `NaN` sample is taken to give byte 0. Casting NaN to `uint8` is platform-defined in numpy.
- `np.percentile`, `np.nanmin`, `np.nanmax` and `np.nanmean` are inputs: a percentile function, and a given statistics outcome per HDU.
- astropy, PIL and pypdf object models are reduced to what the scripts read:
  - header cards as (keyword, value-or-error);
  - arrays as a shape and row-major data; an HDU's data is given, so reading `h.data` never fails, although astropy loads it lazily and that load can raise;
  - a PDF as its two metadata strings and per-page extraction outcomes.
- Header keyword case-insensitivity is not modelled. The script looks keys up only by the upper-case keywords the header itself lists.
- The script skips only the keywords `COMMENT` and `HISTORY` by name, and so does the model's `Commentary`. astropy also treats the blank keyword `""` as commentary: `hdr[""]` is a list of commentary cards, which `_safe` rejects. The model has no such list. A card's lookup is an input, so a blank or commentary keyword's lookup must be given as `Found(Other(…))`. Only then is it skipped as in the source.
- AnalyzeFits.Analyze: the `path` field is stored as given. The `pathlib` normalisation in `str(Path(path))` is not modelled (it turns `./a.fits` into `a.fits` and `a//b/` into `a/b`).
- ReadPaper.Summarize: the `path` field is stored as given; the same `pathlib` normalisation is not modelled.
- File writing, `mkdir`, `json.dumps`, `argparse` and the `__main__` blocks are left out. They are I/O.
- PDF metadata values are taken to be strings already. `str()` of a non-string metadata object is not modelled.
- `web/src/App.jsx` has no cursor-anchored zoom, brightness windows, masking, colour lookup table, histograms, statistics reduction, RA/Dec formatting or overlays, so the model has none either. Its zoom only rescales (`App.jsx:145`).

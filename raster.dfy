/**
 * Earth Engine rasters, pixel by pixel.
 *
 * An Earth Engine image is a lazily evaluated expression; evaluated at one
 * pixel each band is either a value or masked (no data). The per-pixel algebra
 * below is the part of Earth Engine that the masking code relies on:
 * a binary operation is masked wherever one of its operands is masked, a
 * constant image is never masked, and `unmask()` turns a masked pixel into 0.
 *
 * The pixel sequence of a `RawImage` is the image's own grid, so it is also
 * the image footprint: `unmask()` (which keeps the input footprint) acts on
 * every modelled pixel, and a region is a subset of these pixels.
 */
module Raster {
  import opened Wrappers

  /** One pixel of one band: a value, or masked. */
  datatype Sample<+T> = Masked | Value(v: T)

  // ---------------------------------------------------------------------------
  // Boolean mask algebra (`ee.Image.Or`, `And`, `Not`, `unmask`)

  /** `a.Or(b)`: masked where either operand is masked. */
  function Or(a: Sample<bool>, b: Sample<bool>): Sample<bool> {
    if a.Value? && b.Value? then Value(a.v || b.v) else Masked
  }

  /** `a.And(b)`: masked where either operand is masked. */
  function And(a: Sample<bool>, b: Sample<bool>): Sample<bool> {
    if a.Value? && b.Value? then Value(a.v && b.v) else Masked
  }

  /** `a.Not()`: masked where the operand is masked. */
  function Not(a: Sample<bool>): Sample<bool> {
    if a.Value? then Value(!a.v) else Masked
  }

  /** `m.unmask()` read as a boolean: a masked pixel becomes 0, that is false. */
  predicate Unmask(m: Sample<bool>) {
    m == Value(true)
  }

  /** `s.unmask()` of a real-valued band: a masked pixel becomes 0. */
  function UnmaskReal(s: Sample<real>): real {
    if s.Value? then s.v else 0.0
  }

  /** A mask pixel written into a numeric band: true is 1, false is 0. */
  function MaskSample(m: Sample<bool>): Sample<real> {
    match m
    case Masked => Masked
    case Value(b) => Value(if b then 1.0 else 0.0)
  }

  // ---------------------------------------------------------------------------
  // Counting pixels, the basis of a regional mean

  /** The number of pixels at which `s` holds. */
  function CountTrue(s: seq<bool>): (n: nat)
    ensures n <= |s|
    ensures n == 0 <== (forall i :: 0 <= i < |s| ==> !s[i])
    ensures n == |s| <== (forall i :: 0 <= i < |s| ==> s[i])
  {
    if s == [] then 0
    else (if s[0] then 1 else 0) + CountTrue(s[1..])
  }

  /** A pointwise weaker mask never holds at more pixels. */
  lemma {:induction false} CountMonotone(a: seq<bool>, b: seq<bool>)
    requires |a| == |b|
    requires forall i :: 0 <= i < |a| ==> a[i] ==> b[i]
    ensures CountTrue(a) <= CountTrue(b)
  {
    if a != [] {
      CountMonotone(a[1..], b[1..]);
    }
  }

  // ---------------------------------------------------------------------------
  // Images

  /** A strictly positive real, such as a nominal scale in metres. */
  type PosReal = r: real | r > 0.0 witness 1.0

  /** A Euclidean distance in pixels, as returned after `sqrt()`. */
  type Distance = r: real | r >= 0.0

  /**
   * The quality bands the mask code reads at one pixel:
   * `QA_PIXEL` (16-bit, Landsat), `SR_QA_AEROSOL` (8-bit, Landsat 8),
   * `QA60` (16-bit, Sentinel-2), `SCL` (scene classification, Sentinel-2 SR)
   * and the `probability` band of the attached `s2cloudless` image (0-100).
   */
  datatype Quality = Quality(
    qaPixel: Sample<bv16>,
    srQaAerosol: Sample<bv8>,
    qa60: Sample<bv16>,
    scl: Sample<int>,
    cloudProbability: Sample<int>)

  /** One pixel: its value in each band of the image, and its quality bands. */
  datatype Pixel = Pixel(values: seq<Sample<real>>, quality: Quality)

  /**
   * A catalog image as it arrives: band names, pixels, the nominal scales of
   * its finest and coarsest bands, its `MEAN_SOLAR_AZIMUTH_ANGLE` (degrees)
   * and its properties (`image.set(...)` adds to them; `None` is a null value).
   */
  datatype RawImage = RawImage(
    bandNames: seq<string>,
    pixels: seq<Pixel>,
    minScale: PosReal,
    maxScale: PosReal,
    solarAzimuth: real,
    properties: map<string, Option<real>>)

  /** Every pixel has one sample per band. */
  predicate WellFormed(im: RawImage) {
    forall i :: 0 <= i < |im.pixels| ==> |im.pixels[i].values| == |im.bandNames|
  }

  /** An image the masking code returns: bands and their samples per pixel. */
  datatype EeImage = EeImage(bandNames: seq<string>, pixels: seq<seq<Sample<real>>>)

  /** Units of a focal (neighbourhood) radius. */
  datatype Units = Pixels | Meters

  /**
   * The Earth Engine neighbourhood operators, whose code is not visible.
   * Each takes a whole mask image (one sample per pixel), its parameters and
   * a pixel index, and gives the output at that pixel.
   * - `opening`: `focal_min(radius)` followed by `focal_max(radius)`;
   * - `distance`: `fastDistanceTransform(neighborhood, 'pixels',
   *   'squared_euclidean').sqrt()`;
   * - `project`: `directionalDistanceTransform(angle, maxDistance)
   *   .select('distance').mask()`, true where a cloud projected along
   *   `angle` reaches the pixel.
   */
  datatype EeOperators = EeOperators(
    opening: (seq<Sample<bool>>, real, Units, nat) -> Sample<bool>,
    distance: (seq<Sample<bool>>, int, nat) -> Sample<Distance>,
    project: (seq<Sample<bool>>, real, real, nat) -> bool)
}

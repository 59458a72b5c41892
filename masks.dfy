/**
 * Cloud, shadow, fill and validity masks (`_get_image_masks` of every image
 * class in `geedim/image.py`).
 */
module Masks {
  import opened Wrappers
  import opened Raster
  import opened Variants

  /** The four mask bands at one pixel: `CLOUD_MASK`, `SHADOW_MASK`, `FILL_MASK`, `VALID_MASK`. */
  datatype MaskSet = MaskSet(cloud: Sample<bool>, shadow: Sample<bool>, fill: Sample<bool>, valid: Sample<bool>)

  /** The validity mask is derived from the other three: filled and neither cloud nor shadow. */
  predicate Consistent(m: MaskSet) {
    m.valid == And(Not(Or(m.cloud, m.shadow)), m.fill)
  }

  // ---------------------------------------------------------------------------
  // Bit access on the quality bands

  /** Bit `k` of a 16-bit quality value. */
  function Bit16(q: bv16, k: nat): bool
    requires k < 16
  {
    (q >> k) & 1 == 1
  }

  /** `band.bitwiseAnd(bits).neq(0)`. */
  function AnyBitSet(s: Sample<bv16>, bits: bv16): Sample<bool> {
    match s
    case Masked => Masked
    case Value(q) => Value(q & bits != 0)
  }

  /** `band.bitwiseAnd(bits).eq(0)`. */
  function NoBitSet(s: Sample<bv16>, bits: bv16): Sample<bool> {
    match s
    case Masked => Masked
    case Value(q) => Value(q & bits == 0)
  }

  // ---------------------------------------------------------------------------
  // Image: constant masks

  /** `Image._get_image_masks`: no cloud, no shadow, everything filled and valid. */
  const BaseMasks: MaskSet := MaskSet(Value(false), Value(false), Value(true), Value(true))

  // ---------------------------------------------------------------------------
  // LandsatImage: masks from QA_PIXEL (and SR_QA_AEROSOL on Landsat 8)

  /** `QA_PIXEL` bits 1-3: dilated cloud, cirrus, cloud. */
  const LandsatCloudBits: bv16 := 0x000E
  /** `QA_PIXEL` bit 4: cloud shadow. */
  const LandsatShadowBits: bv16 := 0x0010
  /** `QA_PIXEL` bit 0: fill (no data). */
  const LandsatFillBits: bv16 := 0x0001

  /** `sr_qa_aerosol.rightShift(6).bitwiseAnd(3)`: the aerosol level in bits 6-7 (3 is high). */
  function AerosolLevel(a: bv8): (level: bv8)
    ensures level <= 3
    ensures level as int == a as int / 64
    ensures level == 3 <==> a >= 0xC0
  {
    (a >> 6) & 3
  }

  /** `aerosol_prob.gt(2)`: high aerosol, that is both bits 6 and 7 set. */
  function AerosolMask(s: Sample<bv8>): (m: Sample<bool>)
    ensures m.Value? <==> s.Value?
    ensures s.Value? ==> (m.v <==> s.v >= 0xC0)
  {
    match s
    case Masked => Masked
    case Value(a) => Value(AerosolLevel(a) > 2)
  }

  /**
   * `LandsatImage._get_image_masks` at one pixel, for the class named
   * `gdCollName`: cloud iff one of bits 1, 2, 3 is set (on Landsat 8 also
   * when the aerosol level is 3), shadow iff bit 4 is set, fill iff bit 0 is
   * clear; a masked `QA_PIXEL` masks all four.
   */
  function LandsatMasks(gdCollName: string, q: Quality): (m: MaskSet)
    ensures match q.qaPixel
      case Masked =>
        m.shadow == Masked && m.fill == Masked && m.cloud == Masked && m.valid == Masked
      case Value(x) =>
        var bitCloud := Bit16(x, 1) || Bit16(x, 2) || Bit16(x, 3);
        && m.shadow == Value(Bit16(x, 4))
        && m.fill == Value(!Bit16(x, 0))
        && (gdCollName != Landsat8Name ==> m.cloud == Value(bitCloud))
        && (gdCollName == Landsat8Name ==>
              m.cloud == (match q.srQaAerosol
                          case Masked => Masked
                          case Value(a) => Value(bitCloud || AerosolLevel(a) == 3)))
        && (m.valid.Value? <==> m.cloud.Value?)
        && (Unmask(m.valid) <==> !Bit16(x, 0) && !Bit16(x, 4) && m.cloud == Value(false))
    ensures Consistent(m)
  {
    var qaCloud := AnyBitSet(q.qaPixel, LandsatCloudBits);
    var shadow := AnyBitSet(q.qaPixel, LandsatShadowBits);
    var fill := NoBitSet(q.qaPixel, LandsatFillBits);
    var cloud := if gdCollName == Landsat8Name then Or(qaCloud, AerosolMask(q.srQaAerosol)) else qaCloud;
    MaskSet(cloud, shadow, fill, And(Not(Or(cloud, shadow)), fill))
  }

  /** `QA_PIXEL` with bits 1 and 2 set and bit 0 clear: cloud, filled, no shadow, not valid. */
  lemma LandsatCloudScenario(q: Quality)
    requires q.qaPixel == Value(0x0006)
    ensures var m := LandsatMasks(Landsat7Name, q);
      m.cloud == Value(true) && m.fill == Value(true) && m.shadow == Value(false) && m.valid == Value(false)
  {
  }

  /**
   * For the same pixel, Landsat 8 sees at least the clouds Landsat 7 sees
   * (where `SR_QA_AEROSOL` has data), the same shadow and fill, and never
   * more valid pixels.
   */
  lemma Landsat8WithinLandsat7(q: Quality)
    ensures var m7, m8 := LandsatMasks(Landsat7Name, q), LandsatMasks(Landsat8Name, q);
      && (Unmask(m7.cloud) && q.srQaAerosol.Value? ==> Unmask(m8.cloud))
      && m8.shadow == m7.shadow && m8.fill == m7.fill
      && (Unmask(m8.valid) ==> Unmask(m7.valid))
  {
  }

  // ---------------------------------------------------------------------------
  // Sentinel2Image: cloud from QA60

  /** `QA60` bits 10 (opaque cloud) and 11 (cirrus). */
  const Qa60CloudBits: bv16 := 0x0C00

  /** `Sentinel2Image._get_image_masks`: the base masks with cloud and validity replaced. */
  function Sentinel2Qa60Masks(q: Quality): (m: MaskSet)
    ensures m.shadow == Value(false) && m.fill == Value(true)
    ensures m.cloud == match q.qa60
                       case Masked => Masked
                       case Value(x) => Value(Bit16(x, 10) || Bit16(x, 11))
    ensures m.valid == Not(m.cloud)
  {
    var cloud := AnyBitSet(q.qa60, Qa60CloudBits);
    BaseMasks.(cloud := cloud, valid := Not(cloud))
  }

  // ---------------------------------------------------------------------------
  // Sentinel2ClImage: cloud from s2cloudless probability, shadow from projection

  /** `_cloud_prob_thresh`: probabilities strictly above this are cloud. */
  const CloudProbThreshold: int := 35
  /** `_cloud_proj_dist`: how far (km) shadows are searched from clouds. */
  const CloudProjDistKm: int := 1
  /** `_buffer`: radius (m) of the opening applied to the SCL dark/shadow mask. */
  const BufferMeters: real := 100.0

  /** `cloud_prob.gt(_cloud_prob_thresh)`. */
  function ProbabilityCloud(p: Sample<int>): (c: Sample<bool>)
    ensures c.Value? <==> p.Value?
    ensures p.Value? ==> (c.v <==> p.v >= CloudProbThreshold + 1)
  {
    match p
    case Masked => Masked
    case Value(x) => Value(x > CloudProbThreshold)
  }

  /** A probability of exactly 35 is not cloud; 36 is. */
  lemma ProbabilityThresholdIsStrict()
    ensures ProbabilityCloud(Value(35)) == Value(false)
    ensures ProbabilityCloud(Value(36)) == Value(true)
  {
  }

  /** `scl.eq(3).Or(scl.eq(2))`: scene class cloud shadow (3) or dark area (2). */
  function DarkMask(q: Quality): (d: Sample<bool>)
    ensures d.Value? <==> q.scl.Value?
    ensures q.scl.Value? ==> (d.v <==> q.scl.v in {2, 3})
  {
    match q.scl
    case Masked => Masked
    case Value(c) => Value(c == 3 || c == 2)
  }

  /** `-90 + MEAN_SOLAR_AZIMUTH_ANGLE`: the direction shadows are cast, in degrees. */
  function ShadowAzimuth(solarAzimuth: real): (az: real)
    ensures az + 90.0 == solarAzimuth
  {
    -90.0 + solarAzimuth
  }

  /** The azimuth is not reduced modulo 360: a solar azimuth below 90 gives a negative angle. */
  lemma ShadowAzimuthNotWrapped(solarAzimuth: real)
    requires 0.0 <= solarAzimuth < 90.0
    ensures ShadowAzimuth(solarAzimuth) < 0.0
  {
  }

  /** `_cloud_proj_dist * 1000 / min_scale`: the projection distance in pixels (not truncated). */
  function ProjectionDistancePixels(minScale: PosReal): (px: real)
    ensures px > 0.0
    ensures px * minScale == (CloudProjDistKm * 1000) as real
  {
    (CloudProjDistKm * 1000) as real / minScale
  }

  /**
   * `Sentinel2ClImage._get_image_masks` at one pixel, given the cloud mask,
   * whether a projected cloud reaches the pixel, and the opened SCL dark mask.
   */
  function Sentinel2ClPixelMasks(gdCollName: string, cloud: Sample<bool>, projected: bool, darkOpened: Sample<bool>): (m: MaskSet)
    ensures m.cloud == cloud && m.fill == Value(true)
    ensures Consistent(m)
  {
    var shadow := if gdCollName == Sentinel2SrName then And(Value(projected), darkOpened) else Value(projected);
    BaseMasks.(cloud := cloud, shadow := shadow, valid := Not(Or(cloud, shadow)))
  }

  /**
   * Surface reflectance shadow is the projected shadow narrowed by the SCL
   * dark mask, so it lies within the top-of-atmosphere shadow; where the dark
   * mask has data, every TOA-valid pixel is SR-valid.
   */
  lemma Sentinel2SrShadowWithinToa(cloud: Sample<bool>, projected: bool, darkOpened: Sample<bool>)
    ensures var sr := Sentinel2ClPixelMasks(Sentinel2SrName, cloud, projected, darkOpened);
      var toa := Sentinel2ClPixelMasks(Sentinel2ToaName, cloud, projected, darkOpened);
      && toa.shadow == Value(projected)
      && (Unmask(sr.shadow) <==> projected && Unmask(darkOpened))
      && (Unmask(sr.shadow) ==> Unmask(toa.shadow))
      && sr.cloud == toa.cloud == cloud
      && sr.fill == toa.fill == Value(true)
      && (darkOpened.Value? && Unmask(toa.valid) ==> Unmask(sr.valid))
  {
  }

  /** The s2cloudless cloud mask of a whole image. */
  function CloudProbabilityMask(im: RawImage): (cloud: seq<Sample<bool>>)
    ensures |cloud| == |im.pixels|
    ensures forall i :: 0 <= i < |cloud| ==> cloud[i] == ProbabilityCloud(im.pixels[i].quality.cloudProbability)
  {
    seq(|im.pixels|, i requires 0 <= i < |im.pixels| => ProbabilityCloud(im.pixels[i].quality.cloudProbability))
  }

  /** The SCL dark mask of a whole image. */
  function DarkShadowMask(im: RawImage): (dark: seq<Sample<bool>>)
    ensures |dark| == |im.pixels|
    ensures forall i :: 0 <= i < |dark| ==> dark[i] == DarkMask(im.pixels[i].quality)
  {
    seq(|im.pixels|, i requires 0 <= i < |im.pixels| => DarkMask(im.pixels[i].quality))
  }

  /** `Sentinel2ClImage._get_image_masks` over the whole image. */
  function Sentinel2ClMasks(gdCollName: string, im: RawImage, ops: EeOperators): (ms: seq<MaskSet>)
    ensures |ms| == |im.pixels|
    ensures forall i :: 0 <= i < |ms| ==> Consistent(ms[i])
    ensures forall i :: 0 <= i < |ms| ==>
      ms[i].cloud == ProbabilityCloud(im.pixels[i].quality.cloudProbability) && ms[i].fill == Value(true)
    ensures forall i :: 0 <= i < |ms| ==>
      var projected := ops.project(CloudProbabilityMask(im), ShadowAzimuth(im.solarAzimuth), ProjectionDistancePixels(im.minScale), i);
      ms[i].shadow == if gdCollName == Sentinel2SrName
                      then And(Value(projected), ops.opening(DarkShadowMask(im), BufferMeters, Meters, i))
                      else Value(projected)
  {
    var cloud := CloudProbabilityMask(im);
    var azimuth := ShadowAzimuth(im.solarAzimuth);
    var distance := ProjectionDistancePixels(im.minScale);
    var dark := DarkShadowMask(im);
    var ms := seq(|im.pixels|, i requires 0 <= i < |im.pixels| =>
      Sentinel2ClPixelMasks(gdCollName, cloud[i], ops.project(cloud, azimuth, distance, i),
                            ops.opening(dark, BufferMeters, Meters, i)));
    assert forall i :: 0 <= i < |ms| ==> Consistent(ms[i]) && ms[i].cloud == cloud[i] && ms[i].fill == Value(true) by {
      forall i | 0 <= i < |ms| ensures Consistent(ms[i]) && ms[i].cloud == cloud[i] && ms[i].fill == Value(true) {
        var m := Sentinel2ClPixelMasks(gdCollName, cloud[i], ops.project(cloud, azimuth, distance, i),
                                       ops.opening(dark, BufferMeters, Meters, i));
        assert ms[i] == m;
      }
    }
    ms
  }

  // ---------------------------------------------------------------------------
  // Dispatch on the image class

  /** The masks of one pixel for the classes whose masks are per-pixel decodes. */
  function PixelMasks(v: Variant, q: Quality): MaskSet
    requires !v.Sentinel2Cl?
  {
    match v
    case Generic => BaseMasks
    case ModisNbar => BaseMasks
    case Landsat7 => LandsatMasks(GdCollName(v), q)
    case Landsat8 => LandsatMasks(GdCollName(v), q)
    case Sentinel2Qa60(_) => Sentinel2Qa60Masks(q)
  }

  /**
   * `self._get_image_masks(image)` for an image of class `v`: one mask set per
   * pixel, each obeying valid = fill AND NOT(cloud OR shadow).
   */
  function ImageMasks(v: Variant, im: RawImage, ops: EeOperators): (ms: seq<MaskSet>)
    ensures |ms| == |im.pixels|
    ensures forall i :: 0 <= i < |ms| ==> Consistent(ms[i])
    ensures forall i :: 0 <= i < |ms| && Unmask(ms[i].valid) ==>
      Unmask(ms[i].fill) && ms[i].cloud == Value(false) && ms[i].shadow == Value(false)
    ensures v == Generic || v == ModisNbar ==> forall i :: 0 <= i < |ms| ==> ms[i] == BaseMasks
    ensures v == Landsat7 || v == Landsat8 ==>
      forall i :: 0 <= i < |ms| ==> ms[i] == LandsatMasks(GdCollName(v), im.pixels[i].quality)
    ensures v.Sentinel2Qa60? ==> forall i :: 0 <= i < |ms| ==> ms[i] == Sentinel2Qa60Masks(im.pixels[i].quality)
    ensures v.Sentinel2Cl? ==> ms == Sentinel2ClMasks(GdCollName(v), im, ops)
  {
    if v.Sentinel2Cl? then Sentinel2ClMasks(GdCollName(v), im, ops)
    else seq(|im.pixels|, i requires 0 <= i < |im.pixels| => PixelMasks(v, im.pixels[i].quality))
  }

  /** The `masks` argument of the source's helpers: the given masks, or when `None` the image's own. */
  function MasksOrDerived(v: Variant, im: RawImage, ops: EeOperators, masks: Option<seq<MaskSet>>): (ms: seq<MaskSet>)
    requires masks.Some? ==> |masks.value| == |im.pixels|
    ensures |ms| == |im.pixels|
    ensures masks.Some? ==> ms == masks.value
    ensures masks.None? ==> ms == ImageMasks(v, im, ops)
  {
    if masks.Some? then masks.value else ImageMasks(v, im, ops)
  }

  /** The generic and MODIS classes mask nothing: every pixel is filled and valid. */
  lemma GenericMasksConstant(v: Variant, im: RawImage, ops: EeOperators, i: nat)
    requires v == Generic || v == ModisNbar
    requires i < |im.pixels|
    ensures ImageMasks(v, im, ops)[i] == MaskSet(Value(false), Value(false), Value(true), Value(true))
  {
  }

  /** Over a whole image, SR shadow lies within TOA shadow, pixel by pixel. */
  lemma Sentinel2SrImageShadowWithinToa(im: RawImage, ops: EeOperators, i: nat)
    requires i < |im.pixels|
    ensures Unmask(ImageMasks(Sentinel2Cl(Sr), im, ops)[i].shadow) ==>
            Unmask(ImageMasks(Sentinel2Cl(Toa), im, ops)[i].shadow)
    ensures ImageMasks(Sentinel2Cl(Sr), im, ops)[i].cloud == ImageMasks(Sentinel2Cl(Toa), im, ops)[i].cloud
  {
    var cloud := CloudProbabilityMask(im);
    var proj := ops.project(cloud, ShadowAzimuth(im.solarAzimuth), ProjectionDistancePixels(im.minScale), i);
    Sentinel2SrShadowWithinToa(cloud[i], proj, ops.opening(DarkShadowMask(im), BufferMeters, Meters, i));
  }
}

/**
 * Adding the mask and score bands to an image (`_process_image`), the valid
 * portion of a region (`set_image_valid_portion`), and the split of Landsat
 * band names into reflectance and other bands used by `_scale_refl`.
 */
module Process {
  import opened Wrappers
  import opened Raster
  import opened Variants
  import opened Masks
  import opened Score

  /** The names of the mask bands, in the order of the masks dictionary. */
  const MaskBandNames: seq<string> := ["CLOUD_MASK", "SHADOW_MASK", "FILL_MASK", "VALID_MASK"]
  /** The name of the score band. */
  const ScoreBandName: string := "SCORE"
  /** The image property `set_image_valid_portion` sets. */
  const ValidPortionProperty: string := "VALID_PORTION"

  // ---------------------------------------------------------------------------
  // _process_image

  /** The samples appended to one pixel: the four masks, then the score. */
  function AddedSamples(m: MaskSet, score: real): seq<Sample<real>> {
    [MaskSample(m.cloud), MaskSample(m.shadow), MaskSample(m.fill), MaskSample(m.valid), Value(score)]
  }

  /** `updateMask(valid_mask)` at one pixel: every band is masked unless the validity mask is 1. */
  function UpdateMask(values: seq<Sample<real>>, valid: Sample<bool>): (out: seq<Sample<real>>)
    ensures |out| == |values|
    ensures forall j :: 0 <= j < |out| ==> out[j] == if Unmask(valid) then values[j] else Masked
  {
    if Unmask(valid) then values else seq(|values|, _ => Masked)
  }

  /** The processed pixel: its bands, the masks and score, masked when `applyMask` says so. */
  function ProcessPixel(p: Pixel, m: MaskSet, score: real, applyMask: bool): (out: seq<Sample<real>>)
    ensures |out| == |p.values| + 5
    ensures !applyMask || Unmask(m.valid) ==>
      && out[..|p.values|] == p.values
      && out[|p.values|..] == [MaskSample(m.cloud), MaskSample(m.shadow), MaskSample(m.fill), MaskSample(m.valid), Value(score)]
    ensures applyMask && !Unmask(m.valid) ==> forall j :: 0 <= j < |out| ==> out[j] == Masked
  {
    var added := p.values + AddedSamples(m, score);
    if applyMask then UpdateMask(added, m.valid) else added
  }

  /** The `score` argument of `_process_image`: the given score, or when `None` the default-distance score. */
  function ScoreOrDerived(v: Variant, im: RawImage, ops: EeOperators, masks: Option<seq<MaskSet>>,
                          score: Option<seq<real>>): (sc: seq<real>)
    requires masks.Some? ==> |masks.value| == |im.pixels|
    requires score.Some? ==> |score.value| == |im.pixels|
    ensures |sc| == |im.pixels|
    ensures score.None? ==> sc == ImageScore(v, im, ops, DefaultCloudDist, Some(MasksOrDerived(v, im, ops, masks)))
    ensures score.Some? ==> sc == score.value
  {
    if score.Some? then score.value else ImageScore(v, im, ops, DefaultCloudDist, Some(MasksOrDerived(v, im, ops, masks)))
  }

  /**
   * `_process_image(ee_image, masks, score, apply_mask)`: the image's bands,
   * then `CLOUD_MASK`, `SHADOW_MASK`, `FILL_MASK`, `VALID_MASK` and `SCORE`;
   * with `applyMask` every band (the added ones too) is masked wherever the
   * validity mask is not 1. Missing masks and score are derived from the image.
   */
  function ProcessImage(v: Variant, im: RawImage, ops: EeOperators, masks: Option<seq<MaskSet>>,
                        score: Option<seq<real>>, applyMask: bool): (out: EeImage)
    requires WellFormed(im)
    requires masks.Some? ==> |masks.value| == |im.pixels|
    requires score.Some? ==> |score.value| == |im.pixels|
    ensures out.bandNames == im.bandNames + MaskBandNames + [ScoreBandName]
    ensures |out.pixels| == |im.pixels|
    ensures forall i :: 0 <= i < |out.pixels| ==> |out.pixels[i]| == |out.bandNames|
  {
    var ms := MasksOrDerived(v, im, ops, masks);
    var sc := ScoreOrDerived(v, im, ops, masks, score);
    EeImage(im.bandNames + MaskBandNames + [ScoreBandName],
            seq(|im.pixels|, i requires 0 <= i < |im.pixels| => ProcessPixel(im.pixels[i], ms[i], sc[i], applyMask)))
  }

  /**
   * What `_process_image` does to pixel `i`: without `applyMask` the image's
   * own samples are unchanged and the added bands hold the masks and the
   * score (given, or derived with the default 2000 m distance);
   * with it, a pixel keeps any unmasked sample only if it is valid, and a
   * valid pixel keeps all of them.
   */
  lemma ProcessedPixel(v: Variant, im: RawImage, ops: EeOperators, masks: Option<seq<MaskSet>>,
                       score: Option<seq<real>>, applyMask: bool, i: nat)
    requires WellFormed(im)
    requires masks.Some? ==> |masks.value| == |im.pixels|
    requires score.Some? ==> |score.value| == |im.pixels|
    requires i < |im.pixels|
    ensures var out := ProcessImage(v, im, ops, masks, score, applyMask).pixels[i];
      var m := MasksOrDerived(v, im, ops, masks)[i];
      var n := |im.bandNames|;
      && (!applyMask || Unmask(m.valid) ==>
            && out[..n] == im.pixels[i].values
            && out[n..n + 4] == [MaskSample(m.cloud), MaskSample(m.shadow), MaskSample(m.fill), MaskSample(m.valid)]
            && out[n + 4] == Value(ScoreOrDerived(v, im, ops, masks, score)[i]))
      && (applyMask && !Unmask(m.valid) ==> forall j :: 0 <= j < |out| ==> out[j] == Masked)
  {
  }

  /** With `applyMask`, no band of the processed image has data at an invalid pixel. */
  lemma AppliedMaskHidesInvalid(v: Variant, im: RawImage, ops: EeOperators, i: nat, j: nat)
    requires WellFormed(im)
    requires i < |im.pixels|
    requires j < |im.bandNames| + 5
    ensures ProcessImage(v, im, ops, None, None, true).pixels[i][j].Value? ==>
      Unmask(ImageMasks(v, im, ops)[i].valid) && Unmask(ImageMasks(v, im, ops)[i].fill)
  {
  }

  // ---------------------------------------------------------------------------
  // set_image_valid_portion

  /** The region, or when none is given the image's own geometry (every pixel). */
  function RegionOrGeometry(im: RawImage, region: Option<seq<bool>>): (r: seq<bool>)
    requires region.Some? ==> |region.value| == |im.pixels|
    ensures |r| == |im.pixels|
    ensures region.Some? ==> r == region.value
    ensures region.None? ==> forall i :: 0 <= i < |r| ==> r[i]
  {
    if region.Some? then region.value else seq(|im.pixels|, _ => true)
  }

  /** The pixels of the region where the unmasked validity mask is 1. */
  function ValidInRegion(ms: seq<MaskSet>, region: seq<bool>): (s: seq<bool>)
    requires |ms| == |region|
    ensures |s| == |region|
    ensures forall i :: 0 <= i < |s| ==> s[i] ==> region[i]
    ensures CountTrue(s) <= CountTrue(region)
  {
    var s := seq(|region|, i requires 0 <= i < |region| => region[i] && Unmask(ms[i].valid));
    CountMonotone(s, region);
    s
  }

  /** The pixels of the region where the unmasked fill mask is 1. */
  function FillInRegion(ms: seq<MaskSet>, region: seq<bool>): (s: seq<bool>)
    requires |ms| == |region|
    ensures |s| == |region|
  {
    seq(|region|, i requires 0 <= i < |region| => region[i] && Unmask(ms[i].fill))
  }

  /**
   * `valid_mask.unmask().multiply(100)` reduced by its mean over the region:
   * the percentage of region pixels that are valid, or null (`None`) for a
   * region without pixels.
   */
  function ValidPortion(v: Variant, im: RawImage, ops: EeOperators, region: Option<seq<bool>>,
                        masks: Option<seq<MaskSet>>): (p: Option<real>)
    requires region.Some? ==> |region.value| == |im.pixels|
    requires masks.Some? ==> |masks.value| == |im.pixels|
    ensures p.None? <==> CountTrue(RegionOrGeometry(im, region)) == 0
    ensures p.Some? ==> 0.0 <= p.value <= 100.0
    ensures p.Some? ==>
      (p.value == 100.0 <==> ValidInRegion(MasksOrDerived(v, im, ops, masks), RegionOrGeometry(im, region)) == RegionOrGeometry(im, region))
    ensures p.Some? ==>
      p.value == Percentage(CountTrue(ValidInRegion(MasksOrDerived(v, im, ops, masks), RegionOrGeometry(im, region))),
                            CountTrue(RegionOrGeometry(im, region)))
  {
    var r := RegionOrGeometry(im, region);
    var valid := ValidInRegion(MasksOrDerived(v, im, ops, masks), r);
    var n := CountTrue(r);
    if n == 0 then None
    else
      FullCountIsAll(valid, r);
      Some(Percentage(CountTrue(valid), n))
  }

  /** `100 * k / n` for `k` of `n` pixels. */
  function Percentage(k: nat, n: nat): (p: real)
    requires 0 < n && k <= n
    ensures 0.0 <= p <= 100.0
    ensures p == 100.0 <==> k == n
    ensures p * n as real == 100.0 * k as real
  {
    ShareBounds(k, n);
    100.0 * k as real * (1.0 / n as real)
  }

  /** The share `100 * k * (1 / n)` lies in [0, 100], reaches 100 only at `k == n`, and times `n` is `100 * k`. */
  lemma ShareBounds(k: nat, n: nat)
    requires 0 < n && k <= n
    ensures var p := 100.0 * k as real * (1.0 / n as real);
      0.0 <= p <= 100.0 && (p == 100.0 <==> k == n) && p * n as real == 100.0 * k as real
  {
    var inv := 1.0 / n as real;
    assert n as real * inv == 1.0;
    Score.ScaleMonotone(0.0, 100.0 * k as real, inv);
    Score.ScaleMonotone(100.0 * k as real, 100.0 * n as real, inv);
    if k < n {
      Score.ScaleStrictMonotone(100.0 * k as real, 100.0 * n as real, inv);
    }
  }

  /** Within a region, the valid pixels are all of the region only if they match it pixel for pixel. */
  lemma {:induction false} FullCountIsAll(a: seq<bool>, r: seq<bool>)
    requires |a| == |r|
    requires forall i :: 0 <= i < |a| ==> a[i] ==> r[i]
    ensures CountTrue(a) == CountTrue(r) <==> a == r
  {
    if a != [] {
      FullCountIsAll(a[1..], r[1..]);
      CountMonotone(a[1..], r[1..]);
      assert a == [a[0]] + a[1..];
      assert r == [r[0]] + r[1..];
    }
  }

  /**
   * `set_image_valid_portion(image, region, masks)`: the image with its
   * `VALID_PORTION` property set and nothing else changed.
   */
  function SetImageValidPortion(v: Variant, im: RawImage, ops: EeOperators, region: Option<seq<bool>>,
                                masks: Option<seq<MaskSet>>): (out: RawImage)
    requires region.Some? ==> |region.value| == |im.pixels|
    requires masks.Some? ==> |masks.value| == |im.pixels|
    ensures ValidPortionProperty in out.properties
    ensures out.properties[ValidPortionProperty] == ValidPortion(v, im, ops, region, masks)
    ensures forall k :: k in im.properties && k != ValidPortionProperty ==> k in out.properties && out.properties[k] == im.properties[k]
    ensures out.properties.Keys == im.properties.Keys + {ValidPortionProperty}
    ensures out.bandNames == im.bandNames && out.pixels == im.pixels
    ensures out.minScale == im.minScale && out.maxScale == im.maxScale && out.solarAzimuth == im.solarAzimuth
  {
    im.(properties := im.properties[ValidPortionProperty := ValidPortion(v, im, ops, region, masks)])
  }

  /** No more of a region is valid than is filled. */
  lemma ValidWithinFill(v: Variant, im: RawImage, ops: EeOperators, region: seq<bool>)
    requires |region| == |im.pixels|
    ensures var ms := ImageMasks(v, im, ops);
      CountTrue(ValidInRegion(ms, region)) <= CountTrue(FillInRegion(ms, region))
  {
    var ms := ImageMasks(v, im, ops);
    CountMonotone(ValidInRegion(ms, region), FillInRegion(ms, region));
  }

  /** The generic and MODIS images are entirely valid: their portion of any non-empty region is 100. */
  lemma GenericPortionFull(v: Variant, im: RawImage, ops: EeOperators, region: Option<seq<bool>>)
    requires v == Generic || v == ModisNbar
    requires region.Some? ==> |region.value| == |im.pixels|
    requires CountTrue(RegionOrGeometry(im, region)) > 0
    ensures ValidPortion(v, im, ops, region, None) == Some(100.0)
  {
    var r := RegionOrGeometry(im, region);
    var ms := ImageMasks(v, im, ops);
    forall i | 0 <= i < |r| ensures ValidInRegion(ms, r)[i] == r[i] {
      GenericMasksConstant(v, im, ops, i);
    }
  }

  /** Masks that are valid at fewer pixels give a valid portion no larger, over any region. */
  lemma PortionMonotone(im: RawImage, ops: EeOperators, region: Option<seq<bool>>,
                        v1: Variant, ms1: seq<MaskSet>, v2: Variant, ms2: seq<MaskSet>)
    requires region.Some? ==> |region.value| == |im.pixels|
    requires |ms1| == |ms2| == |im.pixels|
    requires forall i :: 0 <= i < |ms1| ==> Unmask(ms1[i].valid) ==> Unmask(ms2[i].valid)
    ensures var p1, p2 := ValidPortion(v1, im, ops, region, Some(ms1)), ValidPortion(v2, im, ops, region, Some(ms2));
      p1.Some? == p2.Some? && (p1.Some? ==> p1.value <= p2.value)
  {
    var r := RegionOrGeometry(im, region);
    var a1, a2 := ValidInRegion(ms1, r), ValidInRegion(ms2, r);
    assert forall i :: 0 <= i < |r| ==> a1[i] ==> a2[i];
    CountMonotone(a1, a2);
    CountMonotone(a2, r);
    if CountTrue(r) > 0 {
      PercentageMonotone(CountTrue(a1), CountTrue(a2), CountTrue(r));
    }
  }

  /** A larger count is a larger percentage of the same total. */
  lemma PercentageMonotone(k: nat, l: nat, n: nat)
    requires 0 < n && k <= l <= n
    ensures Percentage(k, n) <= Percentage(l, n)
  {
    Score.ScaleMonotone(100.0 * k as real, 100.0 * l as real, 1.0 / n as real);
  }

  /** Landsat 8 never reports a larger valid portion than Landsat 7 masks would for the same pixels. */
  lemma Landsat8PortionAtMostLandsat7(im: RawImage, ops: EeOperators, region: Option<seq<bool>>)
    requires region.Some? ==> |region.value| == |im.pixels|
    ensures var p7, p8 := ValidPortion(Landsat7, im, ops, region, None), ValidPortion(Landsat8, im, ops, region, None);
      p7.Some? == p8.Some? && (p8.Some? ==> p8.value <= p7.value)
  {
    var m7, m8 := ImageMasks(Landsat7, im, ops), ImageMasks(Landsat8, im, ops);
    forall i | 0 <= i < |im.pixels| ensures Unmask(m8[i].valid) ==> Unmask(m7[i].valid) {
      assert m7[i] == LandsatMasks(Landsat7Name, im.pixels[i].quality);
      assert m8[i] == LandsatMasks(Landsat8Name, im.pixels[i].quality);
      Landsat8WithinLandsat7(im.pixels[i].quality);
    }
    PortionMonotone(im, ops, region, Landsat8, m8, Landsat7, m7);
  }

  /** The opened SCL dark mask has data at every pixel of the image. */
  predicate DarkMaskDefined(im: RawImage, ops: EeOperators) {
    forall i :: 0 <= i < |im.pixels| ==> ops.opening(DarkShadowMask(im), BufferMeters, Meters, i).Value?
  }

  /**
   * Where the opened SCL dark mask has data, Sentinel-2 top-of-atmosphere
   * masks leave no larger valid portion than surface-reflectance masks.
   */
  lemma Sentinel2ToaPortionAtMostSr(im: RawImage, ops: EeOperators, region: Option<seq<bool>>)
    requires region.Some? ==> |region.value| == |im.pixels|
    requires DarkMaskDefined(im, ops)
    ensures var sr, toa := ValidPortion(Sentinel2Cl(Sr), im, ops, region, None), ValidPortion(Sentinel2Cl(Toa), im, ops, region, None);
      sr.Some? == toa.Some? && (toa.Some? ==> toa.value <= sr.value)
  {
    var ms, mt := ImageMasks(Sentinel2Cl(Sr), im, ops), ImageMasks(Sentinel2Cl(Toa), im, ops);
    var cloud := CloudProbabilityMask(im);
    var dark := DarkShadowMask(im);
    var azimuth, distance := ShadowAzimuth(im.solarAzimuth), ProjectionDistancePixels(im.minScale);
    forall i | 0 <= i < |im.pixels| ensures Unmask(mt[i].valid) ==> Unmask(ms[i].valid) {
      var proj := ops.project(cloud, azimuth, distance, i);
      var d := ops.opening(dark, BufferMeters, Meters, i);
      assert ms[i] == Sentinel2ClPixelMasks(Sentinel2SrName, cloud[i], proj, d);
      assert mt[i] == Sentinel2ClPixelMasks(Sentinel2ToaName, cloud[i], proj, d);
      Sentinel2SrShadowWithinToa(cloud[i], proj, d);
    }
    PortionMonotone(im, ops, region, Sentinel2Cl(Toa), mt, Sentinel2Cl(Sr), ms);
  }
}

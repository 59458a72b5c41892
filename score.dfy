/** The cloud distance quality score (`Image._get_image_score`). */
module Score {
  import opened Wrappers
  import opened Raster
  import opened Variants
  import opened Masks

  /** The default `cloud_dist`: search for clouds within 2000 m. */
  const DefaultCloudDist: int := 2000
  /** The radius, in pixels, of the opening that removes speckle from the cloud/shadow mask. */
  const OpeningRadiusPixels: real := 1.5

  /** `ee.Number.toInt()`: truncation toward zero. */
  function TruncateToInt(x: real): (n: int)
    ensures x >= 0.0 ==> 0 <= n && n as real <= x < (n + 1) as real
    ensures x < 0.0 ==> n <= 0 && (n - 1) as real < x <= n as real
  {
    if x >= 0.0 then x.Floor else -((-x).Floor)
  }

  /** Multiplying by a positive scale keeps order. */
  lemma ScaleMonotone(a: real, b: real, scale: PosReal)
    requires a <= b
    ensures a * scale <= b * scale
  {
  }

  /** Multiplying by a positive scale keeps strict order. */
  lemma ScaleStrictMonotone(a: real, b: real, scale: PosReal)
    requires a < b
    ensures a * scale < b * scale
  {
  }

  /** `cloud_pix`: the search neighbourhood `cloud_dist / nominalScale`, truncated to whole pixels. */
  function NeighbourhoodPixels(cloudDist: int, scale: PosReal): (px: int)
    ensures cloudDist >= 0 ==> px >= 0 && px as real * scale <= cloudDist as real
    ensures cloudDist >= 0 ==> cloudDist as real < (px + 1) as real * scale
  {
    var q := cloudDist as real / scale;
    var n := TruncateToInt(q);
    assert q * scale == cloudDist as real;
    if cloudDist >= 0 then
      assert q >= 0.0 by {
        if q < 0.0 { ScaleStrictMonotone(q, 0.0, scale); }
      }
      ScaleMonotone(n as real, q, scale);
      ScaleStrictMonotone(q, (n + 1) as real, scale);
      assert cloudDist as real < (n + 1) as real * scale;
      n
    else
      n
  }

  /** The default neighbourhood is 66 pixels at Landsat's 30 m and 200 pixels at Sentinel-2's 10 m. */
  lemma DefaultNeighbourhood()
    ensures NeighbourhoodPixels(DefaultCloudDist, 30.0) == 66
    ensures NeighbourhoodPixels(DefaultCloudDist, 10.0) == 200
  {
  }

  /** The score at one pixel: 0 unless the pixel is filled, else the (unmasked) distance to cloud. */
  function PixelScore(m: MaskSet, d: Sample<Distance>): (s: real)
    ensures s >= 0.0
    ensures !Unmask(m.fill) ==> s == 0.0
    ensures s > 0.0 ==> Unmask(m.fill) && d.Value? && s == d.v
    ensures Unmask(m.fill) ==> s == UnmaskReal(d)
  {
    if !Unmask(m.fill) then 0.0
    else if d.Value? then d.v
    else 0.0
  }

  /** `masks['cloud_mask'].Or(masks['shadow_mask'])`. */
  function CloudShadowMask(ms: seq<MaskSet>): (cs: seq<Sample<bool>>)
    ensures |cs| == |ms|
    ensures forall i :: 0 <= i < |ms| ==> (cs[i].Value? <==> ms[i].cloud.Value? && ms[i].shadow.Value?)
    ensures forall i :: 0 <= i < |ms| && Unmask(cs[i]) ==> Unmask(ms[i].cloud) || Unmask(ms[i].shadow)
    ensures forall i :: 0 <= i < |ms| && ms[i].cloud.Value? && ms[i].shadow.Value? ==>
      (Unmask(cs[i]) <==> Unmask(ms[i].cloud) || Unmask(ms[i].shadow))
  {
    seq(|ms|, i requires 0 <= i < |ms| => Or(ms[i].cloud, ms[i].shadow))
  }

  /** `cloud_shadow_mask.focal_min(radius).focal_max(radius)`: the opened cloud/shadow mask. */
  function OpenedCloudShadow(ms: seq<MaskSet>, ops: EeOperators): (smoothed: seq<Sample<bool>>)
    ensures |smoothed| == |ms|
    ensures forall i :: 0 <= i < |ms| ==>
      smoothed[i] == ops.opening(CloudShadowMask(ms), OpeningRadiusPixels, Pixels, i)
  {
    var cs := CloudShadowMask(ms);
    seq(|cs|, i requires 0 <= i < |cs| => ops.opening(cs, OpeningRadiusPixels, Pixels, i))
  }

  /**
   * `_get_image_score(image, cloud_dist, masks)`: the distance, in pixels, to
   * the nearest opened cloud/shadow pixel within `cloud_pix`, unmasked to 0 and
   * forced to 0 wherever the fill mask is false or masked.
   */
  function ImageScore(v: Variant, im: RawImage, ops: EeOperators, cloudDist: int, masks: Option<seq<MaskSet>>): (score: seq<real>)
    requires masks.Some? ==> |masks.value| == |im.pixels|
    ensures |score| == |im.pixels|
    ensures forall i :: 0 <= i < |score| ==> score[i] >= 0.0
    ensures forall i :: 0 <= i < |score| && !Unmask(MasksOrDerived(v, im, ops, masks)[i].fill) ==> score[i] == 0.0
    ensures forall i :: 0 <= i < |score| && Unmask(MasksOrDerived(v, im, ops, masks)[i].fill) ==>
      score[i] == UnmaskReal(ops.distance(OpenedCloudShadow(MasksOrDerived(v, im, ops, masks), ops),
                                          NeighbourhoodPixels(cloudDist, im.minScale), i))
  {
    var ms := MasksOrDerived(v, im, ops, masks);
    var cloudPix := NeighbourhoodPixels(cloudDist, im.minScale);
    var smoothed := OpenedCloudShadow(ms, ops);
    var score := seq(|ms|, i requires 0 <= i < |ms| => PixelScore(ms[i], ops.distance(smoothed, cloudPix, i)));
    assert forall i :: 0 <= i < |score| ==>
        && score[i] >= 0.0
        && (!Unmask(ms[i].fill) ==> score[i] == 0.0)
        && (Unmask(ms[i].fill) ==> score[i] == UnmaskReal(ops.distance(smoothed, cloudPix, i))) by {
      forall i | 0 <= i < |score|
        ensures && score[i] >= 0.0
                && (!Unmask(ms[i].fill) ==> score[i] == 0.0)
                && (Unmask(ms[i].fill) ==> score[i] == UnmaskReal(ops.distance(smoothed, cloudPix, i)))
      {
        assert score[i] == PixelScore(ms[i], ops.distance(smoothed, cloudPix, i));
      }
    }
    score
  }
}

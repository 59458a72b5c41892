/** The image wrapper object of `geedim/image.py`. */
module GeeImage {
  import opened Wrappers
  import opened Raster
  import opened Variants
  import opened Masks
  import opened Score
  import opened Process
  import Ids

  /**
   * An Earth Engine image wrapped for cloud/shadow masking and scoring.
   * The constructor derives the masks and the score once and keeps the image
   * with the mask and score bands added (`Image.__init__`); the class of the
   * source's inheritance chain is the `variant`.
   */
  class Image {
    const variant: Variant
    const masks: seq<MaskSet>
    const score: seq<real>
    const eeImage: EeImage

    /** The masks obey their derivation rule and the score is 0 off the filled pixels. */
    ghost predicate Valid() {
      && |masks| == |score| == |eeImage.pixels|
      && (forall i :: 0 <= i < |masks| ==> Consistent(masks[i]))
      && (forall i :: 0 <= i < |score| ==> score[i] >= 0.0)
      && (forall i :: 0 <= i < |masks| && !Unmask(masks[i].fill) ==> score[i] == 0.0)
    }

    /** `Image.__init__(ee_image, mask)`. */
    constructor (variant: Variant, im: RawImage, ops: EeOperators, mask: bool)
      requires WellFormed(im)
      ensures Valid()
      ensures this.variant == variant
      ensures masks == ImageMasks(variant, im, ops)
      ensures score == ImageScore(variant, im, ops, DefaultCloudDist, None)
      ensures eeImage == ProcessImage(variant, im, ops, Some(masks), Some(score), mask)
      ensures eeImage.bandNames == im.bandNames + MaskBandNames + [ScoreBandName]
    {
      this.variant := variant;
      var ms := ImageMasks(variant, im, ops);
      var sc := ImageScore(variant, im, ops, DefaultCloudDist, None);
      masks := ms;
      score := sc;
      eeImage := ProcessImage(variant, im, ops, Some(ms), Some(sc), mask);
    }

    /**
     * `cls.from_id(image_id, mask)`: check the id's collection, fetch the image
     * (and, for the cloud-probability classes, its s2cloudless image) from
     * `catalog`, and wrap it. The collection check is the corrected
     * `Ids.FromId`, which accepts the MODIS collection.
     */
    static method FromId(cls: Variant, imageId: string, eeToGd: map<string, string>,
                         catalog: Ids.ImageSource -> RawImage, ops: EeOperators, mask: bool)
      returns (r: Result<Image, Ids.IdError>)
      requires forall src :: WellFormed(catalog(src))
      ensures r.Success? <==> Ids.FromId(cls, imageId, eeToGd).Success?
      ensures r.Failure? ==> r.error == Ids.FromId(cls, imageId, eeToGd).error
      ensures r.Success? ==> fresh(r.value) && r.value.Valid() && r.value.variant == cls
      ensures r.Success? ==>
        var im := catalog(Ids.FromId(cls, imageId, eeToGd).value);
        && r.value.masks == ImageMasks(cls, im, ops)
        && r.value.score == ImageScore(cls, im, ops, DefaultCloudDist, None)
        && r.value.eeImage == ProcessImage(cls, im, ops, Some(r.value.masks), Some(r.value.score), mask)
    {
      var source := Ids.FromId(cls, imageId, eeToGd);
      if source.Failure? {
        return Failure(source.error);
      }
      var image := new Image(cls, catalog(source.value), ops, mask);
      return Success(image);
    }
  }
}

# geedim image masking, scoring and ids — a Dafny model

This project models the core of `geedim/image.py` from geedim, a tool that
searches, masks and downloads Earth Engine satellite imagery. The core is the
per-pixel logic of its image wrapper classes:

- the cloud, shadow, fill and validity masks of each image class
  (generic `Image`, `Landsat7Image`/`Landsat8Image`, `Sentinel2SrImage`/`Sentinel2ToaImage`
  from `QA60`, `Sentinel2SrClImage`/`Sentinel2ToaClImage` from s2cloudless cloud
  probability, `ModisNbarImage`);
- the cloud-distance quality score;
- the processed image (original bands, then `CLOUD_MASK`, `SHADOW_MASK`,
  `FILL_MASK`, `VALID_MASK`, `SCORE`, optionally masked by validity);
- the valid portion of a region;
- Earth Engine id handling (`ee_split`, the collection checks of `from_id`,
  the s2cloudless id) and the collection-to-class table `coll_to_im_cls_map`;
- the reflectance band-name partition used by Landsat reflectance scaling.

Every Earth Engine expression is evaluated pixel by pixel. A band sample is a
value or masked (`Raster.Sample`); binary operations are masked wherever an
operand is masked, constant images are never masked, and `unmask()` turns a
masked pixel into 0. Quality bands are bit-vectors of their width (`QA_PIXEL`
and `QA60` 16-bit, `SR_QA_AEROSOL` 8-bit). The image classes become the
`Variants.Variant` union, and the masks of each class are pure functions.
The Earth Engine neighbourhood operators (`focal_min`/`focal_max`,
`fastDistanceTransform`, `directionalDistanceTransform`) are not visible code.
They are the three functions of `Raster.EeOperators`, passed in. The model
threads into them the parameters the source computes: the opening radius,
the neighbourhood in whole pixels, the shadow azimuth and the projection
distance. The wrapper object is the class `GeeImage.Image`. Its constructor
sets the masks, the score and the processed image once, as `Image.__init__` does.

Modules: `Wrappers` (Option, Result), `Raster` (samples, mask algebra, pixel
counting, images), `Variants` (classes and the class table), `Masks`,
`Score`, `Process` (band assembly and valid portion), `Reflectance`, `Ids`
and `GeeImage`.

Notes on the code, which the model follows:
- the shadow azimuth is `solar azimuth - 90` with no reduction modulo 360;
- the cloud-probability threshold is the fixed constant 35 (strictly greater is cloud);
- the score band is named `SCORE`;
- the `QA60` and cloud-probability classes keep the constant fill mask 1 and
  set validity to `NOT cloud` or `NOT (cloud OR shadow)`. With fill 1 this
  equals `fill AND NOT (cloud OR shadow)`, which `Masks.ImageMasks` proves for every class;
- `ModisNbarImage` uses the generic constant masks;
- with `apply_mask` the code masks after adding the mask and score bands, although
  its comment says "mask before adding aux bands", so the added bands are masked too.

## Model

| member | source | states |
|---|---|---|
| `Variants.GdCollNameAsWritten` | geedim/image.py:83 | as the code declares it, the collection name is empty for the generic class and for `ModisNbarImage`, which declares none and inherits the base class's '' |
| `Variants.GdCollName` | geedim/image.py:83-86 | the collection name of each class: the as-written name for every class but MODIS, which gets its table key `modis_nbar`; the product name (`sentinel2_sr`/`sentinel2_toa`) for both Sentinel-2 classes; empty only for the generic class |
| `Variants.Qa60SharesName` | geedim/image.py:375-380 | the `QA60` class and the cloud-probability class of a Sentinel-2 product share its collection name (`sentinel2_sr` or `sentinel2_toa`), so they accept the same ids |
| `Variants.ImageClassFor` | geedim/image.py:539-543 | the class table has an entry for exactly the five collections |
| `Variants.ClassMapRoundTrip` | geedim/image.py:539-543 | the class found for a collection declares that collection, and each listed class is found under its own name |
| `Variants.ClassMapAsWrittenMismatch` | geedim/image.py:520-543 | as written, the `modis_nbar` entry leads to a class whose collection name is not `modis_nbar` |
| `Masks.AerosolLevel` | geedim/image.py:275-277 | the aerosol level is bits 6-7 (the value divided by 64), at most 3, and is 3 exactly when the byte is at least 0xC0 |
| `Masks.AerosolMask` | geedim/image.py:276-278 | high aerosol is masked exactly where `SR_QA_AEROSOL` is masked, and otherwise 1 exactly when bits 6 and 7 are both set (the byte is at least 0xC0) |
| `Masks.LandsatMasks` | geedim/image.py:245-284 | cloud iff bit 1, 2 or 3 (Landsat 8: or aerosol level 3); shadow iff bit 4; fill iff bit 0 clear; valid iff filled, no shadow, no cloud; a masked `QA_PIXEL` masks all four; the validity rule holds |
| `Masks.LandsatCloudScenario` | geedim/image.py:262-265 | `QA_PIXEL` 0x0006 gives cloud, fill, no shadow, not valid |
| `Masks.Landsat8WithinLandsat7` | geedim/image.py:272-279 | for the same pixel Landsat 8 cloud contains Landsat 7 cloud where the aerosol band has data, shadow and fill agree, and Landsat 8 validity implies Landsat 7 validity |
| `Masks.Sentinel2Qa60Masks` | geedim/image.py:367-371 | cloud iff `QA60` bit 10 or 11, shadow stays 0, fill stays 1, valid is NOT cloud |
| `Masks.ProbabilityCloud` | geedim/image.py:459-460 | cloud iff the probability is at least 36, masked iff the probability is masked |
| `Masks.ProbabilityThresholdIsStrict` | geedim/image.py:399 | probability 35 is not cloud, 36 is |
| `Masks.DarkMask` | geedim/image.py:477-478 | dark iff the SCL class is 2 or 3, masked iff SCL is masked |
| `Masks.ShadowAzimuth` | geedim/image.py:465 | the shadow azimuth plus 90 is the solar azimuth |
| `Masks.ShadowAzimuthNotWrapped` | geedim/image.py:465 | a solar azimuth below 90 gives a negative shadow azimuth (no modulo 360) |
| `Masks.ProjectionDistancePixels` | geedim/image.py:469 | the projection distance in pixels times the scale is 1000 m, and is positive |
| `Masks.Sentinel2ClPixelMasks` | geedim/image.py:474-487 | keeps the given cloud mask and fill 1, and the result obeys valid = fill AND NOT (cloud OR shadow) |
| `Masks.Sentinel2SrShadowWithinToa` | geedim/image.py:474-486 | TOA shadow is the projected mask; SR shadow is projected AND dark, so it lies within TOA shadow; cloud and fill agree; where the dark mask has data TOA validity implies SR validity |
| `Masks.CloudProbabilityMask` | geedim/image.py:459-460 | the s2cloudless cloud mask is the probability threshold applied at every pixel |
| `Masks.DarkShadowMask` | geedim/image.py:477 | the SCL dark mask is SCL 2 or 3 at every pixel |
| `Masks.Sentinel2ClMasks` | geedim/image.py:454-488 | one mask set per pixel, each obeying the validity rule; cloud is probability > 35 and fill is 1; shadow is the projected cloud mask (TOA), or that AND the opened SCL dark mask (SR) |
| `Masks.ImageMasks` | geedim/image.py:49 | for every class, one mask set per pixel, valid = fill AND NOT (cloud OR shadow), and a valid pixel is filled, cloud-free and shadow-free; each class gets its own decoder: constant masks for the generic and MODIS classes, the `QA_PIXEL` decode (with the aerosol test only for Landsat 8) for Landsat, the `QA60` decode for the `QA60` classes, the cloud-probability masks for the s2cloudless classes |
| `Masks.MasksOrDerived` | geedim/image.py:150-151 | the masks passed in are the masks used; when none are passed, the image's own masks |
| `Masks.GenericMasksConstant` | geedim/image.py:122-125 | generic and MODIS masks are cloud 0, shadow 0, fill 1, valid 1 at every pixel |
| `Masks.Sentinel2SrImageShadowWithinToa` | geedim/image.py:470-483 | over a whole image, SR shadow lies within TOA shadow at every pixel and the cloud masks agree |
| `Score.TruncateToInt` | geedim/image.py:148 | `toInt` truncates toward zero: the result lies within one of its argument, on the zero side |
| `Score.NeighbourhoodPixels` | geedim/image.py:146-148 | for a non-negative distance, the largest whole number of pixels whose extent does not exceed `cloud_dist` |
| `Score.DefaultNeighbourhood` | geedim/image.py:129-148 | the default 2000 m is 66 pixels at 30 m and 200 pixels at 10 m |
| `Score.PixelScore` | geedim/image.py:159 | the score is non-negative, 0 where fill is false or masked, and at a filled pixel it is the unmasked distance (0 where the distance is masked) |
| `Score.CloudShadowMask` | geedim/image.py:153 | a pixel of the combined mask has data exactly where both cloud and shadow have data; it is 1 only if cloud or shadow is 1, and where both have data it is 1 exactly then |
| `Score.OpenedCloudShadow` | geedim/image.py:153-154 | the opened mask is the opening of radius 1.5 pixels applied to the cloud-or-shadow mask at every pixel |
| `Score.ImageScore` | geedim/image.py:129-159 | one score per pixel, non-negative, 0 wherever the fill mask (given or derived) is false or masked, and at a filled pixel the unmasked distance to the opened cloud/shadow mask within the `cloud_dist` neighbourhood in whole pixels |
| `Process.UpdateMask` | geedim/image.py:187-188 | every sample of a pixel is kept if the validity mask is 1 and masked otherwise |
| `Process.ScoreOrDerived` | geedim/image.py:181-182 | the given score, or when none is given the score with the default 2000 m distance computed from the masks in use |
| `Process.ProcessPixel` | geedim/image.py:184-188 | one sample per band plus five; without `apply_mask` or at a valid pixel, the pixel's own samples then the four masks and the score; with it an invalid pixel is masked in every band |
| `Process.ProcessImage` | geedim/image.py:161-193 | the bands are the original bands, then `CLOUD_MASK`, `SHADOW_MASK`, `FILL_MASK`, `VALID_MASK`, `SCORE`; one sample per band at every pixel |
| `Process.ProcessedPixel` | geedim/image.py:184-188 | without `apply_mask` (or at a valid pixel) the original samples are unchanged, the mask bands hold the masks and `SCORE` holds the given or derived score; with it an invalid pixel is masked in every band |
| `Process.AppliedMaskHidesInvalid` | geedim/image.py:187-188 | with `apply_mask`, any band with data at a pixel means the pixel is valid and filled |
| `Process.RegionOrGeometry` | geedim/image.py:216-217 | the given region, or every pixel of the image when none is given |
| `Process.ValidInRegion` | geedim/image.py:219-222 | the valid pixels of the region lie within it, so there are no more of them than region pixels |
| `Process.ValidPortion` | geedim/image.py:215-223 | null for an empty region, else the `Percentage` of region pixels that are valid (100 times the mean of the unmasked validity mask); in [0, 100], and 100 exactly when every region pixel is valid |
| `Process.Percentage` | geedim/image.py:219-222 | 100 times the mean: in [0, 100], 100 iff all count, times the total is 100 times the count |
| `Process.SetImageValidPortion` | geedim/image.py:196-225 | sets `VALID_PORTION` to the valid portion and changes no other property, band or pixel |
| `Process.ValidWithinFill` | geedim/image.py:281 | no more pixels of a region are valid than filled |
| `Process.GenericPortionFull` | geedim/image.py:219-223 | generic and MODIS images have valid portion 100 over any non-empty region |
| `Process.PortionMonotone` | geedim/image.py:219-223 | masks valid at fewer pixels give a valid portion no larger |
| `Process.Landsat8PortionAtMostLandsat7` | geedim/image.py:272-281 | Landsat 8 masks give a valid portion no larger than Landsat 7 masks of the same pixels |
| `Process.Sentinel2ToaPortionAtMostSr` | geedim/image.py:474-486 | where the opened SCL mask has data, the TOA valid portion is no larger than the SR one |
| `Reflectance.RIndex` | geedim/image.py:306 | the last occurrence of the substring, or -1 when there is none |
| `Reflectance.IsReflectanceBand` | geedim/image.py:306 | a band is a reflectance band iff `SR_B` occurs at index 0 and nowhere later |
| `Reflectance.ReflectanceBandExamples` | geedim/image.py:305-307 | `SR_B4` is a reflectance band; `SR_QA_AEROSOL` and `SR_B1SR_B` are not |
| `Reflectance.ReflectanceBands` | geedim/image.py:305-310 | holds exactly the reflectance band names of the image |
| `Reflectance.RemoveAll` | geedim/image.py:311 | holds exactly the names not in the removed list |
| `Reflectance.OtherBands` | geedim/image.py:311 | holds exactly the band names that are not reflectance bands |
| `Reflectance.PartitionIsPermutation` | geedim/image.py:305-311 | the reflectance and other bands are order-preserving filters that together are a permutation of the band names |
| `Ids.Split` | geedim/image.py:547 | at least one piece, none containing the separator |
| `Ids.JoinSplit` | geedim/image.py:545-549 | joining the pieces of a split gives back the string |
| `Ids.EeSplit` | geedim/image.py:545-549 | the index has no '/'; for an id with '/', collection + '/' + index is the id; an id without '/' has an empty collection |
| `Ids.EeSplitOfJoined` | geedim/image.py:545-549 | collection + '/' + a '/'-free index splits back into that collection and index |
| `Ids.CloudProbabilityId` | geedim/image.py:432 | the s2cloudless id splits into `COPERNICUS/S2_CLOUD_PROBABILITY` and the image's own index |
| `Ids.FromId` | geedim/image.py:72-78 | accepted iff the id's collection maps to the class's collection; otherwise unsupported collection or wrong collection; cloud-probability classes (the `Sentinel2ClImage.from_id` override at lines 421-432, which repeats the check) also get the s2cloudless id |
| `Ids.FromIdAsWritten` | geedim/image.py:72-78 | as written, every class but MODIS checks ids as the corrected check does; the MODIS class accepts only collections that map to '' |
| `Ids.ModisFromIdAsWrittenRejects` | geedim/image.py:520-535 | as written, the MODIS class rejects every id whose collection maps to `modis_nbar`; named `modis_nbar` it accepts it |
| `Ids.ModisFromIdCounterexample` | geedim/image.py:72-78 | the concrete id `MODIS/006/MCD43A4/2022_01_01` is refused as written and accepted when corrected |
| `GeeImage.Image.constructor` | geedim/image.py:30-55 | the masks, the score (default 2000 m) and the processed image are set from the image; masks obey the validity rule and the score is 0 off fill |
| `GeeImage.Image.FromId` | geedim/image.py:58-81 | fails exactly when the id check fails, with its error; otherwise a fresh wrapper of the fetched image for that class, with its masks, default-distance score and processed image (masked when `mask` is set); the id check is the corrected one, so MODIS ids are accepted where the code as written refuses them (see Findings) |

## Findings

| source | as written | input that shows it | evidently intended | confidence | as-written member | corrected member |
|---|---|---|---|---|---|---|
| geedim/image.py:520-535 | `ModisNbarImage` declares no `_gd_coll_name`, so it inherits '' from `Image` (line 83), while `coll_to_im_cls_map` files it under `modis_nbar` (line 543); `from_id` compares the id's collection name with '' and raises an error (`ValueError`, or `KeyError` from the message lookup `gd_to_ee_map['']` at line 78) | id `MODIS/006/MCD43A4/2022_01_01` with a collection map sending `MODIS/006/MCD43A4` to `modis_nbar` | `_gd_coll_name = 'modis_nbar'`, like every other class in the table | medium, not executed (the real collection map is outside this file) | `Ids.FromIdAsWritten` (with `Variants.GdCollNameAsWritten`) | `Ids.FromId` (with `Variants.GdCollName`) |

## Left out

- Neighbourhood operators: `focal_min`/`focal_max`, `fastDistanceTransform` and `directionalDistanceTransform` are server-side library code. They are the uninterpreted functions of `Raster.EeOperators`.
- `reduceRegion`: the mean is taken over whole pixels of the image grid. Resampling to the coarsest band scale (`max_scale`) and partial pixel coverage are not modelled. A region is a subset of the image's pixels, so `unmask()` keeping the image footprint acts on every modelled pixel.
- `_scale_refl` and the `scale_refl` argument: the rescaling is floating-point `unitScale` arithmetic with band reordering and property copying. Only the reflectance band-name partition is modelled (`Reflectance`). The constructor takes no `scale_refl`.
- `_im_transform` (`toUint16`): `Image.__init__` resets it to the identity after the subclasses set it (line 47), and `ModisNbarImage` sets it only after processing (line 535). The processed image is therefore modelled untransformed.
- Collection metadata (`collection_info`, `band_df`, `_im_props`, `gd_to_ee_map` in the error message) comes from the `info` module and pandas, which are not part of this model. `from_id` errors carry the offending collection name instead of a message.
- `ee_collection`, for both the base class and the Sentinel-2 join with the s2cloudless collection: server-side collection building, not modelled.
- Fetching `ee.Image(image_id)` and attaching `s2cloudless` is the `catalog` parameter of `GeeImage.Image.FromId`. The cloud probability is a field of each pixel's quality bands. A missing `s2cloudless` property (an Earth Engine error) is not modelled.
- `Score.NeighbourhoodPixels`: the 32-bit range of `toInt` is not modelled, because integers are unbounded here. Floating-point division is exact real division.
- `Masks.Landsat8WithinLandsat7`: cloud containment is stated only where `SR_QA_AEROSOL` has data, because a masked aerosol pixel masks the Landsat 8 cloud mask.
- `Process.Sentinel2ToaPortionAtMostSr`: stated only where the opened SCL mask has data, because a masked SCL pixel masks the SR shadow and with it SR validity.
- `_cloud_filter` (60) is declared by the class but read by no code in the file, so the model has no counterpart. `_buffer` is used only as the opening radius.
- `geedim/cli.py` (command wiring) and `tests/test_cli.py` (network download tests) are not modelled.

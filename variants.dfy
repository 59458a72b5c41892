/**
 * The image classes of `geedim/image.py` as one tagged union, and the table
 * that maps a geedim collection name to its image class.
 */
module Variants {
  import opened Wrappers

  /** Sentinel-2 surface reflectance (`sentinel2_sr`) or top of atmosphere (`sentinel2_toa`). */
  datatype S2Product = Sr | Toa

  /**
   * One constructor per concrete image class:
   * `Image`, `Landsat7Image`, `Landsat8Image`, `Sentinel2SrImage`/`Sentinel2ToaImage`
   * (masks from `QA60`), `Sentinel2SrClImage`/`Sentinel2ToaClImage`
   * (masks from cloud probability) and `ModisNbarImage`.
   */
  datatype Variant =
    | Generic
    | Landsat7
    | Landsat8
    | Sentinel2Qa60(product: S2Product)
    | Sentinel2Cl(product: S2Product)
    | ModisNbar

  const Landsat7Name: string := "landsat7_c2_l2"
  const Landsat8Name: string := "landsat8_c2_l2"
  const Sentinel2SrName: string := "sentinel2_sr"
  const Sentinel2ToaName: string := "sentinel2_toa"
  const ModisNbarName: string := "modis_nbar"

  function ProductName(p: S2Product): string {
    match p
    case Sr => Sentinel2SrName
    case Toa => Sentinel2ToaName
  }

  /**
   * `_gd_coll_name` as the source declares it: the base class has '' and
   * `ModisNbarImage` declares none, so it inherits ''.
   */
  function GdCollNameAsWritten(v: Variant): (name: string)
    ensures name == "" <==> v == Generic || v == ModisNbar
  {
    match v
    case Generic => ""
    case Landsat7 => Landsat7Name
    case Landsat8 => Landsat8Name
    case Sentinel2Qa60(p) => ProductName(p)
    case Sentinel2Cl(p) => ProductName(p)
    case ModisNbar => ""
  }

  /** `_gd_coll_name` with `ModisNbarImage` named after its own table key. */
  function GdCollName(v: Variant): (name: string)
    ensures v != ModisNbar ==> name == GdCollNameAsWritten(v)
    ensures name == "" <==> v == Generic
    ensures v.Sentinel2Qa60? || v.Sentinel2Cl? ==> name == ProductName(v.product)
  {
    if v == ModisNbar then ModisNbarName else GdCollNameAsWritten(v)
  }

  /** `coll_to_im_cls_map`: the image class used for each geedim collection. */
  function ImageClassFor(gdCollName: string): (cls: Option<Variant>)
    ensures cls.Some? <==> gdCollName in {Landsat7Name, Landsat8Name, Sentinel2ToaName, Sentinel2SrName, ModisNbarName}
  {
    if gdCollName == Landsat7Name then Some(Landsat7)
    else if gdCollName == Landsat8Name then Some(Landsat8)
    else if gdCollName == Sentinel2ToaName then Some(Sentinel2Cl(Toa))
    else if gdCollName == Sentinel2SrName then Some(Sentinel2Cl(Sr))
    else if gdCollName == ModisNbarName then Some(ModisNbar)
    else None
  }

  /** The classes the table dispatches to. */
  predicate Registered(v: Variant) {
    v in {Landsat7, Landsat8, Sentinel2Cl(Toa), Sentinel2Cl(Sr), ModisNbar}
  }

  /**
   * The table and the classes agree: the class found for a name declares
   * that name, and every registered class is found under its own name.
   */
  lemma ClassMapRoundTrip(gdCollName: string, v: Variant)
    ensures ImageClassFor(gdCollName) == Some(v) ==> GdCollName(v) == gdCollName && Registered(v)
    ensures Registered(v) ==> ImageClassFor(GdCollName(v)) == Some(v)
  {
  }

  /** As written, the table's `modis_nbar` entry leads to a class whose name is ''. */
  /**
   * The `QA60` class and the cloud-probability class of a Sentinel-2 product
   * declare the same collection name, so they accept the same ids.
   */
  lemma Qa60SharesName(p: S2Product)
    ensures GdCollName(Sentinel2Qa60(p)) == GdCollName(Sentinel2Cl(p)) == ProductName(p)
    ensures GdCollName(Sentinel2Qa60(Sr)) == Sentinel2SrName && GdCollName(Sentinel2Qa60(Toa)) == Sentinel2ToaName
  {
  }

  lemma ClassMapAsWrittenMismatch()
    ensures ImageClassFor(ModisNbarName) == Some(ModisNbar)
    ensures GdCollNameAsWritten(ModisNbar) != ModisNbarName
  {
  }
}

/**
 * Earth Engine image ids (`ee_split`) and the collection checks of the two
 * `from_id` class methods.
 */
module Ids {
  import opened Wrappers
  import opened Variants

  const Slash: char := '/'

  /** Python's `s.split(sep)`: the pieces between separators, empty ones included. */
  function Split(s: string, sep: char): (parts: seq<string>)
    ensures |parts| >= 1
    ensures forall i :: 0 <= i < |parts| ==> sep !in parts[i]
    decreases |s|
  {
    if s == [] then [""]
    else
      var rest := Split(s[1..], sep);
      if s[0] == sep then [""] + rest
      else [[s[0]] + rest[0]] + rest[1..]
  }

  /** Python's `sep.join(parts)`. */
  function Join(parts: seq<string>, sep: char): string {
    if parts == [] then ""
    else if |parts| == 1 then parts[0]
    else parts[0] + [sep] + Join(parts[1..], sep)
  }

  /** Joining after a leading character is joining with that character in front. */
  lemma {:induction false} JoinConsChar(c: char, p: string, rest: seq<string>, sep: char)
    ensures Join([[c] + p] + rest, sep) == [c] + Join([p] + rest, sep)
  {
    assert ([[c] + p] + rest)[1..] == rest;
    assert ([p] + rest)[1..] == rest;
  }

  /** Joining the pieces of a split gives back the string. */
  lemma {:induction false} JoinSplit(s: string, sep: char)
    ensures Join(Split(s, sep), sep) == s
    decreases |s|
  {
    if s != [] {
      var rest := Split(s[1..], sep);
      JoinSplit(s[1..], sep);
      if s[0] == sep {
        assert ([""] + rest)[1..] == rest;
      } else {
        assert rest == [rest[0]] + rest[1..];
        JoinConsChar(s[0], rest[0], rest[1..], sep);
      }
      assert s == [s[0]] + s[1..];
    }
  }

  /** Splitting a string with a given first character. */
  lemma {:induction false} SplitCons(c: char, s: string, sep: char)
    ensures Split([c] + s, sep) ==
      if c == sep then [""] + Split(s, sep)
      else [[c] + Split(s, sep)[0]] + Split(s, sep)[1..]
  {
    assert ([c] + s)[0] == c;
    assert ([c] + s)[1..] == s;
  }

  /** One step of `SplitAround`: a leading character that is not the separator joins the first piece on both sides. */
  lemma {:induction false} SplitAroundStep(c: char, a: string, t: string, tail: seq<string>, sep: char)
    requires c != sep
    requires Split(t, sep) == Split(a, sep) + tail
    ensures Split([c] + t, sep) == Split([c] + a, sep) + tail
  {
    SplitCons(c, t, sep);
    SplitCons(c, a, sep);
    var sa := Split(a, sep);
    assert (sa + tail)[1..] == sa[1..] + tail;
  }

  /** A split across one separator is the two splits side by side. */
  lemma {:induction false} SplitAround(a: string, b: string, sep: char)
    ensures Split(a + [sep] + b, sep) == Split(a, sep) + Split(b, sep)
    decreases |a|
  {
    if a == [] {
      assert a + [sep] + b == [sep] + b;
      SplitCons(sep, b, sep);
    } else {
      SplitAround(a[1..], b, sep);
      SplitAroundCons(a[0], a[1..], b, sep);
      assert [a[0]] + a[1..] == a;
    }
  }

  /** `SplitAround` for a string with one more leading character. */
  lemma {:induction false} SplitAroundCons(c: char, a: string, b: string, sep: char)
    requires Split(a + [sep] + b, sep) == Split(a, sep) + Split(b, sep)
    ensures Split([c] + a + [sep] + b, sep) == Split([c] + a, sep) + Split(b, sep)
  {
    var t := a + [sep] + b;
    assert [c] + a + [sep] + b == [c] + t;
    if c == sep {
      SplitAroundSepStep(a, t, Split(b, sep), sep);
    } else {
      SplitAroundStep(c, a, t, Split(b, sep), sep);
    }
  }

  /** One step of `SplitAround`: a leading separator adds an empty first piece on both sides. */
  lemma {:induction false} SplitAroundSepStep(a: string, t: string, tail: seq<string>, sep: char)
    requires Split(t, sep) == Split(a, sep) + tail
    ensures Split([sep] + t, sep) == Split([sep] + a, sep) + tail
  {
    SplitCons(sep, t, sep);
    SplitCons(sep, a, sep);
  }

  /** A string without separators splits into itself. */
  lemma {:induction false} SplitNoSeparator(s: string, sep: char)
    requires sep !in s
    ensures Split(s, sep) == [s]
    decreases |s|
  {
    if s != [] {
      SplitNoSeparator(s[1..], sep);
      assert s == [s[0]] + s[1..];
    }
  }

  /** Joining all but the last piece, then the last one, is joining them all. */
  lemma {:induction false} JoinSnoc(parts: seq<string>, sep: char)
    requires |parts| >= 2
    ensures Join(parts, sep) == Join(parts[..|parts| - 1], sep) + [sep] + parts[|parts| - 1]
    decreases |parts|
  {
    if |parts| > 2 {
      JoinSnoc(parts[1..], sep);
      assert parts[1..][..|parts| - 2] == parts[..|parts| - 1][1..];
    }
  }

  /**
   * `ee_split(image_id)`: the text before the last '/' (the collection) and
   * the text after it (the index), through `split('/')` and `'/'.join(...)`.
   * The index has no '/', and collection, '/', index is the id; an id
   * without '/' is all index.
   */
  function EeSplit(imageId: string): (r: (string, string))
    ensures Slash !in r.1
    ensures Slash in imageId ==> r.0 + [Slash] + r.1 == imageId
    ensures Slash !in imageId ==> r == ("", imageId)
  {
    var parts := Split(imageId, Slash);
    JoinSplit(imageId, Slash);
    if Slash in imageId then
      JoinSnoc(parts, Slash);
      (Join(parts[..|parts| - 1], Slash), parts[|parts| - 1])
    else
      SplitNoSeparator(imageId, Slash);
      (Join(parts[..|parts| - 1], Slash), parts[|parts| - 1])
  }

  /** Conversely, an id built from a collection and a '/'-free index splits into exactly those. */
  lemma EeSplitOfJoined(coll: string, index: string)
    requires Slash !in index
    ensures EeSplit(coll + [Slash] + index) == (coll, index)
  {
    SplitAround(coll, index, Slash);
    SplitNoSeparator(index, Slash);
    var parts := Split(coll + [Slash] + index, Slash);
    assert parts[..|parts| - 1] == Split(coll, Slash);
    JoinSplit(coll, Slash);
  }

  /** The collection of the s2cloudless cloud probability images. */
  const CloudProbabilityCollection: string := "COPERNICUS/S2_CLOUD_PROBABILITY"

  /**
   * `f'COPERNICUS/S2_CLOUD_PROBABILITY/{ee_split(image_id)[1]}'`: the cloud
   * probability image has the same index as the image, in its own collection.
   */
  function CloudProbabilityId(imageId: string): (id: string)
    ensures EeSplit(id) == (CloudProbabilityCollection, EeSplit(imageId).1)
  {
    EeSplitOfJoined(CloudProbabilityCollection, EeSplit(imageId).1);
    CloudProbabilityCollection + [Slash] + EeSplit(imageId).1
  }

  /** The `ValueError`s `from_id` raises. */
  datatype IdError =
    | UnsupportedCollection(eeCollName: string)
    | WrongCollection(gdCollName: string)

  /** What `from_id` fetches: the image, and for cloud-probability classes its s2cloudless image. */
  datatype ImageSource = ImageSource(imageId: string, cloudProbabilityId: Option<string>)

  /**
   * The body of `from_id` for a class whose `_gd_coll_name` is `clsName`;
   * `withCloudProbability` selects the `Sentinel2ClImage` override.
   */
  function FromIdFor(clsName: string, withCloudProbability: bool, imageId: string, eeToGd: map<string, string>)
    : (r: Result<ImageSource, IdError>)
  {
    var eeCollName := EeSplit(imageId).0;
    if eeCollName !in eeToGd then Failure(UnsupportedCollection(eeCollName))
    else if eeToGd[eeCollName] != clsName then Failure(WrongCollection(eeToGd[eeCollName]))
    else Success(ImageSource(imageId, if withCloudProbability then Some(CloudProbabilityId(imageId)) else None))
  }

  /**
   * `cls.from_id(image_id)`, with `info.ee_to_gd_map` as `eeToGd`: accepted
   * exactly when the id's collection maps to the class's own collection; an
   * unknown collection and a foreign one are the two errors.
   */
  function FromId(cls: Variant, imageId: string, eeToGd: map<string, string>): (r: Result<ImageSource, IdError>)
    ensures var coll := EeSplit(imageId).0;
      && (r.Success? <==> coll in eeToGd && eeToGd[coll] == GdCollName(cls))
      && (coll !in eeToGd ==> r == Failure(UnsupportedCollection(coll)))
      && (coll in eeToGd && eeToGd[coll] != GdCollName(cls) ==> r == Failure(WrongCollection(eeToGd[coll])))
    ensures r.Success? ==> r.value.imageId == imageId
    ensures r.Success? ==> (r.value.cloudProbabilityId.Some? <==> cls.Sentinel2Cl?)
    ensures r.Success? && cls.Sentinel2Cl? ==>
      EeSplit(r.value.cloudProbabilityId.value) == (CloudProbabilityCollection, EeSplit(imageId).1)
  {
    FromIdFor(GdCollName(cls), cls.Sentinel2Cl?, imageId, eeToGd)
  }

  /** `from_id` as written, where `ModisNbarImage` keeps the base class's empty collection name. */
  function FromIdAsWritten(cls: Variant, imageId: string, eeToGd: map<string, string>): (r: Result<ImageSource, IdError>)
    ensures cls != ModisNbar ==> r == FromId(cls, imageId, eeToGd)
    ensures cls == ModisNbar ==>
      var coll := EeSplit(imageId).0;
      r.Success? <==> coll in eeToGd && eeToGd[coll] == ""
  {
    FromIdFor(GdCollNameAsWritten(cls), cls.Sentinel2Cl?, imageId, eeToGd)
  }

  /**
   * As written, `ModisNbarImage.from_id` rejects every MODIS id the
   * collection map accepts; with the class named `modis_nbar` it accepts it.
   */
  lemma ModisFromIdAsWrittenRejects(imageId: string, eeToGd: map<string, string>)
    requires EeSplit(imageId).0 in eeToGd && eeToGd[EeSplit(imageId).0] == ModisNbarName
    ensures FromIdAsWritten(ModisNbar, imageId, eeToGd) == Failure(WrongCollection(ModisNbarName))
    ensures FromId(ModisNbar, imageId, eeToGd) == Success(ImageSource(imageId, None))
  {
  }

  /** A concrete MODIS id that the as-written class refuses. */
  lemma ModisFromIdCounterexample()
    ensures var id := "MODIS/006/MCD43A4/2022_01_01";
      var eeToGd := map["MODIS/006/MCD43A4" := ModisNbarName];
      FromIdAsWritten(ModisNbar, id, eeToGd).Failure? && FromId(ModisNbar, id, eeToGd).Success?
  {
    var coll, index := "MODIS/006/MCD43A4", "2022_01_01";
    var id := coll + [Slash] + index;
    assert id == "MODIS/006/MCD43A4/2022_01_01";
    assert Slash !in index;
    EeSplitOfJoined(coll, index);
    ModisFromIdAsWrittenRejects(id, map[coll := ModisNbarName]);
  }
}

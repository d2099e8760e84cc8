/**
 * The two helpers of `components/GalleryLive.tsx`: default display sizes for
 * photos whose dimensions are unknown, and the Cloudinary thumbnail URL that
 * adds a resize transform after the `/upload/` segment.
 */
module Gallery {
  import opened Wrappers
  import opened Strings

  const FallbackWidth: real := 1200.0
  const FallbackHeight: real := 900.0
  const DefaultThumbWidth: nat := 800
  const UploadSegment: string := "/upload/"

  /** `fallbackWH(w, h)`: a stored dimension is used only when it is positive. */
  function FallbackWH(w: Option<real>, h: Option<real>): (r: (real, real))
    ensures r.0 > 0.0 && r.1 > 0.0
    ensures w.Some? && w.value > 0.0 ==> r.0 == w.value
    ensures !(w.Some? && w.value > 0.0) ==> r.0 == FallbackWidth
    ensures h.Some? && h.value > 0.0 ==> r.1 == h.value
    ensures !(h.Some? && h.value > 0.0) ==> r.1 == FallbackHeight
  {
    (if w.Some? && w.value > 0.0 then w.value else FallbackWidth,
     if h.Some? && h.value > 0.0 then h.value else FallbackHeight)
  }

  /** The transform `thumb` inserts: fill-crop, automatic quality and format, `width` pixels wide. */
  function Transform(width: nat): string {
    "c_fill,q_auto,f_auto,w_" + NatToString(width) + "/"
  }

  /** `url` contains `/upload/` exactly once, as `split('/upload/')` counts. */
  predicate UploadOnce(url: string) {
    |Split(url, UploadSegment)| == 2
  }

  /** `thumb(url, width)` */
  function Thumb(url: string, width: nat): (r: string)
    ensures !UploadOnce(url) ==> r == url
  {
    var parts := Split(url, UploadSegment);
    if |parts| != 2 then url
    else parts[0] + UploadSegment + Transform(width) + parts[1]
  }

  /** `split` finds exactly one `/upload/` when the first has no successor after it. */
  lemma {:induction false} UploadOnceIff(url: string)
    ensures UploadOnce(url) <==>
      FindFrom(url, UploadSegment, 0).Some?
        && FindFrom(url[FindFrom(url, UploadSegment, 0).value + |UploadSegment|..], UploadSegment, 0).None?
  {
    var k := FindFrom(url, UploadSegment, 0);
    if k.Some? {
      var rest := url[k.value + |UploadSegment|..];
      SplitFound(url, UploadSegment, k.value);
      var j := FindFrom(rest, UploadSegment, 0);
      if j.Some? {
        SplitFound(rest, UploadSegment, j.value);
      } else {
        SplitNotFound(rest, UploadSegment);
      }
    } else {
      SplitNotFound(url, UploadSegment);
    }
  }

  /**
   * With one `/upload/`, the transform sits right after it, and cutting it
   * out again gives back the original URL.
   */
  lemma {:induction false} ThumbInsertsAfterUpload(url: string, width: nat)
    requires UploadOnce(url)
    ensures var k := FindFrom(url, UploadSegment, 0).value + |UploadSegment|;
      && k + |Transform(width)| <= |Thumb(url, width)|
      && Thumb(url, width)[..k] == url[..k]
      && Thumb(url, width)[k..k + |Transform(width)|] == Transform(width)
      && Thumb(url, width)[..k] + Thumb(url, width)[k + |Transform(width)|..] == url
  {
    UploadOnceIff(url);
    var i := FindFrom(url, UploadSegment, 0).value;
    var rest := url[i + |UploadSegment|..];
    SplitFound(url, UploadSegment, i);
    SplitNotFound(rest, UploadSegment);
    assert url[i..i + |UploadSegment|] == UploadSegment;
    Slices3(url, i, i + |UploadSegment|);
    InsertSlices(url[..i], UploadSegment, Transform(width), rest);
  }

  /** Slicing `a + seg + ins + rest` around the inserted `ins`. */
  lemma InsertSlices(a: string, seg: string, ins: string, rest: string)
    ensures var t, k := a + seg + ins + rest, |a| + |seg|;
      && k + |ins| <= |t|
      && t[..k] == a + seg
      && t[k..k + |ins|] == ins
      && t[..k] + t[k + |ins|..] == a + seg + rest
  {
    var t, k := a + seg + ins + rest, |a| + |seg|;
    assert t[..k] == a + seg;
    assert t[k + |ins|..] == rest;
  }
}

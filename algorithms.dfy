/** The argument checks the raster algorithms run before they hand work to
    GDAL: the region of `checksumImage`, the `connectedness` option of
    `sieveFilter` and `polygonize`, and the set of Dataset uids each
    operation asks the object store to lock while it runs. */
module Algorithms {
  import opened Outcomes
  import Locking

  /** How the binding reports a rejected argument to JavaScript. */
  datatype ErrorKind = RangeError | PlainError

  /** The outcome of an argument check: the checked value, or the exception
      thrown before any work is scheduled. */
  datatype Checked<+T> = Accepted(value: T) | Thrown(kind: ErrorKind, message: string)

  /** The pixel window handed to `GDALChecksumImage`. */
  datatype Region = Region(x: int, y: int, w: int, h: int)

  const OffsetInvalid := "offset invalid for given band"
  const SizeInvalid := "x and y size must be smaller than band dimensions and greater than 0"
  const OutsideBand := "given range is outside bounds of given band"

  /** A window that lies inside a `bandw` by `bandh` band. */
  predicate InsideBand(r: Region, bandw: int, bandh: int) {
    0 <= r.x && 0 <= r.y && 0 <= r.w && 0 <= r.h && r.x + r.w <= bandw && r.y + r.h <= bandh
  }

  /** The region `checksumImage` checksums: an absent offset is 0 and an
      absent size is the band's size; then three range checks run in order,
      each with its own message. Arithmetic is on mathematical integers. */
  function ChecksumRegion(bandw: int, bandh: int, x: Option<int>, y: Option<int>,
                          w: Option<int>, h: Option<int>): (r: Checked<Region>)
    ensures r.Accepted? ==> InsideBand(r.value, bandw, bandh) && r.value.x < bandw && r.value.y < bandh
    ensures r.Thrown? ==> r.kind == RangeError
  {
    var x := if x.Some? then x.value else 0;
    var y := if y.Some? then y.value else 0;
    var w := if w.Some? then w.value else bandw;
    var h := if h.Some? then h.value else bandh;
    if x < 0 || y < 0 || x >= bandw || y >= bandh then Thrown(RangeError, OffsetInvalid)
    else if w < 0 || h < 0 || w > bandw || h > bandh then Thrown(RangeError, SizeInvalid)
    else if x + w - 1 >= bandw || y + h - 1 >= bandh then Thrown(RangeError, OutsideBand)
    else Accepted(Region(x, y, w, h))
  }

  /** With no optional argument the whole band is checksummed, provided the
      band has at least one pixel; an empty band is rejected as a bad offset. */
  lemma ChecksumDefaults(bandw: int, bandh: int)
    ensures bandw > 0 && bandh > 0 ==>
              ChecksumRegion(bandw, bandh, None, None, None, None) == Accepted(Region(0, 0, bandw, bandh))
    ensures bandw <= 0 || bandh <= 0 ==>
              ChecksumRegion(bandw, bandh, None, None, None, None) == Thrown(RangeError, OffsetInvalid)
  {
  }

  /** A window given in full is accepted exactly when its offset is a pixel
      of the band and it lies inside the band; it is then used unchanged. */
  lemma ChecksumAcceptedIff(bandw: int, bandh: int, x: int, y: int, w: int, h: int)
    ensures ChecksumRegion(bandw, bandh, Some(x), Some(y), Some(w), Some(h)).Accepted? <==>
              InsideBand(Region(x, y, w, h), bandw, bandh) && x < bandw && y < bandh
    ensures ChecksumRegion(bandw, bandh, Some(x), Some(y), Some(w), Some(h)).Accepted? ==>
              ChecksumRegion(bandw, bandh, Some(x), Some(y), Some(w), Some(h)).value == Region(x, y, w, h)
  {
  }

  /** Which of the three messages a rejected window gets: the first check
      that fails decides. */
  lemma ChecksumErrorOrder(bandw: int, bandh: int, x: int, y: int, w: int, h: int)
    ensures var r := ChecksumRegion(bandw, bandh, Some(x), Some(y), Some(w), Some(h));
            (r == Thrown(RangeError, OffsetInvalid) <==> x < 0 || y < 0 || x >= bandw || y >= bandh) &&
            (r == Thrown(RangeError, SizeInvalid) <==>
               0 <= x < bandw && 0 <= y < bandh && (w < 0 || h < 0 || w > bandw || h > bandh)) &&
            (r == Thrown(RangeError, OutsideBand) <==>
               0 <= x < bandw && 0 <= y < bandh && 0 <= w <= bandw && 0 <= h <= bandh &&
               (x + w > bandw || y + h > bandh))
  {
  }

  /** A window of width or height 0 passes the size check although its
      message asks for a size greater than 0. */
  lemma ChecksumAcceptsEmptyWindow(bandw: int, bandh: int, x: int, y: int)
    requires 0 <= x < bandw && 0 <= y < bandh
    ensures ChecksumRegion(bandw, bandh, Some(x), Some(y), Some(0), Some(0)) == Accepted(Region(x, y, 0, 0))
  {
  }

  const INT32_MIN := -0x8000_0000
  const INT32_MAX := 0x7fff_ffff

  predicate IsInt32(v: int) { INT32_MIN <= v <= INT32_MAX }

  /** Two's-complement wrap-around of a C `int`. */
  function Wrap32(v: int): (r: int)
    ensures IsInt32(r)
    ensures IsInt32(v) ==> r == v
    ensures (r - v) % 0x1_0000_0000 == 0
  {
    (v - INT32_MIN) % 0x1_0000_0000 + INT32_MIN
  }

  /** The region check as compiled for 32-bit `int`s, where `x + w - 1`
      wraps around once it passes the largest `int`. */
  function ChecksumRegionInt32(bandw: int, bandh: int, x: Option<int>, y: Option<int>,
                               w: Option<int>, h: Option<int>): (r: Checked<Region>)
    ensures r.Thrown? ==> r.kind == RangeError
    ensures r.Accepted? ==> 0 <= r.value.x < bandw && 0 <= r.value.y < bandh &&
                            0 <= r.value.w <= bandw && 0 <= r.value.h <= bandh
  {
    var x := if x.Some? then x.value else 0;
    var y := if y.Some? then y.value else 0;
    var w := if w.Some? then w.value else bandw;
    var h := if h.Some? then h.value else bandh;
    if x < 0 || y < 0 || x >= bandw || y >= bandh then Thrown(RangeError, OffsetInvalid)
    else if w < 0 || h < 0 || w > bandw || h > bandh then Thrown(RangeError, SizeInvalid)
    else if Wrap32(Wrap32(x + w) - 1) >= bandw || Wrap32(Wrap32(y + h) - 1) >= bandh then Thrown(RangeError, OutsideBand)
    else Accepted(Region(x, y, w, h))
  }

  /** On a band of the largest `int` width, the 32-bit check accepts a
      window that reaches past the band's right edge. */
  lemma ChecksumInt32Overflow()
    ensures var r := ChecksumRegionInt32(INT32_MAX, 1, Some(2), Some(0), Some(INT32_MAX), Some(1));
            r == Accepted(Region(2, 0, INT32_MAX, 1)) && !InsideBand(r.value, INT32_MAX, 1)
    ensures ChecksumRegion(INT32_MAX, 1, Some(2), Some(0), Some(INT32_MAX), Some(1)) == Thrown(RangeError, OutsideBand)
  {
    assert Wrap32(2 + INT32_MAX) == INT32_MIN + 1;
    assert Wrap32(INT32_MIN + 1 - 1) == INT32_MIN;
    assert Wrap32(0 + 1) == 1 && Wrap32(1 - 1) == 0;
  }

  /** Below 2^30 pixels a side nothing wraps, and the two checks agree. */
  lemma ChecksumInt32AgreesOnSmallBands(bandw: int, bandh: int, x: Option<int>, y: Option<int>,
                                        w: Option<int>, h: Option<int>)
    requires 0 <= bandw <= 0x4000_0000 && 0 <= bandh <= 0x4000_0000
    ensures ChecksumRegionInt32(bandw, bandh, x, y, w, h) == ChecksumRegion(bandw, bandh, x, y, w, h)
  {
  }

  const SieveConnectednessError := "connectedness option must be 4 or 8"
  const PolygonizeConnectednessError := "connectedness must be 4 or 8"

  /** The `connectedness` option of `sieveFilter`: 4 when absent, and only
      4 or 8 are accepted. */
  function SieveConnectedness(connectedness: Option<int>): (r: Checked<int>)
    ensures r.Accepted? ==> r.value == 4 || r.value == 8
    ensures r.Thrown? ==> r.kind == PlainError && r.message == SieveConnectednessError
  {
    var c := if connectedness.Some? then connectedness.value else 4;
    if c != 4 && c != 8 then Thrown(PlainError, SieveConnectednessError) else Accepted(c)
  }

  /** Sieving passes on the option it was given, and rejects exactly the
      values other than 4 and 8. */
  lemma SieveConnectednessIff(connectedness: Option<int>)
    ensures connectedness.None? ==> SieveConnectedness(connectedness) == Accepted(4)
    ensures connectedness.Some? ==>
              (SieveConnectedness(connectedness).Accepted? <==> connectedness.value in {4, 8})
    ensures SieveConnectedness(connectedness).Accepted? && connectedness.Some? ==>
              SieveConnectedness(connectedness).value == connectedness.value
  {
  }

  /** The name=value options `polygonize` hands to GDAL for its
      `connectedness` option: `8CONNECTED=8` for 8, none for 4 (also the
      default), and an error for any other value. */
  function PolygonizeOptions(connectedness: Option<int>): (r: Checked<seq<string>>)
    ensures r.Accepted? ==> |r.value| <= 1
    ensures r.Thrown? ==> r.kind == PlainError && r.message == PolygonizeConnectednessError
  {
    var c := if connectedness.Some? then connectedness.value else 4;
    if c == 8 then Accepted(["8CONNECTED=8"])
    else if c != 4 then Thrown(PlainError, PolygonizeConnectednessError)
    else Accepted([])
  }

  /** Polygonizing and sieving accept the same values, and the option list
      asks for 8-connectedness exactly when 8 was given. */
  lemma PolygonizeOptionsIff(connectedness: Option<int>)
    ensures PolygonizeOptions(connectedness).Accepted? <==> SieveConnectedness(connectedness).Accepted?
    ensures PolygonizeOptions(connectedness).Accepted? ==>
              (PolygonizeOptions(connectedness).value == ["8CONNECTED=8"] <==> connectedness == Some(8)) &&
              (PolygonizeOptions(connectedness).value == [] <==> connectedness != Some(8))
  {
  }

  /** The uid an optional mask band contributes to a lock set: the uid of
      the Dataset that owns it, or 0 ("no lock") for an absent mask. */
  function MaskUid(maskParent: Option<int>): (u: int)
    ensures maskParent.None? ==> u == 0
    ensures maskParent.Some? ==> u == maskParent.value
  {
    if maskParent.Some? then maskParent.value else 0
  }

  /** `fillNodata` locks the source band's Dataset and the mask's. */
  function FillNodataLocks(src: int, maskParent: Option<int>): (r: seq<int>)
    ensures |r| == 2 && r[0] == src && r[1] == MaskUid(maskParent)
  {
    [src, MaskUid(maskParent)]
  }

  /** `contourGenerate` locks the source band's Dataset and the target
      layer's. */
  function ContourLocks(src: int, dst: int): (r: seq<int>)
    ensures |r| == 2 && r[0] == src && r[1] == dst
  {
    [src, dst]
  }

  /** `sieveFilter` and both `polygonize` variants lock the source, the
      target and the mask owner's Datasets. */
  function SourceTargetMaskLocks(src: int, dst: int, maskParent: Option<int>): (r: seq<int>)
    ensures |r| == 3 && r[0] == src && r[1] == dst && r[2] == MaskUid(maskParent)
  {
    [src, dst, MaskUid(maskParent)]
  }

  /** An absent mask adds nothing to what is locked: for the uids the store
      hands out, the normalised lock set is that of the operation without
      the mask. */
  lemma AbsentMaskNotLocked(src: int, dst: int)
    requires src >= 1 && dst >= 1
    ensures Locking.Normalize(FillNodataLocks(src, None)) == [src]
    ensures Locking.Normalize(SourceTargetMaskLocks(src, dst, None)) == Locking.Normalize(ContourLocks(src, dst))
    ensures 0 !in Locking.Normalize(SourceTargetMaskLocks(src, dst, None))
  {
    Locking.NormalizeDropsZero(FillNodataLocks(src, None));
    var f := Locking.Normalize(FillNodataLocks(src, None));
    Locking.IncreasingUnique(f, [src]);
    Locking.NormalizeDropsZero(SourceTargetMaskLocks(src, dst, None));
    Locking.NormalizeDropsZero(ContourLocks(src, dst));
    Locking.IncreasingUnique(Locking.Normalize(SourceTargetMaskLocks(src, dst, None)),
                             Locking.Normalize(ContourLocks(src, dst)));
  }

  /** A mask band of the source's own Dataset (the usual case) adds no
      second lock either. */
  lemma SameDatasetLockedOnce(src: int, dst: int)
    requires src >= 1 && dst >= 1
    ensures Locking.Normalize(SourceTargetMaskLocks(src, dst, Some(src))) == Locking.Normalize(ContourLocks(src, dst))
  {
    Locking.NormalizeOrderIndependent(SourceTargetMaskLocks(src, dst, Some(src)), ContourLocks(src, dst));
  }
}

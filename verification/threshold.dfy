/**
 Per-channel thresholding and the composite mask (ir-mouse.py:105-110).
 A mask pixel is 255 when the channel value lies in the inclusive range and 0
 otherwise, as OpenCV's `inRange` produces; the composite is the bitwise AND
 of the value and hue masks. The saturation mask is computed and not used.
 */
module Threshold {

  /** One channel of an image, row by row. */
  type Channel = seq<seq<int>>

  /** A binary mask, row by row, as 8-bit pixels. */
  type Mask = seq<seq<bv8>>

  const Set: bv8 := 255
  const Clear: bv8 := 0

  /** Two grids have the same number of rows and the same row lengths. */
  predicate SameShape<A, B>(a: seq<seq<A>>, b: seq<seq<B>>) {
    |a| == |b| && forall i :: 0 <= i < |a| ==> |a[i]| == |b[i]|
  }

  /** Every pixel of a mask is either set or clear. */
  predicate Binary(m: Mask) {
    forall i, j :: 0 <= i < |m| && 0 <= j < |m[i]| ==> m[i][j] == Set || m[i][j] == Clear
  }

  predicate AllClear(m: Mask) {
    forall i, j :: 0 <= i < |m| && 0 <= j < |m[i]| ==> m[i][j] == Clear
  }

  /** The three channels of the converted frame, and the six slider bounds. */
  datatype HsvImage = HsvImage(hue: Channel, sat: Channel, val: Channel)

  datatype Bounds = Bounds(hmin: int, hmax: int, smin: int, smax: int, vmin: int, vmax: int)

  /** The three split channels of one frame always share a shape. */
  predicate WellShaped(img: HsvImage) {
    SameShape(img.hue, img.sat) && SameShape(img.hue, img.val)
  }

  /** The masks of one frame: one per channel, and their composite. */
  datatype Masks = Masks(hue: Mask, sat: Mask, val: Mask, composite: Mask)

  function InRangePixel(v: int, lo: int, hi: int): bv8 {
    if lo <= v <= hi then Set else Clear
  }

  /** `inRange` on one channel with scalar inclusive bounds. */
  function InRange(c: Channel, lo: int, hi: int): (m: Mask)
    ensures SameShape(m, c) && Binary(m)
    ensures forall i, j :: 0 <= i < |m| && 0 <= j < |m[i]| ==> (m[i][j] == Set <==> lo <= c[i][j] <= hi)
  {
    seq(|c|, i requires 0 <= i < |c| =>
      seq(|c[i]|, j requires 0 <= j < |c[i]| => InRangePixel(c[i][j], lo, hi)))
  }

  /** `bitwise_and` of two masks of the same shape. */
  function BitwiseAnd(a: Mask, b: Mask): (m: Mask)
    requires SameShape(a, b)
    ensures SameShape(m, a)
    ensures Binary(a) && Binary(b) ==> Binary(m)
    ensures Binary(a) && Binary(b) ==>
      forall i, j :: 0 <= i < |m| && 0 <= j < |m[i]| ==> (m[i][j] == Set <==> a[i][j] == Set && b[i][j] == Set)
  {
    seq(|a|, i requires 0 <= i < |a| =>
      seq(|a[i]|, j requires 0 <= j < |a[i]| => a[i][j] & b[i][j]))
  }

  /** Thresholding one frame: three masks, and the AND of value and hue. */
  function Segment(img: HsvImage, b: Bounds): (r: Masks)
    requires WellShaped(img)
    ensures SameShape(r.composite, img.hue) && Binary(r.composite)
    ensures forall i, j :: 0 <= i < |r.composite| && 0 <= j < |r.composite[i]| ==>
      (r.composite[i][j] == Set <==>
         b.vmin <= img.val[i][j] <= b.vmax && b.hmin <= img.hue[i][j] <= b.hmax)
  {
    var hthresh := InRange(img.hue, b.hmin, b.hmax);
    var sthresh := InRange(img.sat, b.smin, b.smax);
    var vthresh := InRange(img.val, b.vmin, b.vmax);
    Masks(hthresh, sthresh, vthresh, BitwiseAnd(vthresh, hthresh))
  }

  /** The composite does not depend on the saturation channel or its bounds. */
  lemma SaturationIgnored(img: HsvImage, b: Bounds, sat: Channel, smin: int, smax: int)
    requires WellShaped(img) && SameShape(img.hue, sat)
    ensures Segment(img.(sat := sat), b.(smin := smin, smax := smax)).composite
         == Segment(img, b).composite
  {
  }

  /** Widening a range never clears a pixel it had set. */
  lemma WideningKeepsPixels(c: Channel, lo: int, hi: int, lo': int, hi': int)
    requires lo' <= lo && hi <= hi'
    ensures forall i, j :: 0 <= i < |c| && 0 <= j < |c[i]| && InRange(c, lo, hi)[i][j] == Set ==>
      InRange(c, lo', hi')[i][j] == Set
  {
  }

  /** An inverted range is not an error: it simply selects nothing. */
  lemma InvertedRangeEmpty(c: Channel, lo: int, hi: int)
    requires hi < lo
    ensures AllClear(InRange(c, lo, hi))
  {
  }

  /** ANDing an all-clear mask with anything of its shape gives an all-clear mask. */
  lemma ClearAbsorbs(a: Mask, b: Mask)
    requires SameShape(a, b) && AllClear(a)
    ensures AllClear(BitwiseAnd(a, b)) && AllClear(BitwiseAnd(b, a))
  {
  }
}

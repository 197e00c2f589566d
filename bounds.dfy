/**
 * The canvas of the panorama: the smallest axis-aligned rectangle that
 * holds image 2 and the four corners of image 1 carried over by H.
 */
module Bounds {
  import opened Linear

  /** The rectangle with corners (x0, y0) and (x1, y1). */
  datatype Box = Box(x0: real, y0: real, x1: real, y1: real)

  predicate Contains(b: Box, x: real, y: real) {
    b.x0 <= x <= b.x1 && b.y0 <= y <= b.y1
  }

  /** Every edge of `inner` lies within `outer`. */
  predicate Encloses(outer: Box, inner: Box) {
    outer.x0 <= inner.x0 && inner.x1 <= outer.x1 && outer.y0 <= inner.y0 && inner.y1 <= outer.y1
  }

  /**
   * growTo: each corner coordinate moves only outwards, and only as far as
   * (x, y). The result holds the point and the old rectangle, is the old
   * rectangle when that already held the point, and lies inside every
   * rectangle holding both.
   */
  method GrowTo(b: Box, x: real, y: real) returns (g: Box)
    ensures Encloses(g, b) && Contains(g, x, y)
    ensures Contains(b, x, y) ==> g == b
    ensures forall c :: Encloses(c, b) && Contains(c, x, y) ==> Encloses(c, g)
  {
    var x0, y0, x1, y1 := b.x0, b.y0, b.x1, b.y1;
    if x < x0 { x0 := x; }
    if x > x1 { x1 := x; }
    if y < y0 { y0 := y; }
    if y > y1 { y1 := y; }
    g := Box(x0, y0, x1, y1);
  }

  /** The k-th corner of a w × h image, in the order (0, 0), (w, 0), (w, h), (0, h). */
  function Corner(w: nat, h: nat, k: nat): Vec3
    requires k < 4
  {
    if k == 0 then Homog(0.0, 0.0)
    else if k == 1 then Homog(w as real, 0.0)
    else if k == 2 then Homog(w as real, h as real)
    else Homog(0.0, h as real)
  }

  /** H maps no corner of the w × h image to a point at infinity. */
  predicate CornersFinite(hm: Mat3, w: nat, h: nat) {
    forall k :: 0 <= k < 4 ==> MatVec(hm, Corner(w, h, k))[2] != 0.0
  }

  /** The k-th corner of image 1 in the coordinates of image 2: H·c divided by its third entry. */
  function MappedCorner(hm: Mat3, w: nat, h: nat, k: nat): (r: Vec3)
    requires k < 4 && CornersFinite(hm, w, h)
    ensures r[2] == 1.0
  {
    var v := MatVec(hm, Corner(w, h, k));
    DivSelf(v[2]);
    [v[0] / v[2], v[1] / v[2], v[2] / v[2]]
  }

  lemma DivSelf(x: real)
    requires x != 0.0
    ensures x / x == 1.0
  {
  }

  /**
   * The rectangle c holds image 2, [0, w2] × [0, h2], and every mapped
   * corner of the w1 × h1 image 1.
   */
  predicate Covers(c: Box, hm: Mat3, w1: nat, h1: nat, w2: nat, h2: nat)
    requires CornersFinite(hm, w1, h1)
  {
    && Encloses(c, Box(0.0, 0.0, w2 as real, h2 as real))
    && forall k :: 0 <= k < 4 ==> Contains(c, MappedCorner(hm, w1, h1, k)[0], MappedCorner(hm, w1, h1, k)[1])
  }

  /**
   * The bounding-box part of panorama: starting from image 2, the rectangle
   * grows to each mapped corner of image 1 in turn; the canvas is then
   * int(x1 − x0) × int(y1 − y0). The rectangle is the smallest one covering
   * both images, and the canvas is at least as large as image 2.
   */
  method PanoramaBounds(hm: Mat3, w1: nat, h1: nat, w2: nat, h2: nat)
    returns (b: Box, width: int, height: int)
    requires CornersFinite(hm, w1, h1)
    ensures Covers(b, hm, w1, h1, w2, h2)
    ensures forall c :: Covers(c, hm, w1, h1, w2, h2) ==> Encloses(c, b)
    ensures width == (b.x1 - b.x0).Floor && height == (b.y1 - b.y0).Floor
    ensures w2 <= width && h2 <= height
  {
    b := Box(0.0, 0.0, w2 as real, h2 as real);
    var v := MappedCorner(hm, w1, h1, 0);
    b := GrowTo(b, v[0], v[1]);
    v := MappedCorner(hm, w1, h1, 1);
    b := GrowTo(b, v[0], v[1]);
    v := MappedCorner(hm, w1, h1, 2);
    b := GrowTo(b, v[0], v[1]);
    v := MappedCorner(hm, w1, h1, 3);
    b := GrowTo(b, v[0], v[1]);
    width := (b.x1 - b.x0).Floor;
    height := (b.y1 - b.y0).Floor;
  }
}

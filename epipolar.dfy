/**
 * Choosing the epipolar line of a clicked point. The window shows image 1
 * at x in [0, w) and image 2 to its right, so a click is first brought
 * into the coordinates of the image it falls in, then mapped by F or by Fᵀ.
 */
module Epipolar {
  import opened Linear

  /**
   * The matrix the click is multiplied by: view·Fᵀ + (1 − view)·F, where
   * view is 1 for a click in image 1 and 0 for a click in image 2.
   */
  function SelectMatrix(f: Mat3, view: int): Mat3 {
    Blend(view as real, Transpose(f), (1 - view) as real, f)
  }

  /** With view 1 the blend is Fᵀ, with view 0 it is F. */
  lemma SelectMatrixPicks(f: Mat3)
    ensures SelectMatrix(f, 1) == Transpose(f)
    ensures SelectMatrix(f, 0) == f
  {
    var t, g := SelectMatrix(f, 1), SelectMatrix(f, 0);
    assert t[0] == Transpose(f)[0] && t[1] == Transpose(f)[1] && t[2] == Transpose(f)[2];
    assert g[0] == f[0] && g[1] == f[1] && g[2] == f[2];
  }

  /** The image a click falls in (view 1: image 1, view 0: image 2) and its line. */
  datatype Selection = Selection(view: int, line: Vec3)

  /**
   * The line selection of displayEpipolar for a click at window position
   * (x, y): a click in image 1 gives the line Fᵀ·p1 in image 2; a click in
   * image 2 is shifted left by w and gives the line F·p2 in image 1.
   */
  function EpipolarLine(f: Mat3, x: int, y: int, w: int): (r: Selection)
    ensures x < w ==> r.view == 1 && r.line == MatVec(Transpose(f), Homog(x as real, y as real))
    ensures w <= x ==> r.view == 0 && r.line == MatVec(f, Homog((x - w) as real, y as real))
  {
    var view := if x < w then 1 else 0;
    var v := Homog((x - (1 - view) * w) as real, y as real);
    SelectMatrixPicks(f);
    Selection(view, MatVec(SelectMatrix(f, view), v))
  }

  /**
   * The selected line is the one the epipolar constraint p1ᵀ·F·p2 = 0
   * describes, in both directions: for a click p2 in image 2, a point p1 of
   * image 1 is on the line exactly when (p1, p2) satisfies the constraint,
   * the same line F·p2 against which the inlier test measures p1; for a
   * click p1 in image 1, a point p2 of image 2 is on the line exactly when
   * (p1, p2) satisfies the constraint.
   */
  lemma LineIsEpipolarConstraint(f: Mat3, x: int, y: int, w: int, other: Vec3)
    ensures w <= x ==>
      Dot(other, EpipolarLine(f, x, y, w).line) == Bilinear(other, f, Homog((x - w) as real, y as real))
    ensures x < w ==>
      Dot(EpipolarLine(f, x, y, w).line, other) == Bilinear(Homog(x as real, y as real), f, other)
  {
    if x < w {
      BilinearTranspose(Homog(x as real, y as real), f, other);
    }
  }
}

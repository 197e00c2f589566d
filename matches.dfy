/** Point correspondences between the two images. */
module Matches {
  import opened Linear

  /** One correspondence: (x1, y1) in the first image, (x2, y2) in the second. */
  datatype Match = Match(x1: real, y1: real, x2: real, y2: real)

  /** The homogeneous point of the match in the first image. */
  function P1(m: Match): Vec3 {
    Homog(m.x1, m.y1)
  }

  /** The homogeneous point of the match in the second image. */
  function P2(m: Match): Vec3 {
    Homog(m.x2, m.y2)
  }
}

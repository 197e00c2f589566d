/**
 * Small real linear algebra on homogeneous 2D points: 3-vectors and 3×3
 * matrices stored as rows. The program's floats are modelled as exact
 * reals.
 */
module Linear {

  type Vec3 = v: seq<real> | |v| == 3 witness [0.0, 0.0, 0.0]

  const Zero3: Vec3 := [0.0, 0.0, 0.0]

  type Mat3 = m: seq<Vec3> | |m| == 3 witness [Zero3, Zero3, Zero3]

  /** The homogeneous point (x, y, 1). */
  function Homog(x: real, y: real): Vec3 {
    [x, y, 1.0]
  }

  function Dot(u: Vec3, v: Vec3): real {
    u[0] * v[0] + u[1] * v[1] + u[2] * v[2]
  }

  /** M · v */
  function MatVec(m: Mat3, v: Vec3): Vec3 {
    [Dot(m[0], v), Dot(m[1], v), Dot(m[2], v)]
  }

  function Transpose(m: Mat3): Mat3 {
    [[m[0][0], m[1][0], m[2][0]],
     [m[0][1], m[1][1], m[2][1]],
     [m[0][2], m[1][2], m[2][2]]]
  }

  function Column(m: Mat3, j: nat): Vec3
    requires j < 3
  {
    [m[0][j], m[1][j], m[2][j]]
  }

  /** Matrix product A · B. */
  function MatMul(a: Mat3, b: Mat3): Mat3 {
    [[Dot(a[0], Column(b, 0)), Dot(a[0], Column(b, 1)), Dot(a[0], Column(b, 2))],
     [Dot(a[1], Column(b, 0)), Dot(a[1], Column(b, 1)), Dot(a[1], Column(b, 2))],
     [Dot(a[2], Column(b, 0)), Dot(a[2], Column(b, 1)), Dot(a[2], Column(b, 2))]]
  }

  /** Entry-wise s·A + t·B. */
  function Blend(s: real, a: Mat3, t: real, b: Mat3): Mat3 {
    [[s * a[0][0] + t * b[0][0], s * a[0][1] + t * b[0][1], s * a[0][2] + t * b[0][2]],
     [s * a[1][0] + t * b[1][0], s * a[1][1] + t * b[1][1], s * a[1][2] + t * b[1][2]],
     [s * a[2][0] + t * b[2][0], s * a[2][1] + t * b[2][1], s * a[2][2] + t * b[2][2]]]
  }

  function Identity(): Mat3 {
    [[1.0, 0.0, 0.0], [0.0, 1.0, 0.0], [0.0, 0.0, 1.0]]
  }

  /** The diagonal matrix diag(a, b, c). */
  function Diagonal(a: real, b: real, c: real): Mat3 {
    [[a, 0.0, 0.0], [0.0, b, 0.0], [0.0, 0.0, c]]
  }

  /** Cross product u × v. */
  function Cross(u: Vec3, v: Vec3): Vec3 {
    [u[1] * v[2] - u[2] * v[1],
     u[2] * v[0] - u[0] * v[2],
     u[0] * v[1] - u[1] * v[0]]
  }

  /** The 3×3 array as a matrix value. */
  function Rows3(a: array2<real>): Mat3
    requires a.Length0 == 3 && a.Length1 == 3
    reads a
  {
    [[a[0, 0], a[0, 1], a[0, 2]], [a[1, 0], a[1, 1], a[1, 2]], [a[2, 0], a[2, 1], a[2, 2]]]
  }

  /** The bilinear form pᵀ · F · q. */
  function Bilinear(p: Vec3, f: Mat3, q: Vec3): real {
    Dot(p, MatVec(f, q))
  }

  /** The bilinear form read through the transpose: pᵀ·F·q = (Fᵀ·p)·q. */
  lemma BilinearTranspose(p: Vec3, f: Mat3, q: Vec3)
    ensures Bilinear(p, f, q) == Dot(MatVec(Transpose(f), p), q)
  {
    calc {
      Bilinear(p, f, q);
      p[0] * (f[0][0] * q[0] + f[0][1] * q[1] + f[0][2] * q[2])
        + p[1] * (f[1][0] * q[0] + f[1][1] * q[1] + f[1][2] * q[2])
        + p[2] * (f[2][0] * q[0] + f[2][1] * q[1] + f[2][2] * q[2]);
      (f[0][0] * p[0] + f[1][0] * p[1] + f[2][0] * p[2]) * q[0]
        + (f[0][1] * p[0] + f[1][1] * p[1] + f[2][1] * p[2]) * q[1]
        + (f[0][2] * p[0] + f[1][2] * p[1] + f[2][2] * p[2]) * q[2];
      Dot(MatVec(Transpose(f), p), q);
    }
  }
}

/**
 * The eight-point estimate of the fundamental matrix from one sample:
 * conditioning of the points, the 9×9 coefficient matrix of the epipolar
 * constraints, the reshape of the singular vector into a 3×3 matrix, and
 * the undoing of the conditioning. The two singular value decompositions
 * (the solve and the rank-2 projection) are foreign code and enter as
 * function parameters.
 */
module EightPoint {
  import opened Linear
  import opened Matches

  type Vec9 = v: seq<real> | |v| == 9 witness [0.0, 0.0, 0.0, 0.0, 0.0, 0.0, 0.0, 0.0, 0.0]

  /** Conditioning scale applied to both image coordinates. */
  const Scale: real := 0.001

  /** The conditioning matrix T = diag(0.001, 0.001, 1). */
  function Conditioning(): Mat3 {
    Diagonal(Scale, Scale, 1.0)
  }

  /** The i-th diagonal entry of the conditioning matrix. */
  function Cond(i: nat): real
    requires i < 3
  {
    if i < 2 then Scale else 1.0
  }

  /** The match with both of its points mapped through T. */
  function Normalize(m: Match): (r: Match)
    ensures P1(r) == MatVec(Conditioning(), P1(m))
    ensures P2(r) == MatVec(Conditioning(), P2(m))
  {
    Match(Scale * m.x1, Scale * m.y1, Scale * m.x2, Scale * m.y2)
  }

  /**
   * The coefficients of the epipolar constraint of one match over the nine
   * entries of F, in the order F00, F01, F02, F10, ..., F22.
   */
  function CoefficientRow(m: Match): Vec9 {
    [m.x1 * m.x2, m.x1 * m.y2, m.x1, m.y1 * m.x2, m.y1 * m.y2, m.y1, m.x2, m.y2, 1.0]
  }

  const ZeroRow: Vec9 := [0.0, 0.0, 0.0, 0.0, 0.0, 0.0, 0.0, 0.0, 0.0]

  /** The 9×9 system: row i < 8 is the normalized i-th match, row 8 is zero. */
  function SystemMatrix(sample: seq<Match>): (a: seq<Vec9>)
    requires |sample| >= 8
    ensures |a| == 9
  {
    seq(9, i requires 0 <= i < 9 => if i < 8 then CoefficientRow(Normalize(sample[i])) else ZeroRow)
  }

  function Dot9(u: Vec9, v: Vec9): real {
    u[0] * v[0] + u[1] * v[1] + u[2] * v[2] + u[3] * v[3] + u[4] * v[4]
      + u[5] * v[5] + u[6] * v[6] + u[7] * v[7] + u[8] * v[8]
  }

  /** The 9-vector read as a 3×3 matrix, row by row. */
  function Reshape(v: Vec9): Mat3 {
    [[v[0], v[1], v[2]], [v[3], v[4], v[5]], [v[6], v[7], v[8]]]
  }

  /** Undoing the conditioning: T · F · T. */
  function Denormalize(f: Mat3): Mat3 {
    MatMul(MatMul(Conditioning(), f), Conditioning())
  }

  /**
   * A coefficient row times a vector is the epipolar form p1ᵀ·F·p2 of the
   * match, with F the vector reshaped.
   */
  lemma RowTimesVector(m: Match, v: Vec9)
    ensures Dot9(CoefficientRow(m), v) == Bilinear(P1(m), Reshape(v), P2(m))
  {
    var f := Reshape(v);
    calc {
      Bilinear(P1(m), f, P2(m));
      m.x1 * (v[0] * m.x2 + v[1] * m.y2 + v[2])
        + m.y1 * (v[3] * m.x2 + v[4] * m.y2 + v[5])
        + (v[6] * m.x2 + v[7] * m.y2 + v[8]);
      Dot9(CoefficientRow(m), v);
    }
  }

  /** Multiplying by T on the left scales row i by tᵢ. */
  lemma ConditionRows(f: Mat3)
    ensures forall i, j :: 0 <= i < 3 && 0 <= j < 3 ==> MatMul(Conditioning(), f)[i][j] == Cond(i) * f[i][j]
  {
    var t := Conditioning();
    forall i, j | 0 <= i < 3 && 0 <= j < 3
      ensures MatMul(t, f)[i][j] == Cond(i) * f[i][j]
    {
      assert t[i] == [if i == 0 then Scale else 0.0, if i == 1 then Scale else 0.0, if i == 2 then 1.0 else 0.0];
      assert Column(f, j) == [f[0][j], f[1][j], f[2][j]];
    }
  }

  /** Multiplying by T on the right scales column j by tⱼ. */
  lemma ConditionColumns(g: Mat3)
    ensures forall i, j :: 0 <= i < 3 && 0 <= j < 3 ==> MatMul(g, Conditioning())[i][j] == g[i][j] * Cond(j)
  {
    var t := Conditioning();
    forall i, j | 0 <= i < 3 && 0 <= j < 3
      ensures MatMul(g, t)[i][j] == g[i][j] * Cond(j)
    {
      assert Column(t, j) == [if j == 0 then Scale else 0.0, if j == 1 then Scale else 0.0, if j == 2 then 1.0 else 0.0];
    }
  }

  /** Denormalizing scales entry (i, j) by the conditioning factors tᵢ·tⱼ. */
  lemma DenormalizeEntries(f: Mat3)
    ensures Transpose(Conditioning()) == Conditioning()
    ensures forall i, j :: 0 <= i < 3 && 0 <= j < 3 ==> Denormalize(f)[i][j] == Cond(i) * f[i][j] * Cond(j)
  {
    ConditionRows(f);
    ConditionColumns(MatMul(Conditioning(), f));
  }

  /**
   * The conditioning moves into the matrix: the form of T·F·T on raw points
   * is the form of F on the conditioned points.
   */
  lemma DenormalizeBilinear(p: Vec3, f: Mat3, q: Vec3)
    ensures Bilinear(MatVec(Conditioning(), p), f, MatVec(Conditioning(), q)) == Bilinear(p, Denormalize(f), q)
  {
    DenormalizeEntries(f);
    var g := Denormalize(f);
    var tp := MatVec(Conditioning(), p);
    var tq := MatVec(Conditioning(), q);
    assert tp == [Scale * p[0], Scale * p[1], p[2]];
    assert tq == [Scale * q[0], Scale * q[1], q[2]];
  }

  /**
   * The singular vector v solves the system row of a sampled match exactly
   * when the denormalized estimate satisfies that match's epipolar
   * constraint in pixel coordinates; the zero row 8 adds no constraint.
   */
  lemma SystemSolvedIffEpipolar(sample: seq<Match>, v: Vec9)
    requires |sample| >= 8
    ensures (forall i :: 0 <= i < 9 ==> Dot9(SystemMatrix(sample)[i], v) == 0.0)
        <==> (forall i :: 0 <= i < 8 ==> Bilinear(P1(sample[i]), Denormalize(Reshape(v)), P2(sample[i])) == 0.0)
  {
    var a := SystemMatrix(sample);
    forall i | 0 <= i < 8
      ensures Dot9(a[i], v) == Bilinear(P1(sample[i]), Denormalize(Reshape(v)), P2(sample[i]))
    {
      RowTimesVector(Normalize(sample[i]), v);
      DenormalizeBilinear(P1(sample[i]), Reshape(v), P2(sample[i]));
    }
    assert Dot9(a[8], v) == 0.0;
  }

  /** Row r of the 9×9 array. */
  function Row9At(a: array2<real>, r: nat): Vec9
    requires a.Length1 == 9 && r < a.Length0
    reads a
  {
    [a[r, 0], a[r, 1], a[r, 2], a[r, 3], a[r, 4], a[r, 5], a[r, 6], a[r, 7], a[r, 8]]
  }

  /** The 9×9 array as a sequence of rows. */
  function Rows9(a: array2<real>): seq<Vec9>
    requires a.Length0 == 9 && a.Length1 == 9
    reads a
  {
    seq(9, i requires 0 <= i < 9 reads a => Row9At(a, i))
  }

  /**
   * One round of the first loop of computeF: the nine entries of row i of A
   * are written in turn, and no other row changes.
   */
  method WriteRow9(a: array2<real>, i: nat, row: Vec9)
    requires a.Length1 == 9 && i < a.Length0
    modifies a
    ensures Row9At(a, i) == row
    ensures forall r :: 0 <= r < a.Length0 && r != i ==> Row9At(a, r) == old(Row9At(a, r))
  {
    for c := 0 to 9
      invariant forall c' :: 0 <= c' < c ==> a[i, c'] == row[c']
      invariant forall r, c' :: 0 <= r < a.Length0 && r != i && 0 <= c' < 9 ==> a[r, c'] == old(a[r, c'])
    {
      a[i, c] := row[c];
    }
  }

  /**
   * The first part of the eight-point computeF: rows 0..7 of the 9×9 system
   * get the coefficients of the conditioned matches 0..7, then row 8 is
   * zeroed, which leaves rows 0..7 as they are.
   */
  method FillSystem(sample: seq<Match>) returns (a: array2<real>)
    requires |sample| >= 8
    ensures fresh(a) && a.Length0 == 9 && a.Length1 == 9
    ensures Rows9(a) == SystemMatrix(sample)
  {
    a := new real[9, 9];
    for i := 0 to 8
      invariant forall r :: 0 <= r < i ==> Row9At(a, r) == CoefficientRow(Normalize(sample[r]))
    {
      WriteRow9(a, i, CoefficientRow(Normalize(sample[i])));
    }
    for j := 0 to 9
      invariant forall c :: 0 <= c < j ==> a[8, c] == 0.0
      invariant forall r :: 0 <= r < 8 ==> Row9At(a, r) == CoefficientRow(Normalize(sample[r]))
    {
      a[8, j] := 0.0;
    }
    assert Row9At(a, 8) == ZeroRow;
    forall i | 0 <= i < 9 ensures Rows9(a)[i] == SystemMatrix(sample)[i] {
    }
  }

  /** The reshape loop of computeF: entry (i, j) of the 3×3 result is v[3i + j]. */
  method ReshapeToMatrix(v: Vec9) returns (f: array2<real>)
    ensures fresh(f) && f.Length0 == 3 && f.Length1 == 3
    ensures Rows3(f) == Reshape(v)
  {
    f := new real[3, 3];
    for i := 0 to 3
      invariant forall r, c :: 0 <= r < i && 0 <= c < 3 ==> f[r, c] == v[3 * r + c]
    {
      for j := 0 to 3
        invariant forall r, c :: 0 <= r < i && 0 <= c < 3 ==> f[r, c] == v[3 * r + c]
        invariant forall c :: 0 <= c < j ==> f[i, c] == v[3 * i + c]
      {
        f[i, j] := v[3 * i + j];
      }
    }
  }

  /**
   * The eight-point computeF: the system of the first eight matches of the
   * sample, the singular vector `svd` returns for it, reshaped, projected
   * to rank 2 by `rank2`, with the conditioning undone.
   */
  method ComputeFundamental(sample: seq<Match>, svd: seq<Vec9> -> Vec9, rank2: Mat3 -> Mat3)
    returns (f: Mat3)
    requires |sample| >= 8
    ensures f == Denormalize(rank2(Reshape(svd(SystemMatrix(sample)))))
  {
    var a := FillSystem(sample);
    var v := svd(Rows9(a));
    var resultF := ReshapeToMatrix(v);
    f := Denormalize(rank2(Rows3(resultF)));
  }
}

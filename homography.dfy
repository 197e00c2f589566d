/**
 * The linear system of the panorama's homography. Each clicked pair
 * (x, y) ↔ (x′, y′) gives two equations in the eight unknowns h0..h7 of
 * H = [h0 h1 h2; h3 h4 h5; h6 h7 1]. Solving the system is foreign code
 * (`linSolve`) and enters as a function parameter.
 */
module Homography {
  import opened Linear

  /** A clicked pixel position. */
  datatype Point = Point(x: int, y: int)

  type Vec8 = v: seq<real> | |v| == 8 witness [0.0, 0.0, 0.0, 0.0, 0.0, 0.0, 0.0, 0.0]

  function Dot8(u: Vec8, v: Vec8): real {
    u[0] * v[0] + u[1] * v[1] + u[2] * v[2] + u[3] * v[3]
      + u[4] * v[4] + u[5] * v[5] + u[6] * v[6] + u[7] * v[7]
  }

  /** The equation of a pair for x′: row 2i of A. */
  function RowX(p: Point, q: Point): Vec8 {
    [p.x as real, p.y as real, 1.0, 0.0, 0.0, 0.0,
     -(q.x as real) * p.x as real, -(q.x as real) * p.y as real]
  }

  /** The equation of a pair for y′: row 2i + 1 of A. */
  function RowY(p: Point, q: Point): Vec8 {
    [0.0, 0.0, 0.0, p.x as real, p.y as real, 1.0,
     -(q.y as real) * p.x as real, -(q.y as real) * p.y as real]
  }

  /** The number of usable pairs: the shorter of the two click lists. */
  function PairCount(pts1: seq<Point>, pts2: seq<Point>): (n: nat)
    ensures n <= |pts1| && n <= |pts2| && (n == |pts1| || n == |pts2|)
  {
    if |pts1| < |pts2| then |pts1| else |pts2|
  }

  /** The 2n × 8 matrix A of the first n pairs. */
  function SystemA(pts1: seq<Point>, pts2: seq<Point>, n: nat): (a: seq<Vec8>)
    requires n <= |pts1| && n <= |pts2|
    ensures |a| == 2 * n
  {
    seq(2 * n, r requires 0 <= r < 2 * n =>
      if r % 2 == 0 then RowX(pts1[r / 2], pts2[r / 2]) else RowY(pts1[r / 2], pts2[r / 2]))
  }

  /** The right-hand side B of the first n pairs: x′, y′ of each. */
  function SystemB(pts1: seq<Point>, pts2: seq<Point>, n: nat): (b: seq<real>)
    requires n <= |pts1| && n <= |pts2|
    ensures |b| == 2 * n
  {
    seq(2 * n, r requires 0 <= r < 2 * n =>
      if r % 2 == 0 then pts2[r / 2].x as real else pts2[r / 2].y as real)
  }

  /** H from the solution: h0..h7 row by row, with 1 in the last entry. */
  function Assemble(h: Vec8): (m: Mat3)
    ensures forall r, c :: 0 <= r < 3 && 0 <= c < 3 ==>
      m[r][c] == if 3 * r + c < 8 then h[3 * r + c] else 1.0
  {
    [[h[0], h[1], h[2]], [h[3], h[4], h[5]], [h[6], h[7], 1.0]]
  }

  /** The sanity check of a pair: the cross product (H·p1) × p2, zero when H maps p1 onto p2. */
  function Residual(m: Mat3, p: Point, q: Point): Vec3 {
    Cross(MatVec(m, Homog(p.x as real, p.y as real)), Homog(q.x as real, q.y as real))
  }

  /** H·(x, y, 1) for the assembled H, written out. */
  function Mapped(h: Vec8, p: Point): (v: Vec3)
    ensures v == MatVec(Assemble(h), Homog(p.x as real, p.y as real))
  {
    var x, y := p.x as real, p.y as real;
    var m, v := Assemble(h), Homog(x, y);
    assert m[0] == [h[0], h[1], h[2]] && m[1] == [h[3], h[4], h[5]] && m[2] == [h[6], h[7], 1.0];
    assert v == [x, y, 1.0];
    assert MatVec(m, v)[0] == h[0] * x + h[1] * y + h[2];
    assert MatVec(m, v)[1] == h[3] * x + h[4] * y + h[5];
    assert MatVec(m, v)[2] == h[6] * x + h[7] * y + 1.0;
    [h[0] * x + h[1] * y + h[2], h[3] * x + h[4] * y + h[5], h[6] * x + h[7] * y + 1.0]
  }

  /**
   * The left-hand sides of the two equations of a pair, in terms of
   * (u, v, w) = H·(x, y, 1): row 2i gives u − x′·(w − 1) and row 2i + 1
   * gives v − y′·(w − 1).
   */
  lemma RowValues(p: Point, q: Point, h: Vec8)
    ensures Dot8(RowX(p, q), h) == Mapped(h, p)[0] - q.x as real * (Mapped(h, p)[2] - 1.0)
    ensures Dot8(RowY(p, q), h) == Mapped(h, p)[1] - q.y as real * (Mapped(h, p)[2] - 1.0)
  {
    var x, y, x', y' := p.x as real, p.y as real, q.x as real, q.y as real;
    var rx, ry := RowX(p, q), RowY(p, q);
    assert rx[0] == x && rx[1] == y && rx[2] == 1.0 && rx[3] == 0.0 && rx[4] == 0.0 && rx[5] == 0.0;
    assert rx[6] == -x' * x && rx[7] == -x' * y;
    assert ry[0] == 0.0 && ry[1] == 0.0 && ry[2] == 0.0 && ry[3] == x && ry[4] == y && ry[5] == 1.0;
    assert ry[6] == -y' * x && ry[7] == -y' * y;
    EquationArith(x, y, x', h[0], h[1], h[2], h[6], h[7]);
    EquationArith(x, y, y', h[3], h[4], h[5], h[6], h[7]);
  }

  /** The algebra of one equation: a·x + b·y + c − t·x·d − t·y·e = (a·x + b·y + c) − t·((d·x + e·y + 1) − 1). */
  lemma EquationArith(x: real, y: real, t: real, a: real, b: real, c: real, d: real, e: real)
    ensures x * a + y * b + 1.0 * c + (-t * x) * d + (-t * y) * e == (a * x + b * y + c) - t * ((d * x + e * y + 1.0) - 1.0)
  {
  }

  /**
   * Both equations of a pair hold exactly when the sanity-check residual of
   * the assembled H is zero for that pair.
   */
  lemma PairSolvedIffResidualZero(p: Point, q: Point, h: Vec8)
    ensures (Dot8(RowX(p, q), h) == q.x as real && Dot8(RowY(p, q), h) == q.y as real)
        <==> Residual(Assemble(h), p, q) == Zero3
  {
    RowValues(p, q, h);
    var hp := Mapped(h, p);
    CrossZeroIff(hp, q.x as real, q.y as real);
  }

  /** (a0, a1, a2) × (x′, y′, 1) vanishes exactly when a0 = x′·a2 and a1 = y′·a2. */
  lemma CrossZeroIff(a: Vec3, x': real, y': real)
    ensures Cross(a, Homog(x', y')) == Zero3 <==> a[0] == x' * a[2] && a[1] == y' * a[2]
  {
    var c := Cross(a, Homog(x', y'));
    assert c[0] == a[1] - a[2] * y' && c[1] == a[2] * x' - a[0] && c[2] == a[0] * y' - a[1] * x';
    assert c == Zero3 <==> c[0] == 0.0 && c[1] == 0.0 && c[2] == 0.0;
    if a[0] == x' * a[2] && a[1] == y' * a[2] {
      ProportionalCross(a[0], a[1], a[2], x', y');
    }
  }

  /** If a0 = x′·a2 and a1 = y′·a2, then a0·y′ − a1·x′ = 0. */
  lemma ProportionalCross(a0: real, a1: real, a2: real, x': real, y': real)
    requires a0 == x' * a2 && a1 == y' * a2
    ensures a0 * y' - a1 * x' == 0.0
  {
    calc {
      a0 * y' - a1 * x';
      (x' * a2) * y' - (y' * a2) * x';
      0.0;
    }
  }

  /** Rows 2i and 2i + 1 of the system, and entries 2i and 2i + 1 of B, come from pair i. */
  lemma SystemRowsOfPair(pts1: seq<Point>, pts2: seq<Point>, n: nat, i: nat)
    requires i < n <= |pts1| && n <= |pts2|
    ensures SystemA(pts1, pts2, n)[2 * i] == RowX(pts1[i], pts2[i])
    ensures SystemA(pts1, pts2, n)[2 * i + 1] == RowY(pts1[i], pts2[i])
    ensures SystemB(pts1, pts2, n)[2 * i] == pts2[i].x as real
    ensures SystemB(pts1, pts2, n)[2 * i + 1] == pts2[i].y as real
  {
    assert (2 * i) % 2 == 0 && (2 * i) / 2 == i;
    assert (2 * i + 1) % 2 == 1 && (2 * i + 1) / 2 == i;
  }

  /**
   * A vector solves the whole system of the first n pairs exactly when the
   * assembled H passes the sanity check on each of those pairs.
   */
  lemma SystemSolvedIffResidualsZero(pts1: seq<Point>, pts2: seq<Point>, n: nat, h: Vec8)
    requires n <= |pts1| && n <= |pts2|
    ensures (forall r :: 0 <= r < 2 * n ==> Dot8(SystemA(pts1, pts2, n)[r], h) == SystemB(pts1, pts2, n)[r])
        <==> (forall i :: 0 <= i < n ==> Residual(Assemble(h), pts1[i], pts2[i]) == Zero3)
  {
    var a, b := SystemA(pts1, pts2, n), SystemB(pts1, pts2, n);
    if forall r :: 0 <= r < 2 * n ==> Dot8(a[r], h) == b[r] {
      forall i | 0 <= i < n ensures Residual(Assemble(h), pts1[i], pts2[i]) == Zero3 {
        SystemRowsOfPair(pts1, pts2, n, i);
        PairSolvedIffResidualZero(pts1[i], pts2[i], h);
        assert Dot8(a[2 * i], h) == b[2 * i] && Dot8(a[2 * i + 1], h) == b[2 * i + 1];
      }
    }
    if forall i :: 0 <= i < n ==> Residual(Assemble(h), pts1[i], pts2[i]) == Zero3 {
      forall r | 0 <= r < 2 * n ensures Dot8(a[r], h) == b[r] {
        var i := r / 2;
        assert r == 2 * i || r == 2 * i + 1;
        SystemRowsOfPair(pts1, pts2, n, i);
        PairSolvedIffResidualZero(pts1[i], pts2[i], h);
      }
    }
  }

  /** Rows and right-hand sides that hold the equations of each of the first n pairs are the system. */
  lemma SystemFromPairs(pts1: seq<Point>, pts2: seq<Point>, n: nat, rows: seq<Vec8>, rhs: seq<real>)
    requires n <= |pts1| && n <= |pts2| && |rows| == 2 * n && |rhs| == 2 * n
    requires forall k :: 0 <= k < n ==> rows[2 * k] == RowX(pts1[k], pts2[k]) && rows[2 * k + 1] == RowY(pts1[k], pts2[k])
    requires forall k :: 0 <= k < n ==> rhs[2 * k] == pts2[k].x as real && rhs[2 * k + 1] == pts2[k].y as real
    ensures rows == SystemA(pts1, pts2, n) && rhs == SystemB(pts1, pts2, n)
  {
    forall r | 0 <= r < 2 * n
      ensures rows[r] == SystemA(pts1, pts2, n)[r] && rhs[r] == SystemB(pts1, pts2, n)[r]
    {
      var k := r / 2;
      assert r == 2 * k || r == 2 * k + 1;
      SystemRowsOfPair(pts1, pts2, n, k);
    }
  }

  /** Only the first n pairs of each list enter the system. */
  lemma SystemUsesFirstPairs(pts1: seq<Point>, pts2: seq<Point>, n: nat)
    requires n <= |pts1| && n <= |pts2|
    ensures SystemA(pts1, pts2, n) == SystemA(pts1[..n], pts2[..n], n)
    ensures SystemB(pts1, pts2, n) == SystemB(pts1[..n], pts2[..n], n)
  {
    forall r | 0 <= r < 2 * n
      ensures SystemA(pts1, pts2, n)[r] == SystemA(pts1[..n], pts2[..n], n)[r]
      ensures SystemB(pts1, pts2, n)[r] == SystemB(pts1[..n], pts2[..n], n)[r]
    {
      assert r / 2 < n;
    }
  }

  /** Row r of the 2n × 8 array. */
  function RowAt(a: array2<real>, r: nat): Vec8
    requires a.Length1 == 8 && r < a.Length0
    reads a
  {
    [a[r, 0], a[r, 1], a[r, 2], a[r, 3], a[r, 4], a[r, 5], a[r, 6], a[r, 7]]
  }

  /** The rows of the 2n × 8 array. */
  function RowsOf(a: array2<real>): seq<Vec8>
    requires a.Length1 == 8
    reads a
  {
    seq(a.Length0, r requires 0 <= r < a.Length0 reads a => RowAt(a, r))
  }

  /** Writes the eight coefficients of one equation into row r of A. */
  method WriteRow(a: array2<real>, r: nat, row: Vec8)
    requires a.Length1 == 8 && r < a.Length0
    modifies a
    ensures RowAt(a, r) == row
    ensures forall k :: 0 <= k < a.Length0 && k != r ==> RowAt(a, k) == old(RowAt(a, k))
  {
    for c := 0 to 8
      invariant forall c' :: 0 <= c' < c ==> a[r, c'] == row[c']
      invariant forall k, c' :: 0 <= k < a.Length0 && k != r && 0 <= c' < 8 ==> a[k, c'] == old(a[k, c'])
    {
      a[r, c] := row[c];
    }
  }

  /** One round of the loop of getHomography: the two rows and right-hand sides of pair i. */
  method WritePair(a: array2<real>, b: array<real>, i: nat, p: Point, q: Point)
    requires a.Length0 == b.Length && a.Length1 == 8 && 2 * i + 1 < a.Length0
    modifies a, b
    ensures RowAt(a, 2 * i) == RowX(p, q) && RowAt(a, 2 * i + 1) == RowY(p, q)
    ensures b[2 * i] == q.x as real && b[2 * i + 1] == q.y as real
    ensures forall r :: 0 <= r < a.Length0 && r != 2 * i && r != 2 * i + 1 ==> RowAt(a, r) == old(RowAt(a, r))
    ensures forall r :: 0 <= r < b.Length && r != 2 * i && r != 2 * i + 1 ==> b[r] == old(b[r])
  {
    WriteRow(a, 2 * i, RowX(p, q));
    b[2 * i] := q.x as real;
    WriteRow(a, 2 * i + 1, RowY(p, q));
    b[2 * i + 1] := q.y as real;
  }

  /**
   * The loop of getHomography: rows 2i and 2i + 1 of A and entries 2i and
   * 2i + 1 of B get the equations of pair i, for each of the first n pairs.
   */
  method WritePairs(a: array2<real>, b: array<real>, pts1: seq<Point>, pts2: seq<Point>, n: nat)
    requires n <= |pts1| && n <= |pts2|
    requires a.Length0 == 2 * n && a.Length1 == 8 && b.Length == 2 * n
    modifies a, b
    ensures forall k :: 0 <= k < n ==>
      RowAt(a, 2 * k) == RowX(pts1[k], pts2[k]) && RowAt(a, 2 * k + 1) == RowY(pts1[k], pts2[k])
    ensures forall k :: 0 <= k < n ==> b[2 * k] == pts2[k].x as real && b[2 * k + 1] == pts2[k].y as real
  {
    for i := 0 to n
      invariant forall k :: 0 <= k < i ==>
        RowAt(a, 2 * k) == RowX(pts1[k], pts2[k]) && RowAt(a, 2 * k + 1) == RowY(pts1[k], pts2[k])
      invariant forall k :: 0 <= k < i ==> b[2 * k] == pts2[k].x as real && b[2 * k + 1] == pts2[k].y as real
    {
      WritePair(a, b, i, pts1[i], pts2[i]);
    }
  }

  /** A and B of getHomography, allocated and filled from the first n pairs. */
  method FillHomographySystem(pts1: seq<Point>, pts2: seq<Point>, n: nat)
    returns (a: array2<real>, b: array<real>)
    requires n <= |pts1| && n <= |pts2|
    ensures fresh(a) && fresh(b) && a.Length0 == 2 * n && a.Length1 == 8 && b.Length == 2 * n
    ensures RowsOf(a) == SystemA(pts1, pts2, n)
    ensures b[..] == SystemB(pts1, pts2, n)
  {
    a := new real[2 * n, 8];
    b := new real[2 * n];
    WritePairs(a, b, pts1, pts2, n);
    assert forall k :: 0 <= k < n ==> RowsOf(a)[2 * k] == RowAt(a, 2 * k) && RowsOf(a)[2 * k + 1] == RowAt(a, 2 * k + 1);
    ghost var rows, rhs := RowsOf(a), b[..];
    assert forall k :: 0 <= k < n ==> rhs[2 * k] == b[2 * k] && rhs[2 * k + 1] == b[2 * k + 1];
    SystemFromPairs(pts1, pts2, n, rows, rhs);
  }

  /**
   * getHomography: with fewer than four pairs the identity; otherwise the
   * system of the first n pairs is solved by `linSolve` and H is assembled
   * from the solution.
   */
  method GetHomography(pts1: seq<Point>, pts2: seq<Point>, linSolve: (seq<Vec8>, seq<real>) -> Vec8)
    returns (hm: Mat3)
    ensures PairCount(pts1, pts2) < 4 ==> hm == Identity()
    ensures PairCount(pts1, pts2) >= 4 ==>
      var n := PairCount(pts1, pts2);
      hm == Assemble(linSolve(SystemA(pts1, pts2, n), SystemB(pts1, pts2, n)))
  {
    var n := PairCount(pts1, pts2);
    if n < 4 {
      return Identity();
    }
    var a, b := FillHomographySystem(pts1, pts2, n);
    var sol := linSolve(RowsOf(a), b[..]);
    var h := new real[3, 3];
    h[0, 0], h[0, 1], h[0, 2] := sol[0], sol[1], sol[2];
    h[1, 0], h[1, 1], h[1, 2] := sol[3], sol[4], sol[5];
    h[2, 0], h[2, 1], h[2, 2] := sol[6], sol[7], 1.0;
    hm := Rows3(h);
  }
}

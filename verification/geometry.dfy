/**
 Geometric values the occlusion-scale pass works on: three-component
 vectors (the SDK's LXtVector), axis-aligned boxes given by a min and a max
 corner (LXtBBox), 4x4 matrices (LXtMatrix4), the strict containment test
 between two boxes and the diagonal rescale of a matrix.

 Floating-point values are modelled as `real`.
 */
module Geometry {

  /** A point or vector with exactly three coordinates, indexed 0 (x), 1 (y), 2 (z). */
  type Vec = v: seq<real> | |v| == 3 witness [0.0, 0.0, 0.0]

  predicate IsMatrix4(m: seq<seq<real>>) {
    |m| == 4 && forall i | 0 <= i < 4 :: |m[i]| == 4
  }

  /** A 4x4 matrix as four rows of four entries. */
  type Matrix = m: seq<seq<real>> | IsMatrix4(m)
    witness [[0.0, 0.0, 0.0, 0.0], [0.0, 0.0, 0.0, 0.0], [0.0, 0.0, 0.0, 0.0], [0.0, 0.0, 0.0, 0.0]]

  /** A box given by its two corners; nothing forces min <= max per axis. */
  datatype Box = Box(min: Vec, max: Vec)

  /**
   The containment test of the occlusion check: `inner` lies strictly inside
   `outer` on all six faces. Equal faces do not count, so no box is strictly
   inside itself and two boxes are never strictly inside each other.
   */
  predicate StrictlyInside(inner: Box, outer: Box)
    ensures StrictlyInside(inner, outer) ==> inner != outer
  {
    && inner.min[0] > outer.min[0]
    && inner.min[1] > outer.min[1]
    && inner.min[2] > outer.min[2]
    && inner.max[0] < outer.max[0]
    && inner.max[1] < outer.max[1]
    && inner.max[2] < outer.max[2]
  }

  /** Two boxes are never strictly inside each other. */
  lemma StrictlyInsideAsymmetric(a: Box, b: Box)
    requires StrictlyInside(a, b)
    ensures !StrictlyInside(b, a)
  {
  }

  /** Strict containment is transitive: a box inside a box inside `c` is inside `c`. */
  lemma StrictlyInsideTransitive(a: Box, b: Box, c: Box)
    requires StrictlyInside(a, b) && StrictlyInside(b, c)
    ensures StrictlyInside(a, c)
  {
  }

  /** Entry (i, j) is one of the three scale terms [0][0], [1][1], [2][2]. */
  predicate IsScaleEntry(i: int, j: int) {
    i == j && 0 <= i < 3
  }

  /**
   Multiplies the three diagonal scale terms of `m` by `s`, one row at a
   time; the other thirteen entries (translation, rotation, shear and the
   homogeneous row) are left as they are.
   */
  function ScaleDiagonal(m: Matrix, s: real): (r: Matrix)
    ensures forall i, j | 0 <= i < 4 && 0 <= j < 4 ::
      r[i][j] == if IsScaleEntry(i, j) then m[i][j] * s else m[i][j]
  {
    [ m[0][0 := m[0][0] * s],
      m[1][1 := m[1][1] * s],
      m[2][2 := m[2][2] * s],
      m[3] ]
  }

  /** Two matrices that agree entry by entry are equal. */
  lemma MatrixExtensionality(a: Matrix, b: Matrix)
    requires forall i, j | 0 <= i < 4 && 0 <= j < 4 :: a[i][j] == b[i][j]
    ensures a == b
  {
    forall i | 0 <= i < 4
      ensures a[i] == b[i]
    {
      assert |a[i]| == 4 == |b[i]|;
    }
  }

  /** Rescaling by 1 leaves every entry, and so the matrix, as it was. */
  lemma ScaleDiagonalByOne(m: Matrix)
    ensures ScaleDiagonal(m, 1.0) == m
  {
    MatrixExtensionality(ScaleDiagonal(m, 1.0), m);
  }

  /** Two successive rescales compose into one rescale by the product of the factors. */
  lemma ScaleDiagonalCompose(m: Matrix, s: real, t: real)
    ensures ScaleDiagonal(ScaleDiagonal(m, s), t) == ScaleDiagonal(m, s * t)
  {
    var lhs := ScaleDiagonal(ScaleDiagonal(m, s), t);
    var rhs := ScaleDiagonal(m, s * t);
    forall i, j | 0 <= i < 4 && 0 <= j < 4
      ensures lhs[i][j] == rhs[i][j]
    {
      if IsScaleEntry(i, j) {
        assert lhs[i][j] == (m[i][j] * s) * t;
      }
    }
    MatrixExtensionality(lhs, rhs);
  }

  /** A rescale by a non-zero factor is undone by a rescale by its reciprocal. */
  lemma ScaleDiagonalInverse(m: Matrix, s: real)
    requires s != 0.0
    ensures ScaleDiagonal(ScaleDiagonal(m, s), 1.0 / s) == m
  {
    var t := 1.0 / s;
    ScaleDiagonalCompose(m, s, t);
    assert s * t == 1.0;
    calc {
      ScaleDiagonal(ScaleDiagonal(m, s), t);
      ScaleDiagonal(m, s * t);
      ScaleDiagonal(m, 1.0);
      { ScaleDiagonalByOne(m); }
      m;
    }
  }
}

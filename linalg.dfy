/** Dense real vectors and matrices as the linear bandit policies use them:
    a row vector is a `seq<real>`, a matrix a sequence of rows. The module
    defines the products the policies compute with numpy's `@`, and proves
    that the rank-one inverse update they apply (Sherman-Morrison) turns an
    inverse of G into an inverse of G + x x^T and keeps symmetry. */
module LinAlg {

  type Vector = seq<real>
  type Matrix = seq<Vector>

  /** `A` has `rows` rows of `cols` entries each. */
  predicate IsMatrix(A: Matrix, rows: nat, cols: nat)
  {
    |A| == rows && forall i :: 0 <= i < rows ==> |A[i]| == cols
  }

  predicate Symmetric(A: Matrix, d: nat)
    requires IsMatrix(A, d, d)
  {
    forall i, j :: 0 <= i < d && 0 <= j < d ==> A[i][j] == A[j][i]
  }

  /** The inner product, peeled from the right. */
  function Dot(u: Vector, v: Vector): real
    requires |u| == |v|
  {
    if u == [] then 0.0 else Dot(u[..|u| - 1], v[..|v| - 1]) + u[|u| - 1] * v[|v| - 1]
  }

  function Add(u: Vector, v: Vector): Vector
    requires |u| == |v|
  {
    seq(|u|, i requires 0 <= i < |u| => u[i] + v[i])
  }

  function Scale(c: real, v: Vector): Vector
  {
    seq(|v|, i requires 0 <= i < |v| => c * v[i])
  }

  function Sub(u: Vector, v: Vector): Vector
    requires |u| == |v|
  {
    seq(|u|, i requires 0 <= i < |u| => u[i] - v[i])
  }

  function Zeros(d: nat): Vector
  {
    seq(d, i => 0.0)
  }

  /** The `j`-th unit vector of length `d`. */
  function Unit(d: nat, j: nat): Vector
  {
    seq(d, i => if i == j then 1.0 else 0.0)
  }

  /** `np.identity(d)`. */
  function Identity(d: nat): (I: Matrix)
    ensures IsMatrix(I, d, d)
  {
    seq(d, i requires 0 <= i < d => Unit(d, i))
  }

  /** Column `j` of `A`. */
  function Col(A: Matrix, j: nat): Vector
    requires forall i :: 0 <= i < |A| ==> j < |A[i]|
  {
    seq(|A|, i requires 0 <= i < |A| => A[i][j])
  }

  /** `A @ v` for a column vector `v`. */
  function MatVec(A: Matrix, v: Vector): (w: Vector)
    requires forall i :: 0 <= i < |A| ==> |A[i]| == |v|
    ensures |w| == |A|
  {
    seq(|A|, i requires 0 <= i < |A| => Dot(A[i], v))
  }

  /** `x @ A` for a row vector `x` and a matrix with `c` columns. */
  function VecMat(x: Vector, A: Matrix, c: nat): (w: Vector)
    requires IsMatrix(A, |x|, c)
    ensures |w| == c
  {
    seq(c, k requires 0 <= k < c => Dot(x, Col(A, k)))
  }

  /** The quadratic form `x @ A @ x.T`. */
  function Quad(A: Matrix, x: Vector): real
    requires IsMatrix(A, |x|, |x|)
  {
    Dot(x, MatVec(A, x))
  }

  /** `M @ G` is the identity. */
  predicate IsInverse(M: Matrix, G: Matrix, d: nat)
  {
    && IsMatrix(M, d, d)
    && IsMatrix(G, d, d)
    && forall i, j :: 0 <= i < d && 0 <= j < d ==>
         Dot(M[i], Col(G, j)) == (if i == j then 1.0 else 0.0)
  }

  /** `G + x.T @ x`: the Gram matrix after observing context `x`. */
  function AddOuter(G: Matrix, x: Vector): (G': Matrix)
    requires IsMatrix(G, |x|, |x|)
    ensures IsMatrix(G', |x|, |x|)
  {
    seq(|x|, i requires 0 <= i < |x| => Add(G[i], Scale(x[i], x)))
  }

  /** The rank-one update `A - (A @ x.T) @ (x @ A) / (1 + x @ A @ x.T)`. */
  function ShermanMorrison(A: Matrix, x: Vector): (A': Matrix)
    requires IsMatrix(A, |x|, |x|)
    requires 1.0 + Quad(A, x) != 0.0
    ensures IsMatrix(A', |x|, |x|)
  {
    var d := |x|;
    var u := MatVec(A, x);
    var w := VecMat(x, A, d);
    var den := 1.0 + Quad(A, x);
    seq(d, i requires 0 <= i < d => Sub(A[i], Scale(u[i] / den, w)))
  }

  // ---------------------------------------------------------------------------
  // Linearity of the inner product
  // ---------------------------------------------------------------------------

  lemma {:induction false} DotComm(u: Vector, v: Vector)
    requires |u| == |v|
    ensures Dot(u, v) == Dot(v, u)
  {
    if u != [] {
      DotComm(u[..|u| - 1], v[..|v| - 1]);
    }
  }

  lemma {:induction false} DotAdd(a: Vector, v: Vector, w: Vector)
    requires |a| == |v| == |w|
    ensures Dot(a, Add(v, w)) == Dot(a, v) + Dot(a, w)
  {
    if a != [] {
      var n := |a| - 1;
      assert Add(v, w)[..n] == Add(v[..n], w[..n]);
      DotAdd(a[..n], v[..n], w[..n]);
    }
  }

  lemma {:induction false} DotScale(a: Vector, c: real, v: Vector)
    requires |a| == |v|
    ensures Dot(a, Scale(c, v)) == c * Dot(a, v)
  {
    if a != [] {
      var n := |a| - 1;
      forall k | 0 <= k < n
        ensures Scale(c, v)[..n][k] == Scale(c, v[..n])[k]
      {
      }
      assert Scale(c, v)[..n] == Scale(c, v[..n]);
      DotScale(a[..n], c, v[..n]);
    }
  }

  /** Subtracting a multiple of `b` from the left factor. */
  lemma {:induction false} DotSubScaled(a: Vector, c: real, b: Vector, v: Vector)
    requires |a| == |b| == |v|
    ensures Dot(Sub(a, Scale(c, b)), v) == Dot(a, v) - c * Dot(b, v)
  {
    if a != [] {
      var n := |a| - 1;
      forall k | 0 <= k < n
        ensures Sub(a, Scale(c, b))[..n][k] == Sub(a[..n], Scale(c, b[..n]))[k]
      {
      }
      assert Sub(a, Scale(c, b))[..n] == Sub(a[..n], Scale(c, b[..n]));
      DotSubScaled(a[..n], c, b[..n], v[..n]);
    }
  }

  lemma {:induction false} DotZeros(v: Vector)
    ensures Dot(Zeros(|v|), v) == 0.0
  {
    if v != [] {
      var n := |v| - 1;
      assert Zeros(|v|)[..n] == Zeros(n);
      DotZeros(v[..n]);
    }
  }

  /** The inner product with a unit vector picks one entry. */
  lemma {:induction false} DotUnit(x: Vector, j: nat)
    requires j < |x|
    ensures Dot(x, Unit(|x|, j)) == x[j]
  {
    var n := |x| - 1;
    assert Unit(|x|, j)[..n] == Unit(n, j);
    if j < n {
      DotUnit(x[..n], j);
    } else {
      DotUnitOff(x[..n], j);
    }
  }

  /** A unit vector whose one entry lies beyond the end is zero. */
  lemma {:induction false} DotUnitOff(x: Vector, j: nat)
    requires j >= |x|
    ensures Dot(x, Unit(|x|, j)) == 0.0
  {
    if x != [] {
      var n := |x| - 1;
      assert Unit(|x|, j)[..n] == Unit(n, j);
      DotUnitOff(x[..n], j);
    }
  }

  // ---------------------------------------------------------------------------
  // Associativity of the products
  // ---------------------------------------------------------------------------

  /** `x @ A` split at the last row of `A`. */
  lemma VecMatPeel(x: Vector, A: Matrix, c: nat)
    requires IsMatrix(A, |x|, c) && x != []
    ensures var n := |x| - 1;
            VecMat(x, A, c) == Add(VecMat(x[..n], A[..n], c), Scale(x[n], A[n]))
  {
    var n := |x| - 1;
    var rest := VecMat(x[..n], A[..n], c);
    forall k | 0 <= k < c
      ensures VecMat(x, A, c)[k] == Add(rest, Scale(x[n], A[n]))[k]
    {
      assert Col(A, k)[..n] == Col(A[..n], k);
    }
  }

  /** The inner product is linear in its left factor too. */
  lemma {:induction false} DotAddScaledLeft(p: Vector, c: real, r: Vector, v: Vector)
    requires |p| == |r| == |v|
    ensures Dot(Add(p, Scale(c, r)), v) == Dot(p, v) + c * Dot(r, v)
  {
    if p != [] {
      var n := |p| - 1;
      forall k | 0 <= k < n
        ensures Add(p, Scale(c, r))[..n][k] == Add(p[..n], Scale(c, r[..n]))[k]
      {
      }
      assert Add(p, Scale(c, r))[..n] == Add(p[..n], Scale(c, r[..n]));
      DotAddScaledLeft(p[..n], c, r[..n], v[..n]);
    }
  }

  /** `(x @ A) @ v == x @ (A @ v)`. */
  lemma {:induction false} Interchange(x: Vector, A: Matrix, c: nat, v: Vector)
    requires IsMatrix(A, |x|, c) && |v| == c
    ensures Dot(VecMat(x, A, c), v) == Dot(x, MatVec(A, v))
    decreases |x|
  {
    if x == [] {
      assert VecMat(x, A, c) == Zeros(c);
      DotZeros(v);
      DotComm(Zeros(c), v);
    } else {
      var n := |x| - 1;
      var rest := VecMat(x[..n], A[..n], c);
      calc {
        Dot(VecMat(x, A, c), v);
        { VecMatPeel(x, A, c); }
        Dot(Add(rest, Scale(x[n], A[n])), v);
        { DotAddScaledLeft(rest, x[n], A[n], v); }
        Dot(rest, v) + x[n] * Dot(A[n], v);
        { Interchange(x[..n], A[..n], c, v); }
        Dot(x[..n], MatVec(A[..n], v)) + x[n] * Dot(A[n], v);
        { assert MatVec(A, v)[..n] == MatVec(A[..n], v); }
        Dot(x, MatVec(A, v));
      }
    }
  }

  // ---------------------------------------------------------------------------
  // Sherman-Morrison
  // ---------------------------------------------------------------------------

  lemma ColAddOuter(G: Matrix, x: Vector, j: nat)
    requires IsMatrix(G, |x|, |x|) && j < |x|
    ensures Col(AddOuter(G, x), j) == Add(Col(G, j), Scale(x[j], x))
  {
    forall i | 0 <= i < |x|
      ensures Col(AddOuter(G, x), j)[i] == Add(Col(G, j), Scale(x[j], x))[i]
    {
      assert x[i] * x[j] == x[j] * x[i];
    }
  }

  /** If `A @ G` is the identity then `A @ G[:, j]` is the `j`-th unit vector. */
  lemma InverseColumn(A: Matrix, G: Matrix, d: nat, j: nat)
    requires IsInverse(A, G, d) && j < d
    ensures MatVec(A, Col(G, j)) == Unit(d, j)
  {
  }

  lemma Cancel(delta: real, xj: real, ui: real, q: real)
    requires 1.0 + q != 0.0
    ensures delta + xj * ui - (ui / (1.0 + q)) * (xj + xj * q) == delta
  {
    calc {
      (ui / (1.0 + q)) * (xj + xj * q);
      (ui / (1.0 + q)) * ((1.0 + q) * xj);
      ui * xj;
    }
  }

  /** Row `i` of an inverse of `G` against column `j` of `G + x.T @ x`. */
  lemma RowAgainstColumn(A: Matrix, G: Matrix, x: Vector, i: nat, j: nat, delta: real)
    requires IsMatrix(A, |x|, |x|) && IsMatrix(G, |x|, |x|) && i < |x| && j < |x|
    requires Dot(A[i], Col(G, j)) == delta
    ensures Dot(A[i], Add(Col(G, j), Scale(x[j], x))) == delta + x[j] * MatVec(A, x)[i]
  {
    DotAdd(A[i], Col(G, j), Scale(x[j], x));
    DotScale(A[i], x[j], x);
  }

  /** `x @ A` against column `j` of `G + x.T @ x`, when `A @ G[:, j]` is
      the `j`-th unit vector. */
  lemma LeftAgainstColumn(A: Matrix, G: Matrix, x: Vector, j: nat)
    requires IsMatrix(A, |x|, |x|) && IsMatrix(G, |x|, |x|) && j < |x|
    requires MatVec(A, Col(G, j)) == Unit(|x|, j)
    ensures Dot(VecMat(x, A, |x|), Add(Col(G, j), Scale(x[j], x)))
            == x[j] + x[j] * Quad(A, x)
  {
    LeftAgainstGram(A, G, x, j);
    ColumnAlgebra(VecMat(x, A, |x|), Col(G, j), x, x[j]);
    Interchange(x, A, |x|, x);
    MulEqual(x[j], Dot(VecMat(x, A, |x|), x), Quad(A, x));
  }

  /** The linear identity behind `LeftAgainstColumn`. */
  lemma ColumnAlgebra(w: Vector, c: Vector, x: Vector, xj: real)
    requires |w| == |c| == |x| && Dot(w, c) == xj
    ensures Dot(w, Add(c, Scale(xj, x))) == xj + xj * Dot(w, x)
  {
    DotAdd(w, c, Scale(xj, x));
    DotScale(w, xj, x);
  }

  lemma MulEqual(a: real, b: real, c: real)
    requires b == c
    ensures a * b == a * c
  {
  }

  /** `x @ A @ G[:, j] == x[j]` when `A @ G[:, j]` is the `j`-th unit vector. */
  lemma LeftAgainstGram(A: Matrix, G: Matrix, x: Vector, j: nat)
    requires IsMatrix(A, |x|, |x|) && IsMatrix(G, |x|, |x|) && j < |x|
    requires MatVec(A, Col(G, j)) == Unit(|x|, j)
    ensures Dot(VecMat(x, A, |x|), Col(G, j)) == x[j]
  {
    Interchange(x, A, |x|, Col(G, j));
    DotUnit(x, j);
  }

  /** Row `i` of the update. */
  lemma ShermanMorrisonRow(A: Matrix, x: Vector, i: nat)
    requires IsMatrix(A, |x|, |x|) && 1.0 + Quad(A, x) != 0.0 && i < |x|
    ensures ShermanMorrison(A, x)[i]
            == Sub(A[i], Scale(MatVec(A, x)[i] / (1.0 + Quad(A, x)), VecMat(x, A, |x|)))
  {
  }

  /** The scalar identity behind one entry of the update. */
  lemma EntryAlgebra(a: Vector, w: Vector, col: Vector, delta: real, xj: real, ui: real, q: real)
    requires |a| == |w| == |col| && 1.0 + q != 0.0
    requires Dot(a, col) == delta + xj * ui
    requires Dot(w, col) == xj + xj * q
    ensures Dot(Sub(a, Scale(ui / (1.0 + q), w)), col) == delta
  {
    DotSubScaled(a, ui / (1.0 + q), w, col);
    Cancel(delta, xj, ui, q);
  }

  /** One entry of `ShermanMorrison(A, x) @ (G + x.T @ x)`, with the row
      and the column written out, from the two facts about `A @ G` it uses. */
  lemma ShermanMorrisonEntry(A: Matrix, G: Matrix, x: Vector, i: nat, j: nat, delta: real)
    requires IsMatrix(A, |x|, |x|) && IsMatrix(G, |x|, |x|) && 1.0 + Quad(A, x) != 0.0
    requires i < |x| && j < |x|
    requires Dot(A[i], Col(G, j)) == delta
    requires MatVec(A, Col(G, j)) == Unit(|x|, j)
    ensures Dot(Sub(A[i], Scale(MatVec(A, x)[i] / (1.0 + Quad(A, x)), VecMat(x, A, |x|))),
                Add(Col(G, j), Scale(x[j], x)))
            == delta
  {
    var u := MatVec(A, x);
    var w := VecMat(x, A, |x|);
    var q := Quad(A, x);
    var col := Add(Col(G, j), Scale(x[j], x));
    RowAgainstColumn(A, G, x, i, j, delta);
    LeftAgainstColumn(A, G, x, j);
    EntryAlgebra(A[i], w, col, delta, x[j], u[i], q);
  }

  /** Sherman-Morrison: the update of an inverse of `G` is an inverse of
      `G + x.T @ x`. */
  lemma ShermanMorrisonInverse(A: Matrix, G: Matrix, x: Vector)
    requires IsInverse(A, G, |x|) && 1.0 + Quad(A, x) != 0.0
    ensures IsInverse(ShermanMorrison(A, x), AddOuter(G, x), |x|)
  {
    forall i, j | 0 <= i < |x| && 0 <= j < |x|
      ensures Dot(ShermanMorrison(A, x)[i], Col(AddOuter(G, x), j)) == (if i == j then 1.0 else 0.0)
    {
      InverseColumn(A, G, |x|, j);
      ColAddOuter(G, x, j);
      ShermanMorrisonRow(A, x, i);
      ShermanMorrisonEntry(A, G, x, i, j, if i == j then 1.0 else 0.0);
    }
  }

  /** `M` is `A` less the outer product of `u` with itself, scaled by
      `1 / den`, row by row. */
  predicate RankOneRows(M: Matrix, A: Matrix, u: Vector, den: real, d: nat)
    requires IsMatrix(M, d, d) && IsMatrix(A, d, d) && |u| == d && den != 0.0
  {
    forall i :: 0 <= i < d ==> M[i] == Sub(A[i], Scale(u[i] / den, u))
  }

  /** For a symmetric matrix, where `x @ A` and `A @ x.T` agree, the update
      subtracts a scaled outer product of `A @ x.T` with itself. */
  lemma SymmetricShermanMorrisonRows(A: Matrix, x: Vector)
    requires IsMatrix(A, |x|, |x|) && Symmetric(A, |x|) && 1.0 + Quad(A, x) != 0.0
    ensures RankOneRows(ShermanMorrison(A, x), A, MatVec(A, x), 1.0 + Quad(A, x), |x|)
  {
    SymmetricVecMat(A, x);
    forall i | 0 <= i < |x|
      ensures ShermanMorrison(A, x)[i] == Sub(A[i], Scale(MatVec(A, x)[i] / (1.0 + Quad(A, x)), MatVec(A, x)))
    {
      ShermanMorrisonRow(A, x, i);
    }
  }

  /** Subtracting the scaled outer product of a vector with itself keeps a
      symmetric matrix symmetric. */
  lemma SymmetricRankOne(A: Matrix, M: Matrix, u: Vector, den: real, d: nat)
    requires IsMatrix(A, d, d) && IsMatrix(M, d, d) && |u| == d && den != 0.0
    requires Symmetric(A, d) && RankOneRows(M, A, u, den, d)
    ensures Symmetric(M, d)
  {
    forall i, j | 0 <= i < d && 0 <= j < d
      ensures M[i][j] == M[j][i]
    {
      assert M[i][j] == A[i][j] - u[i] / den * u[j];
      assert M[j][i] == A[j][i] - u[j] / den * u[i];
      assert u[i] / den * u[j] == u[j] / den * u[i];
    }
  }

  /** The update keeps a symmetric matrix symmetric. */
  lemma ShermanMorrisonSymmetric(A: Matrix, x: Vector)
    requires IsMatrix(A, |x|, |x|) && Symmetric(A, |x|) && 1.0 + Quad(A, x) != 0.0
    ensures Symmetric(ShermanMorrison(A, x), |x|)
  {
    SymmetricShermanMorrisonRows(A, x);
    SymmetricRankOne(A, ShermanMorrison(A, x), MatVec(A, x), 1.0 + Quad(A, x), |x|);
  }

  /** For a symmetric matrix, `x @ A == A @ x.T`. */
  lemma SymmetricVecMat(A: Matrix, x: Vector)
    requires IsMatrix(A, |x|, |x|) && Symmetric(A, |x|)
    ensures VecMat(x, A, |x|) == MatVec(A, x)
  {
    forall k | 0 <= k < |x|
      ensures VecMat(x, A, |x|)[k] == MatVec(A, x)[k]
    {
      assert Col(A, k) == A[k];
      DotComm(x, A[k]);
    }
  }

  /** The identity is its own inverse. */
  lemma IdentityInverse(d: nat)
    ensures IsInverse(Identity(d), Identity(d), d)
  {
    forall i, j | 0 <= i < d && 0 <= j < d
      ensures Dot(Identity(d)[i], Col(Identity(d), j)) == (if i == j then 1.0 else 0.0)
    {
      assert Col(Identity(d), j) == Unit(d, j);
      DotUnit(Unit(d, i), j);
    }
  }

  lemma IdentitySymmetric(d: nat)
    ensures Symmetric(Identity(d), d)
  {
  }
}

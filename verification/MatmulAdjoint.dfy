/** The matrix product: its reverse step, two products with transposed operands, is the adjoint of
    its forward-mode step. */
module MatmulAdjoint {
  import opened Wrappers
  import opened Shapes
  import opened Sums
  import opened Rules
  import opened Adjoint
  import D = Dense

  /** Entry (i, j) of a flat matrix with n columns. */
  ghost function Ent(flat: seq<real>, n: nat, i: int, j: int): real {
    At(flat, i * n + j)
  }

  ghost function Entry(flat: seq<real>, n: nat): (int, int) -> real {
    (i, j) => Ent(flat, n, i, j)
  }

  lemma CellEntry(t: Matrix, i: nat, j: nat)
    requires t.Valid() && |t.shape| == 2 && i < t.shape[0] && j < t.shape[1]
    ensures Ent(t.flat, t.shape[1], i, j) == D.Cell(t, i, j)
  {
    D.MatrixCount(t.shape);
    MulAddBound(i, t.shape[0], t.shape[1], j);
  }

  lemma JetEntry(t: Jet, i: nat, j: nat)
    requires t.Valid() && |t.shape| == 2 && i < t.shape[0] && j < t.shape[1]
    ensures D.Cell(t, i, j) == Dual(Ent(Primal(t).flat, t.shape[1], i, j), Ent(Tangent(t), t.shape[1], i, j))
    ensures D.Cell(Primal(t), i, j) == D.Cell(t, i, j).v
  {
    D.MatrixCount(t.shape);
    MulAddBound(i, t.shape[0], t.shape[1], j);
  }

  lemma {:induction false} ContractReal(x: Matrix, y: Matrix, i: nat, j: nat, k: nat)
    requires x.Valid() && y.Valid() && |x.shape| == 2 && |y.shape| == 2 && x.shape[1] == y.shape[0]
    requires i < x.shape[0] && j < y.shape[1] && k <= x.shape[1]
    ensures D.Contract(REAL, x, y, i, j, k) ==
            Sum(k, p => Times(Ent(x.flat, x.shape[1], i, p), Ent(y.flat, y.shape[1], p, j)))
    decreases k
  {
    hide ProductTo, CountFits, Ent, D.Cell;
    var f := p => Times(Ent(x.flat, x.shape[1], i, p), Ent(y.flat, y.shape[1], p, j));
    if k > 0 {
      ContractReal(x, y, i, j, k - 1);
      CellEntry(x, i, k - 1);
      CellEntry(y, k - 1, j);
      assert f(k - 1) == RealMul(D.Cell(x, i, k - 1), D.Cell(y, k - 1, j));
    }
  }

  /** The value component of the dual contraction is the real contraction. */
  lemma {:induction false} ContractPrimal(x: Jet, y: Jet, i: nat, j: nat, k: nat)
    requires x.Valid() && y.Valid() && |x.shape| == 2 && |y.shape| == 2 && x.shape[1] == y.shape[0]
    requires i < x.shape[0] && j < y.shape[1] && k <= x.shape[1]
    ensures D.Contract(DUAL, x, y, i, j, k).v == D.Contract(REAL, Primal(x), Primal(y), i, j, k)
    decreases k
  {
    hide ProductTo, CountFits, Ent, D.Cell, Primal, Tangent;
    if k > 0 {
      ContractPrimal(x, y, i, j, k - 1);
      JetEntry(x, i, k - 1);
      JetEntry(y, k - 1, j);
    }
  }

  /** The tangent component of the dual contraction is the product rule, term by term. */
  lemma {:induction false} ContractTangent(x: Jet, y: Jet, i: nat, j: nat, k: nat)
    requires x.Valid() && y.Valid() && |x.shape| == 2 && |y.shape| == 2 && x.shape[1] == y.shape[0]
    requires i < x.shape[0] && j < y.shape[1] && k <= x.shape[1]
    ensures D.Contract(DUAL, x, y, i, j, k).d
         == Sum(k, p => Times(Ent(Primal(x).flat, x.shape[1], i, p), Ent(Tangent(y), y.shape[1], p, j))
                      + Times(Ent(Tangent(x), x.shape[1], i, p), Ent(Primal(y).flat, y.shape[1], p, j)))
    decreases k
  {
    hide ProductTo, CountFits, Ent, D.Cell, Primal, Tangent, DualMul;
    var f := p => Times(Ent(Primal(x).flat, x.shape[1], i, p), Ent(Tangent(y), y.shape[1], p, j))
                + Times(Ent(Tangent(x), x.shape[1], i, p), Ent(Primal(y).flat, y.shape[1], p, j));
    if k > 0 {
      ContractTangent(x, y, i, j, k - 1);
      var l, r := D.Cell(x, i, k - 1), D.Cell(y, k - 1, j);
      assert D.Contract(DUAL, x, y, i, j, k) == DualAdd(D.Contract(DUAL, x, y, i, j, k - 1), DUAL.mul(l, r));
      assert DUAL.mul(l, r) == DualMul(l, r);
      TangentTerm(x, y, i, j, k - 1);
    }
  }

  lemma TangentTerm(x: Jet, y: Jet, i: nat, j: nat, p: nat)
    requires x.Valid() && y.Valid() && |x.shape| == 2 && |y.shape| == 2 && x.shape[1] == y.shape[0]
    requires i < x.shape[0] && j < y.shape[1] && p < x.shape[1]
    ensures DualMul(D.Cell(x, i, p), D.Cell(y, p, j)).d
         == Times(Ent(Primal(x).flat, x.shape[1], i, p), Ent(Tangent(y), y.shape[1], p, j))
          + Times(Ent(Tangent(x), x.shape[1], i, p), Ent(Primal(y).flat, y.shape[1], p, j))
  {
    hide ProductTo, CountFits, Ent, D.Cell, Primal, Tangent;
    JetEntry(x, i, p);
    JetEntry(y, p, j);
  }

  /** A flat inner product as a double sum over rows and columns. */
  lemma FlatDot(x: seq<real>, y: seq<real>, m: nat, n: nat, f: (int, int) -> real)
    requires |x| == m * n
    requires forall i, j :: 0 <= i < m && 0 <= j < n ==> f(i, j) == Times(Ent(x, n, i, j), Ent(y, n, i, j))
    ensures Dot(x, y) == Sum2(m, n, f)
  {
    hide At, Times;
    var product := o => Times(At(x, o), At(y, o));
    SumFlatten(m, n, product);
    var g := (i, j) => product(i * n + j);
    forall i, j | 0 <= i < m && 0 <= j < n ensures f(i, j) == g(i, j) {
      assert g(i, j) == Times(Ent(x, n, i, j), Ent(y, n, i, j));
    }
    Sum2Ext(m, n, f, g);
    RowsOf(m, n, product, g);
  }

  lemma RowsOf(m: nat, n: nat, product: int -> real, g: (int, int) -> real)
    requires forall i, j :: g(i, j) == product(i * n + j)
    ensures Sum(m, i => Sum(n, j => product(i * n + j))) == Sum2(m, n, g)
  {
    var left, right := i => Sum(n, j => product(i * n + j)), i => Sum(n, j => g(i, j));
    forall i | 0 <= i < m ensures left(i) == right(i) {
      SumExt(n, j => product(i * n + j), j => g(i, j));
    }
    SumExt(m, left, right);
  }

  lemma ProductCell<T>(A: D.Arith<T>, x: D.Dense<T>, y: D.Dense<T>, r: D.Dense<T>, i: nat, j: nat)
    requires x.Valid() && y.Valid() && D.Matmul(A, x, y) == Ok(r)
    requires i < x.shape[0] && j < y.shape[1]
    ensures 0 <= i * y.shape[1] + j < |r.flat|
    ensures r.flat[i * y.shape[1] + j] == D.Contract(A, x, y, i, j, x.shape[1])
  {
    hide D.Contract, CountFits, D.RowColumn;
    D.MatrixCount(r.shape);
    D.RowColumnOf(i, j, x.shape[0], y.shape[1]);
  }

  lemma ProductEntry(x: Matrix, y: Matrix, r: Matrix, i: nat, j: nat)
    requires x.Valid() && y.Valid() && D.Matmul(REAL, x, y) == Ok(r)
    requires i < x.shape[0] && j < y.shape[1]
    ensures Ent(r.flat, y.shape[1], i, j)
         == Sum(x.shape[1], p => Times(Ent(x.flat, x.shape[1], i, p), Ent(y.flat, y.shape[1], p, j)))
  {
    hide ProductTo, CountFits;
    ProductCell(REAL, x, y, r, i, j);
    ContractReal(x, y, i, j, x.shape[1]);
  }

  lemma TransposeEntry(x: Matrix, r: Matrix, i: nat, j: nat)
    requires x.Valid() && D.Transpose(x) == Ok(r) && i < x.shape[1] && j < x.shape[0]
    ensures Ent(r.flat, x.shape[0], i, j) == Ent(x.flat, x.shape[1], j, i)
  {
    D.MatrixCount(r.shape);
    D.RowColumnOf(i, j, x.shape[1], x.shape[0]);
    CellEntry(x, j, i);
  }

  /** Entries of the left gradient: rows of the upstream gradient against rows of b. */
  lemma LeftGradient(a: Matrix, b: Matrix, u: Matrix, bT: Matrix, r: Matrix, i: nat, p: nat)
    requires a.Valid() && b.Valid() && u.Valid() && |a.shape| == 2 && |b.shape| == 2 && a.shape[1] == b.shape[0]
    requires u.shape == [a.shape[0], b.shape[1]] && D.Transpose(b) == Ok(bT) && D.Matmul(REAL, u, bT) == Ok(r)
    requires i < a.shape[0] && p < a.shape[1]
    ensures Ent(r.flat, a.shape[1], i, p)
         == Sum(b.shape[1], j => Times(Ent(u.flat, b.shape[1], i, j), Ent(b.flat, b.shape[1], p, j)))
  {
    hide ProductTo, CountFits, Ent;
    ProductEntry(u, bT, r, i, p);
    var n := b.shape[1];
    var f := j => Times(Ent(u.flat, u.shape[1], i, j), Ent(bT.flat, bT.shape[1], j, p));
    forall j | 0 <= j < n ensures f(j) == Times(Ent(u.flat, n, i, j), Ent(b.flat, n, p, j)) {
      TransposeEntry(b, bT, j, p);
    }
    SumExt(n, f, j => Times(Ent(u.flat, n, i, j), Ent(b.flat, n, p, j)));
  }

  /** Entries of the right gradient: columns of a against columns of the upstream gradient. */
  lemma RightGradient(a: Matrix, b: Matrix, u: Matrix, aT: Matrix, r: Matrix, p: nat, j: nat)
    requires a.Valid() && b.Valid() && u.Valid() && |a.shape| == 2 && |b.shape| == 2 && a.shape[1] == b.shape[0]
    requires u.shape == [a.shape[0], b.shape[1]] && D.Transpose(a) == Ok(aT) && D.Matmul(REAL, aT, u) == Ok(r)
    requires p < b.shape[0] && j < b.shape[1]
    ensures Ent(r.flat, b.shape[1], p, j)
         == Sum(a.shape[0], i => Times(Ent(a.flat, a.shape[1], i, p), Ent(u.flat, b.shape[1], i, j)))
  {
    hide ProductTo, CountFits, Ent;
    ProductEntry(aT, u, r, p, j);
    var m, n := a.shape[0], b.shape[1];
    var f := i => Times(Ent(aT.flat, aT.shape[1], p, i), Ent(u.flat, u.shape[1], i, j));
    forall i | 0 <= i < m ensures f(i) == Times(Ent(a.flat, a.shape[1], i, p), Ent(u.flat, n, i, j)) {
      TransposeEntry(a, aT, p, i);
    }
    SumExt(m, f, i => Times(Ent(a.flat, a.shape[1], i, p), Ent(u.flat, n, i, j)));
  }

  lemma GradientsExist(a: Jet, b: Jet, u: Matrix)
    requires a.Valid() && b.Valid() && u.Valid() && |a.shape| == 2 && |b.shape| == 2 && a.shape[1] == b.shape[0]
    requires u.shape == [a.shape[0], b.shape[1]]
    ensures PullMatmul(Primal(a), Primal(b), u).Ok? && |PullMatmul(Primal(a), Primal(b), u).value| == 2
    ensures var r := PullMatmul(Primal(a), Primal(b), u).value;
      Fits(r[0], a) && Fits(r[1], b) &&
      D.Matmul(REAL, u, D.Transpose(Primal(b)).value) == Ok(r[0]) &&
          D.Matmul(REAL, D.Transpose(Primal(a)).value, u) == Ok(r[1])
  {
    hide ProductTo, CountFits;
    assert [a.shape[0], a.shape[1]] == a.shape && [b.shape[0], b.shape[1]] == b.shape;
  }

  /** The tangent of the product, entry by entry. */
  lemma ProductTangent(a: Jet, b: Jet, out: Jet, i: nat, j: nat)
    requires a.Valid() && b.Valid() && D.Matmul(DUAL, a, b) == Ok(out) && i < a.shape[0] && j < b.shape[1]
    ensures Ent(Tangent(out), b.shape[1], i, j)
         == Sum(a.shape[1], p => Times(Ent(Primal(a).flat, a.shape[1], i, p), Ent(Tangent(b), b.shape[1], p, j))
                               + Times(Ent(Tangent(a), a.shape[1], i, p), Ent(Primal(b).flat, b.shape[1], p, j)))
  {
    hide ProductTo, CountFits;
    ProductCell(DUAL, a, b, out, i, j);
    ContractTangent(a, b, i, j, a.shape[1]);
  }

  lemma MatmulAdjoint(a: Jet, b: Jet, out: Jet, u: Matrix)
    requires a.Valid() && b.Valid() && u.Valid() && u.shape == out.shape
    requires D.Matmul(DUAL, a, b) == Ok(out)
    ensures AdjointPair(PullMatmul(Primal(a), Primal(b), u), a, b, out, u)
  {
    hide ProductTo, CountFits, Dot, Sum2;
    var m, inner, n := a.shape[0], a.shape[1], b.shape[1];
    GradientsExist(a, b, u);
    var r := PullMatmul(Primal(a), Primal(b), u).value;
    var U, A, A', B, B' := Entry(u.flat, n), Entry(Primal(a).flat, inner), Entry(Tangent(a), inner),
                           Entry(Primal(b).flat, n), Entry(Tangent(b), n);
    ProductRuleAdjoint(m, inner, n, U, A, A', B, B');
    UpstreamPairing(a, b, out, u);
    LeftPairing(a, b, u, r[0]);
    RightPairing(a, b, u, r[1]);
  }

  lemma UpstreamPairing(a: Jet, b: Jet, out: Jet, u: Matrix)
    requires a.Valid() && b.Valid() && u.Valid() && u.shape == out.shape && D.Matmul(DUAL, a, b) == Ok(out)
    ensures var (inner, n) := (a.shape[1], b.shape[1]);
      var (U, A, A', B, B') := (Entry(u.flat, n), Entry(Primal(a).flat, inner), Entry(Tangent(a), inner),
                                Entry(Primal(b).flat, n), Entry(Tangent(b), n));
      Dot(u.flat, Tangent(out)) ==
        Sum2(a.shape[0], n, (i, j) => Times(U(i, j),
            Sum(inner, p => Times(A(i, p), B'(p, j)) + Times(A'(i, p), B(p, j)))))
  {
    hide ProductTo, CountFits, Ent, Primal, Tangent, Dot, Sum2;
    var m, inner, n := a.shape[0], a.shape[1], b.shape[1];
    var U, A, A', B, B' := Entry(u.flat, n), Entry(Primal(a).flat, inner), Entry(Tangent(a), inner),
                           Entry(Primal(b).flat, n), Entry(Tangent(b), n);
    var f := (i, j) => Times(U(i, j), Sum(inner, p => Times(A(i, p), B'(p, j)) + Times(A'(i, p), B(p, j))));
    D.MatrixCount(u.shape);
    forall i, j | 0 <= i < m && 0 <= j < n ensures f(i, j) == Times(Ent(u.flat, n, i, j), Ent(Tangent(out), n, i, j)) {
      ProductTangent(a, b, out, i, j);
      SumExt(inner, p => Times(A(i, p), B'(p, j)) + Times(A'(i, p), B(p, j)),
             p => Times(Ent(Primal(a).flat, a.shape[1], i, p), Ent(Tangent(b), b.shape[1], p, j))
                + Times(Ent(Tangent(a), a.shape[1], i, p), Ent(Primal(b).flat, b.shape[1], p, j)));
    }
    FlatDot(u.flat, Tangent(out), m, n, f);
  }

  lemma LeftPairing(a: Jet, b: Jet, u: Matrix, r: Matrix)
    requires a.Valid() && b.Valid() && u.Valid() && |a.shape| == 2 && |b.shape| == 2 && a.shape[1] == b.shape[0]
    requires u.shape == [a.shape[0], b.shape[1]]
    requires D.Matmul(REAL, u, D.Transpose(Primal(b)).value) == Ok(r)
    ensures var (inner, n) := (a.shape[1], b.shape[1]);
      var (U, A', B) := (Entry(u.flat, n), Entry(Tangent(a), inner), Entry(Primal(b).flat, n));
      Dot(r.flat, Tangent(a)) ==
          Sum2(a.shape[0], inner, (i, p) => Times(Sum(n, j => Times(U(i, j), B(p, j))), A'(i, p)))
  {
    hide ProductTo, CountFits, Ent, Primal, Tangent, Dot, Sum2;
    var m, inner, n := a.shape[0], a.shape[1], b.shape[1];
    var U, A', B := Entry(u.flat, n), Entry(Tangent(a), inner), Entry(Primal(b).flat, n);
    var f := (i, p) => Times(Sum(n, j => Times(U(i, j), B(p, j))), A'(i, p));
    D.MatrixCount(r.shape);
    forall i, p | 0 <= i < m && 0 <= p < inner
        ensures f(i, p) == Times(Ent(r.flat, inner, i, p), Ent(Tangent(a), inner, i, p)) {
      LeftGradient(Primal(a), Primal(b), u, D.Transpose(Primal(b)).value, r, i, p);
      SumExt(n, j => Times(U(i, j), B(p, j)), j => Times(Ent(u.flat, n, i, j), Ent(Primal(b).flat, n, p, j)));
    }
    FlatDot(r.flat, Tangent(a), m, inner, f);
  }

  lemma RightPairing(a: Jet, b: Jet, u: Matrix, r: Matrix)
    requires a.Valid() && b.Valid() && u.Valid() && |a.shape| == 2 && |b.shape| == 2 && a.shape[1] == b.shape[0]
    requires u.shape == [a.shape[0], b.shape[1]]
    requires D.Matmul(REAL, D.Transpose(Primal(a)).value, u) == Ok(r)
    ensures var (inner, n) := (a.shape[1], b.shape[1]);
      var (U, A, B') := (Entry(u.flat, n), Entry(Primal(a).flat, inner), Entry(Tangent(b), n));
      Dot(r.flat, Tangent(b)) ==
          Sum2(inner, n, (p, j) => Times(Sum(a.shape[0], i => Times(A(i, p), U(i, j))), B'(p, j)))
  {
    hide ProductTo, CountFits, Ent, Primal, Tangent, Dot, Sum2;
    var m, inner, n := a.shape[0], a.shape[1], b.shape[1];
    var U, A, B' := Entry(u.flat, n), Entry(Primal(a).flat, inner), Entry(Tangent(b), n);
    var f := (p, j) => Times(Sum(m, i => Times(A(i, p), U(i, j))), B'(p, j));
    D.MatrixCount(r.shape);
    forall p, j | 0 <= p < inner && 0 <= j < n
        ensures f(p, j) == Times(Ent(r.flat, n, p, j), Ent(Tangent(b), n, p, j)) {
      RightGradient(Primal(a), Primal(b), u, D.Transpose(Primal(a)).value, r, p, j);
      SumExt(m, i => Times(A(i, p), U(i, j)), i => Times(Ent(Primal(a).flat, inner, i, p), Ent(u.flat, n, i, j)));
    }
    FlatDot(r.flat, Tangent(b), inner, n, f);
  }
}

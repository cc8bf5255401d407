/** A whole tape: its replay over dual numbers, the reverse sweep as a function, and the theorem
    that the two agree on every tape. */
module Replay {
  import opened Wrappers
  import opened Shapes
  import opened Sums
  import opened Rules
  import opened Adjoint
  import M = MatmulAdjoint
  import D = Dense

  datatype Node = Node(op: Op, parents: seq<nat>, shape: seq<nat>)

  type Slots = seq<Option<Matrix>>

  // ----- the tape and its replay

  ghost predicate Below(parents: seq<nat>, n: nat) {
    forall p :: 0 <= p < |parents| ==> parents[p] < n
  }

  /** The entries of `values` that the parents name. */
  ghost function Pick<T>(values: seq<T>, parents: seq<nat>): (r: seq<T>)
    requires Below(parents, |values|)
    ensures |r| == |parents|
  {
    seq(|parents|, p requires 0 <= p < |parents| => values[parents[p]])
  }

  /** Node i was recorded from earlier nodes and holds what its operation computes from them. */
  ghost predicate RecordedAt(nodes: seq<Node>, values: seq<Matrix>, i: nat)
    requires |nodes| == |values| && i < |nodes|
  {
    var node := nodes[i];
    && values[i].Valid()
    && node.shape == values[i].shape
    && |node.parents| == Arity(node.op)
    && Below(node.parents, i)
    && (forall p :: 0 <= p < |node.parents| ==> values[node.parents[p]].Valid())
    && (node.op != Leaf ==> Forward(REAL, node.op, node.shape, Pick(values, node.parents)) == Ok(values[i]))
  }

  /** Every node of the tape is so recorded. */
  ghost predicate Recorded(nodes: seq<Node>, values: seq<Matrix>) {
    |nodes| == |values| && forall i :: 0 <= i < |nodes| ==> RecordedAt(nodes, values, i)
  }

  /** One tangent list per node; only those of leaves are used. */
  ghost predicate Seeds(values: seq<Matrix>, seeds: seq<seq<real>>) {
    |seeds| == |values| && forall i :: 0 <= i < |values| ==> |seeds[i]| == |values[i].flat|
  }

  ghost function Primals(ps: seq<Jet>): (r: seq<Matrix>)
    ensures |r| == |ps| && forall i :: 0 <= i < |ps| ==> r[i] == Primal(ps[i])
  {
    seq(|ps|, i requires 0 <= i < |ps| => Primal(ps[i]))
  }

  ghost function Seeded(value: Matrix, seed: seq<real>): (r: Jet)
    requires value.Valid() && |seed| == |value.flat|
    ensures r.Valid() && Primal(r) == value && Tangent(r) == seed
  {
    D.Dense(seq(|seed|, i requires 0 <= i < |seed| => Dual(value.flat[i], seed[i])), value.shape)
  }

  /** The first k nodes evaluated over dual numbers, leaves carrying their seeds. */
  ghost function Jets(nodes: seq<Node>, values: seq<Matrix>, seeds: seq<seq<real>>, k: nat): (r: seq<Jet>)
    requires Recorded(nodes, values) && Seeds(values, seeds) && k <= |nodes|
    ensures |r| == k && forall i :: 0 <= i < k ==> r[i].Valid() && Primal(r[i]) == values[i]
    decreases k
  {
    if k == 0 then []
    else
      var before := Jets(nodes, values, seeds, k - 1);
      var node := nodes[k - 1];
      assert RecordedAt(nodes, values, k - 1);
      if node.op == Leaf then before + [Seeded(values[k - 1], seeds[k - 1])]
      else
        var ps := Pick(before, node.parents);
        assert Primals(ps) == Pick(values, node.parents);
        ForwardPrimal(node.op, node.shape, ps, values[k - 1]);
        before + [Forward(DUAL, node.op, node.shape, ps).value]
  }

  // ----- the value components of a dual evaluation are the recorded values

  lemma ElementwisePrimal(a: Jet, b: Jet, op: (Dual, Dual) -> Dual, real_op: (real, real) -> real)
    requires a.Valid() && b.Valid()
    requires forall x, y :: op(x, y).v == real_op(x.v, y.v)
    requires D.Elementwise(Primal(a), Primal(b), real_op).Ok?
    ensures D.Elementwise(a, b, op).Ok?
    ensures Primal(D.Elementwise(a, b, op).value) == D.Elementwise(Primal(a), Primal(b), real_op).value
  {
    hide ProductTo, CountFits;
    var d, r := D.Elementwise(a, b, op).value, D.Elementwise(Primal(a), Primal(b), real_op).value;
    JoinBroadcasts(a.shape, b.shape);
    forall o | 0 <= o < |r.flat| ensures d.flat[o].v == r.flat[o] {
      SpreadPrimal(a, r.shape, o);
      SpreadPrimal(b, r.shape, o);
    }
    assert Primal(d).flat == r.flat;
  }

  lemma DividePrimal(a: Jet, b: Jet)
    requires a.Valid() && b.Valid() && D.Divide(REAL, Primal(a), Primal(b)).Ok?
    ensures D.Divide(DUAL, a, b).Ok?
    ensures Primal(D.Divide(DUAL, a, b).value) == D.Divide(REAL, Primal(a), Primal(b)).value
  {
    hide ProductTo, CountFits, RealDiv, DualDiv;
    forall x, y ensures DUAL.div(x, y).v == REAL.div(x.v, y.v) {
      DivPrimal(x, y);
    }
    ElementwisePrimal(a, b, DUAL.div, REAL.div);
    JoinBroadcasts(a.shape, b.shape);
    var out := Join(a.shape, b.shape);
    forall o {:trigger D.Spread(b, out, o)} | 0 <= o < Product(out) ensures !DUAL.isZero(D.Spread(b, out, o)) {
      SpreadPrimal(b, out, o);
      assert !REAL.isZero(D.Spread(Primal(b), out, o));
    }
  }

  lemma MatmulPrimal(a: Jet, b: Jet)
    requires a.Valid() && b.Valid() && D.Matmul(REAL, Primal(a), Primal(b)).Ok?
    ensures D.Matmul(DUAL, a, b).Ok?
    ensures Primal(D.Matmul(DUAL, a, b).value) == D.Matmul(REAL, Primal(a), Primal(b)).value
  {
    var d, r := D.Matmul(DUAL, a, b).value, D.Matmul(REAL, Primal(a), Primal(b)).value;
    forall o | 0 <= o < |r.flat| ensures d.flat[o].v == r.flat[o] {
      MatmulPrimalAt(a, b, o);
    }
    assert Primal(d).flat == r.flat;
  }

  lemma MatmulPrimalAt(a: Jet, b: Jet, o: nat)
    requires a.Valid() && b.Valid() && |a.shape| == 2 && |b.shape| == 2 && a.shape[1] == b.shape[0]
    requires o < Product([a.shape[0], b.shape[1]])
    ensures D.MatmulAt(DUAL, a, b, o).v == D.MatmulAt(REAL, Primal(a), Primal(b), o)
  {
    hide D.Contract, CountFits, D.RowColumn;
    D.MatrixCount([a.shape[0], b.shape[1]]);
    var cell := D.RowColumn(o, a.shape[0], b.shape[1]);
    M.ContractPrimal(a, b, cell.0, cell.1, a.shape[1]);
  }

  lemma ReductionPrimal(a: Jet)
    requires a.Valid()
    ensures Primal(D.Scalar(D.Summa(DUAL, a))) == D.Scalar(D.Summa(REAL, Primal(a)))
    ensures |a.flat| > 0 ==> Primal(D.Scalar(D.Media(DUAL, a).value)) == D.Scalar(D.Media(REAL, Primal(a)).value)
  {
    FoldDual(a, |a.flat|);
    if |a.flat| > 0 {
      DivPrimal(D.Summa(DUAL, a), DualLift(|a.flat| as real));
    }
  }

  lemma ScalaPrimal(a: Jet, factor: real)
    ensures Primal(D.Scala(DUAL, a, factor)) == D.Scala(REAL, Primal(a), factor)
  {
    var d, r := D.Scala(DUAL, a, factor), D.Scala(REAL, Primal(a), factor);
    forall i | 0 <= i < |r.flat| ensures d.flat[i].v == r.flat[i] {
      assert d.flat[i] == DualMul(a.flat[i], DualLift(factor));
      assert r.flat[i] == RealMul(a.flat[i].v, factor);
    }
    assert Primal(d).flat == r.flat;
  }

  lemma PermutePrimal(a: Jet, axes: seq<int>)
    requires a.Valid() && D.Permute(Primal(a), axes).Ok?
    ensures D.Permute(a, axes).Ok? && Primal(D.Permute(a, axes).value) == D.Permute(Primal(a), axes).value
  {
    var d, r := D.Permute(a, axes).value, D.Permute(Primal(a), axes).value;
    forall o | 0 <= o < |r.flat| ensures d.flat[o].v == r.flat[o] {
      assert d.flat[o] == a.flat[PermuteMap(a.shape, ToNats(axes))[o]];
    }
    assert Primal(d).flat == r.flat;
  }

  lemma SectioPrimal(a: Jet, start: int, end: int)
    requires a.Valid() && D.Sectio(Primal(a), start, end).Ok?
    ensures D.Sectio(a, start, end).Ok? &&
            Primal(D.Sectio(a, start, end).value) == D.Sectio(Primal(a), start, end).value
  {
    var d, r := D.Sectio(a, start, end).value, D.Sectio(Primal(a), start, end).value;
    forall o | 0 <= o < |r.flat| ensures d.flat[o].v == r.flat[o] {
      assert d.flat[o] == a.flat[SliceMap(r.shape, a.shape, start)[o]];
    }
    assert Primal(d).flat == r.flat;
  }

  lemma ForwardPrimal(op: Op, shape: seq<nat>, ps: seq<Jet>, value: Matrix)
    requires Inputs(op, shape, ps) && op != Leaf
    requires Forward(REAL, op, shape, Primals(ps)) == Ok(value)
    ensures Forward(DUAL, op, shape, ps).Ok?
    ensures Primal(Forward(DUAL, op, shape, ps).value) == value
  {
    hide ProductTo, CountFits, D.Elementwise, D.Divide, D.Matmul, D.Permute, D.Sectio, D.Scala;
    var out := Forward(DUAL, op, shape, ps);
    match op {
      case Add => ElementwisePrimal(ps[0], ps[1], DUAL.add, REAL.add);
      case Sub => ElementwisePrimal(ps[0], ps[1], DUAL.sub, REAL.sub);
      case Mul => ElementwisePrimal(ps[0], ps[1], DUAL.mul, REAL.mul);
      case Div => DividePrimal(ps[0], ps[1]);
      case Neg => assert Primal(out.value).flat == value.flat;
      case Relu => assert Primal(out.value).flat == value.flat;
      case Matmul => MatmulPrimal(ps[0], ps[1]);
      case Scala(factor) =>
        ScalaPrimal(ps[0], factor);
        assert Primal(out.value).flat == value.flat;
      case Forma => assert Primal(out.value).flat == value.flat;
      case Permute(axes) => PermutePrimal(ps[0], axes);
      case Sectio(start) => SectioPrimal(ps[0], start, start + if |shape| > 0 then shape[0] else 0);
      case Summa => ReductionPrimal(ps[0]);
      case Media => ReductionPrimal(ps[0]);
    }
  }

  // ----- one reverse step, for every operation

  /** The sum over parents of gradient paired with tangent. */
  ghost function PairingTo(gs: seq<Matrix>, ts: seq<Jet>, k: nat): real
    requires k <= |gs| == |ts|
  {
    if k == 0 then 0.0 else PairingTo(gs, ts, k - 1) + Dot(gs[k - 1].flat, Tangent(ts[k - 1]))
  }

  lemma LocalAdjoint(op: Op, shape: seq<nat>, ps: seq<Jet>, out: Jet, u: Matrix)
    requires Inputs(op, shape, ps) && op != Leaf && Forward(DUAL, op, shape, ps) == Ok(out)
    requires u.Valid() && u.shape == out.shape == shape
    ensures var r := Pullback(op, Primals(ps), Primal(out), u);
      && r.Ok? && |r.value| == |ps|
      && (forall p :: 0 <= p < |ps| ==> Fits(r.value[p], ps[p]))
      && Dot(u.flat, Tangent(out)) == PairingTo(r.value, ps, |ps|)
  {
    hide ProductTo, CountFits, Dot, Tangent, D.Elementwise, D.Divide, D.Matmul, D.Permute, D.Sectio, D.Scala;
    hide PullAdd, PullSub, PullMul, PullDiv, PullMatmul, PullRelu, PullForma, PullPermute, PullSumma, PullMedia,
        ScatterAxis0;
    var r := Pullback(op, Primals(ps), Primal(out), u);
    match op {
      case Add => AddAdjoint(ps[0], ps[1], out, u);
      case Sub => SubAdjoint(ps[0], ps[1], out, u);
      case Mul => MulAdjoint(ps[0], ps[1], out, u);
      case Div => DivAdjoint(ps[0], ps[1], out, u);
      case Matmul => M.MatmulAdjoint(ps[0], ps[1], out, u);
      case Neg => NegAdjoint(ps[0], u);
      case Relu => ReluAdjoint(ps[0], u);
      case Scala(factor) => ScalaAdjoint(ps[0], u, factor);
      case Forma => FormaAdjoint(ps[0], out, shape, u);
      case Permute(axes) => PermuteAdjoint(ps[0], out, axes, u);
      case Sectio(start) => SectioAdjoint(ps[0], out, start, start + if |shape| > 0 then shape[0] else 0, u);
      case Summa => SummaAdjoint(ps[0], u);
      case Media => MediaAdjoint(ps[0], u);
    }
    PairingUnfold(r.value, ps);
  }

  lemma PairingUnfold(gs: seq<Matrix>, ts: seq<Jet>)
    requires |gs| == |ts|
    ensures |gs| == 1 ==> PairingTo(gs, ts, 1) == Dot(gs[0].flat, Tangent(ts[0]))
    ensures |gs| == 2 ==> PairingTo(gs, ts, 2) == Dot(gs[0].flat, Tangent(ts[0])) + Dot(gs[1].flat, Tangent(ts[1]))
  {
    if |gs| > 0 {
      assert PairingTo(gs, ts, 0) == 0.0;
      assert PairingTo(gs, ts, 1) == PairingTo(gs, ts, 0) + Dot(gs[0].flat, Tangent(ts[0]));
    }
  }
}

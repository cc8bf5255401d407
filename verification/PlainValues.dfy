/** What every node of a tape holds, entry by entry, in plain arithmetic on the entries of its parents. */
module PlainValues {
  import opened Wrappers
  import opened Shapes
  import opened Sums
  import opened Rules
  import opened Replay
  import D = Dense
  import M = MatmulAdjoint

  /** The element at these coordinates. */
  ghost function Entry(m: Matrix, index: seq<nat>): real
    requires m.Valid() && ValidIndex(index, m.shape)
  {
    UnravelRavel(index, m.shape);
    m.flat[Ravel(index, m.shape)]
  }

  /** The k-th length from the end; a missing axis counts as one of length 1. */
  ghost function Dim(shape: seq<nat>, k: nat): nat
    requires k > 0
  {
    if k <= |shape| then shape[|shape| - k] else 1
  }

  /** The shapes are aligned at their last axes, where equal lengths stay and a 1 gives way. */
  ghost predicate JoinedShape(a: seq<nat>, b: seq<nat>, out: seq<nat>) {
    && |out| == (if |a| >= |b| then |a| else |b|)
    && forall k :: 1 <= k <= |out| ==>
         (Dim(a, k) == Dim(out, k) && Dim(b, k) == Dim(out, k)) ||
         (Dim(a, k) == 1 && Dim(b, k) == Dim(out, k)) || (Dim(b, k) == 1 && Dim(a, k) == Dim(out, k))
  }

  /** Where an operand of this shape is read for the coordinates `at` of a broadcast result. */
  ghost predicate Aligned(at: seq<nat>, shape: seq<nat>, from: seq<nat>) {
    && |from| == |shape| <= |at|
    && forall i :: 0 <= i < |shape| ==> from[i] == if shape[i] == 1 then 0 else at[i + (|at| - |shape|)]
  }

  /** `z` is what the operation makes of `x` and `y`. */
  ghost predicate Combines(op: Op, x: real, y: real, z: real) {
    match op
    case Add => z == x + y
    case Sub => z + y == x
    case Mul => z == x * y
    case Div => y != 0.0 && z * y == x
    case _ => true
  }

  ghost predicate Pointwise(op: Op, a: Matrix, b: Matrix, out: Matrix)
    requires a.Valid() && b.Valid() && out.Valid()
  {
    && JoinedShape(a.shape, b.shape, out.shape)
    && forall at, i, j :: CombinedAt(op, a, b, out, at, i, j)
  }

  /** At these coordinates of the result, read from those of the operands. */
  ghost predicate CombinedAt(op: Op, a: Matrix, b: Matrix, out: Matrix, at: seq<nat>, i: seq<nat>, j: seq<nat>)
    requires a.Valid() && b.Valid() && out.Valid()
  {
    ValidIndex(at, out.shape) && Aligned(at, a.shape, i) && Aligned(at, b.shape, j) ==>
      ValidIndex(i, a.shape) && ValidIndex(j, b.shape) && Combines(op, Entry(a, i), Entry(b, j), Entry(out, at))
  }

  /** Axis k of the result is axis `axes[k]` of the operand. */
  ghost predicate Moved(index: seq<nat>, axes: seq<int>, at: seq<nat>) {
    |at| == |axes| == |index| && forall k :: 0 <= k < |axes| ==> 0 <= axes[k] < |index| && at[k] == index[axes[k]]
  }

  ghost function Total(m: Matrix): real {
    Sum(|m.flat|, i => At(m.flat, i))
  }

  /** The value an operation records for these parents. */
  ghost predicate Means(op: Op, ps: seq<Matrix>, out: Matrix)
    requires |ps| == Arity(op) && out.Valid() && forall i :: 0 <= i < |ps| ==> ps[i].Valid()
  {
    match op
    case Leaf => true
    case Add | Sub | Mul | Div => Pointwise(op, ps[0], ps[1], out)
    case Neg => SameShape(ps[0], out) && forall i :: 0 <= i < |out.flat| ==> out.flat[i] + ps[0].flat[i] == 0.0
    case Relu =>
      SameShape(ps[0], out) &&
      forall i :: 0 <= i < |out.flat| ==>
        out.flat[i] >= 0.0 && out.flat[i] >= ps[0].flat[i] && (out.flat[i] == 0.0 || out.flat[i] == ps[0].flat[i])
    case Scala(factor) =>
      SameShape(ps[0], out) && forall i :: 0 <= i < |out.flat| ==> out.flat[i] == factor * ps[0].flat[i]
    case Matmul => IsProduct(ps[0], ps[1], out)
    case Forma => out.flat == ps[0].flat
    case Permute(axes) =>
      forall index, at :: ValidIndex(index, ps[0].shape) && Moved(index, axes, at) ==>
        ValidIndex(at, out.shape) && Entry(out, at) == Entry(ps[0], index)
    case Sectio(start) =>
      |out.shape| == |ps[0].shape| > 0 && start >= 0 &&
      forall at :: ValidIndex(at, out.shape) ==> IsRowOf(ps[0], start, out, at)
    case Summa => out.shape == [] && out.flat == [Total(ps[0])]
    case Media => out.shape == [] && |ps[0].flat| > 0 && out.flat[0] * |ps[0].flat| as real == Total(ps[0])
  }

  /** The entry of the result is the operand's entry `start` rows further. */
  ghost predicate IsRowOf(a: Matrix, start: nat, out: Matrix, at: seq<nat>)
    requires a.Valid() && out.Valid() && ValidIndex(at, out.shape) && |at| > 0
  {
    var index := at[0 := at[0] + start];
    ValidIndex(index, a.shape) && Entry(out, at) == Entry(a, index)
  }

  ghost predicate SameShape(a: Matrix, out: Matrix) {
    out.shape == a.shape && |out.flat| == |a.flat|
  }

  /** Entry (i, j) is the sum over p of a(i, p) * b(p, j). */
  ghost predicate IsProduct(a: Matrix, b: Matrix, out: Matrix) {
    && |a.shape| == 2 && |b.shape| == 2 && a.shape[1] == b.shape[0] && out.shape == [a.shape[0], b.shape[1]]
    && forall i, j {:trigger M.Ent(out.flat, b.shape[1], i, j)} :: 0 <= i < a.shape[0] && 0 <= j < b.shape[1] ==>
         M.Ent(out.flat, b.shape[1], i, j) ==
           Sum(a.shape[1], p => Times(M.Ent(a.flat, a.shape[1], i, p), M.Ent(b.flat, b.shape[1], p, j)))
  }

  // ----- broadcast operations

  lemma JoinIsJoined(a: seq<nat>, b: seq<nat>)
    requires Compatible(a, b)
    ensures JoinedShape(a, b, Join(a, b))
  {
    var rank := Max(|a|, |b|);
    forall k | 1 <= k <= rank
      ensures Dim(a, k) == BroadcastDim(a, rank, rank - k) && Dim(b, k) == BroadcastDim(b, rank, rank - k)
      ensures DimsAgree(Dim(a, k), Dim(b, k)) && Dim(Join(a, b), k) == JoinDim(Dim(a, k), Dim(b, k))
    {
      assert DimsAgree(BroadcastDim(a, rank, rank - k), BroadcastDim(b, rank, rank - k));
    }
  }

  lemma AlignedIsBroadcast(at: seq<nat>, out: seq<nat>, shape: seq<nat>, from: seq<nat>)
    requires ValidIndex(at, out) && BroadcastsTo(shape, out) && Aligned(at, shape, from)
    ensures from == BroadcastIndex(at, shape) && ValidIndex(from, shape)
  {
    assert from == BroadcastIndex(at, shape);
    BroadcastIndexValid(at, shape, out);
  }

  lemma SpreadReads(m: Matrix, out: seq<nat>, at: seq<nat>, from: seq<nat>)
    requires m.Valid() && BroadcastsTo(m.shape, out) && ValidIndex(at, out) && Aligned(at, m.shape, from)
    ensures ValidIndex(from, m.shape) && Ravel(at, out) < Product(out)
    ensures D.Spread(m, out, Ravel(at, out)) == Entry(m, from)
  {
    hide ProductTo, RavelTo, UnravelTo, CountFits;
    UnravelRavel(at, out);
    BroadcastMapAt(out, m.shape, Ravel(at, out));
    AlignedIsBroadcast(at, out, m.shape, from);
  }

  lemma ElementwiseEntry(a: Matrix, b: Matrix, f: (real, real) -> real, at: seq<nat>, i: seq<nat>, j: seq<nat>)
    requires a.Valid() && b.Valid() && D.Elementwise(a, b, f).Ok?
    requires ValidIndex(at, D.Elementwise(a, b, f).value.shape) && Aligned(at, a.shape, i) && Aligned(at, b.shape, j)
    ensures ValidIndex(i, a.shape) && ValidIndex(j, b.shape)
    ensures Entry(D.Elementwise(a, b, f).value, at) == f(Entry(a, i), Entry(b, j))
    ensures Ravel(at, Join(a.shape, b.shape)) < Product(Join(a.shape, b.shape))
    ensures BroadcastsTo(b.shape, Join(a.shape, b.shape))
    ensures D.Spread(b, Join(a.shape, b.shape), Ravel(at, Join(a.shape, b.shape))) == Entry(b, j)
  {
    hide ProductTo, RavelTo, UnravelTo, CountFits, D.Spread;
    JoinBroadcasts(a.shape, b.shape);
    SpreadReads(a, Join(a.shape, b.shape), at, i);
    SpreadReads(b, Join(a.shape, b.shape), at, j);
  }

  lemma ElementwiseCombines(op: Op, a: Matrix, b: Matrix, f: (real, real) -> real, at: seq<nat>, i: seq<nat>,
      j: seq<nat>)
    requires a.Valid() && b.Valid() && D.Elementwise(a, b, f).Ok?
    requires forall x, y :: (op == Div ==> y != 0.0) ==> Combines(op, x, y, f(x, y))
    requires op == Div ==> D.Divide(REAL, a, b).Ok?
    ensures CombinedAt(op, a, b, D.Elementwise(a, b, f).value, at, i, j)
  {
    var out := D.Elementwise(a, b, f).value;
    hide ProductTo, RavelTo, UnravelTo, CountFits, D.Elementwise, D.Divide, Combines, Aligned, Entry, ValidIndex;
    if ValidIndex(at, out.shape) && Aligned(at, a.shape, i) && Aligned(at, b.shape, j) {
      ElementwiseEntry(a, b, f, at, i, j);
      if op == Div {
        Divisor(a, b, Ravel(at, Join(a.shape, b.shape)));
      }
    }
  }

  lemma ElementwiseMeans(op: Op, a: Matrix, b: Matrix, f: (real, real) -> real)
    requires a.Valid() && b.Valid() && D.Elementwise(a, b, f).Ok?
    requires forall x, y :: (op == Div ==> y != 0.0) ==> Combines(op, x, y, f(x, y))
    requires op == Div ==> D.Divide(REAL, a, b).Ok?
    ensures Pointwise(op, a, b, D.Elementwise(a, b, f).value)
  {
    var out := D.Elementwise(a, b, f).value;
    JoinIsJoined(a.shape, b.shape);
    hide ProductTo, RavelTo, UnravelTo, CountFits, D.Elementwise, D.Divide, Combines, JoinedShape, CombinedAt;
    forall at, i, j ensures CombinedAt(op, a, b, out, at, i, j) {
      ElementwiseCombines(op, a, b, f, at, i, j);
    }
  }

  lemma Divisor(a: Matrix, b: Matrix, o: nat)
    requires a.Valid() && b.Valid() && D.Divide(REAL, a, b).Ok? && o < Product(Join(a.shape, b.shape))
    ensures BroadcastsTo(b.shape, Join(a.shape, b.shape)) && D.Spread(b, Join(a.shape, b.shape), o) != 0.0
  {
    hide ProductTo, CountFits, D.Spread;
    JoinBroadcasts(a.shape, b.shape);
    assert !RealIsZero(D.Spread(b, Join(a.shape, b.shape), o));
  }

  lemma DivideMeans(a: Matrix, b: Matrix)
    requires a.Valid() && b.Valid() && D.Divide(REAL, a, b).Ok?
    ensures Pointwise(Div, a, b, D.Divide(REAL, a, b).value)
  {
    hide D.Elementwise, Pointwise, ProductTo, CountFits;
    ElementwiseMeans(Div, a, b, RealDiv);
  }

  // ----- moving entries

  lemma PermuteMeans(a: Matrix, axes: seq<int>)
    requires a.Valid() && D.Permute(a, axes).Ok?
    ensures Means(Permute(axes), [a], D.Permute(a, axes).value)
  {
    hide ProductTo, RavelTo, UnravelTo, CountFits, IsPermutation;
    var order, out := ToNats(axes), D.Permute(a, axes).value;
    D.PermuteReads(a, order, out.shape);
    assert ToNats(order) == order;
    InverseAxesCorrect(order);
    forall index, at | ValidIndex(index, a.shape) && Moved(index, axes, at)
      ensures ValidIndex(at, out.shape) && Entry(out, at) == Entry(a, index)
    {
      assert ValidIndex(at, out.shape);
      UnravelRavel(at, out.shape);
      PlaceAt(order, at);
      forall j | 0 <= j < |index| ensures Place(order, at)[j] == index[j] {
        assert order[InverseAxes(order)[j]] == j;
      }
      assert Place(order, at) == index;
      PermuteMapAt(a.shape, order, Ravel(at, out.shape));
    }
  }

  lemma SectioEntry(a: Matrix, start: nat, end: nat, at: seq<nat>)
    requires a.Valid() && D.Sectio(a, start, end).Ok? && ValidIndex(at, D.Sectio(a, start, end).value.shape)
    ensures IsRowOf(a, start, D.Sectio(a, start, end).value, at)
  {
    hide ProductTo, RavelTo, UnravelTo, CountFits;
    var out := D.Sectio(a, start, end).value;
    ShiftedValid(at, out.shape, a.shape, start);
    UnravelRavel(at, out.shape);
    SliceMapAt(out.shape, a.shape, start, Ravel(at, out.shape));
  }

  lemma SectioMeans(a: Matrix, start: int, end: int)
    requires a.Valid() && D.Sectio(a, start, end).Ok?
    ensures Means(Sectio(start), [a], D.Sectio(a, start, end).value)
  {
    hide ProductTo, RavelTo, UnravelTo, CountFits, Entry, D.Sectio, IsRowOf, ValidIndexTo;
    var out := D.Sectio(a, start, end).value;
    forall at | ValidIndex(at, out.shape) ensures IsRowOf(a, start, out, at) {
      SectioEntry(a, start, end, at);
    }
  }

  lemma MatmulMeans(a: Matrix, b: Matrix)
    requires a.Valid() && b.Valid() && D.Matmul(REAL, a, b).Ok?
    ensures IsProduct(a, b, D.Matmul(REAL, a, b).value)
  {
    hide ProductTo, CountFits, D.Contract, D.RowColumn, Sum;
    var out := D.Matmul(REAL, a, b).value;
    var m, n := a.shape[0], b.shape[1];
    D.MatrixCount([m, n]);
    forall i, j | 0 <= i < m && 0 <= j < n
      ensures M.Ent(out.flat, n, i, j) ==
                Sum(a.shape[1], p => Times(M.Ent(a.flat, a.shape[1], i, p), M.Ent(b.flat, n, p, j)))
    {
      D.RowColumnOf(i, j, m, n);
      assert out.flat[i * n + j] == D.MatmulAt(REAL, a, b, i * n + j);
      M.ContractReal(a, b, i, j, a.shape[1]);
    }
  }

  // ----- reductions

  lemma {:induction false} FoldIsSum(flat: seq<real>, k: nat)
    requires k <= |flat|
    ensures D.FoldTo(REAL, flat, k) == Sum(k, i => At(flat, i))
  {
    if k > 0 {
      FoldIsSum(flat, k - 1);
    }
  }

  /** `summa` is the sum of the elements. */
  lemma SummaIsSum(a: Matrix)
    ensures D.Summa(REAL, a) == Sum(|a.flat|, i => At(a.flat, i))
  {
    FoldIsSum(a.flat, |a.flat|);
  }

  /** `media` times the number of elements is their sum; only of no elements there is none. */
  lemma MediaIsMean(a: Matrix)
    ensures D.Media(REAL, a).Err? <==> a.flat == []
    ensures D.Media(REAL, a).Ok? ==>
              D.Media(REAL, a).value * |a.flat| as real == Sum(|a.flat|, i => At(a.flat, i))
  {
    hide Sum;
    SummaIsSum(a);
    if a.flat != [] {
      DivTimes(D.Summa(REAL, a), |a.flat| as real);
    }
  }

  lemma DivTimes(x: real, y: real)
    requires y != 0.0
    ensures RealDiv(x, y) * y == x
  {
  }

  // ----- every node

  /** Whatever an operation succeeds with is what it means. */
  lemma ForwardMeans(op: Op, shape: seq<nat>, ps: seq<Matrix>)
    requires Inputs(op, shape, ps) && op != Leaf && Forward(REAL, op, shape, ps).Ok?
    ensures Means(op, ps, Forward(REAL, op, shape, ps).value)
  {
    hide ProductTo, RavelTo, UnravelTo, CountFits, D.Elementwise, D.Divide, D.Matmul, D.Permute, D.Sectio, Pointwise,
        Sum;
    hide IsProduct;
    match op {
      case Add | Sub | Mul => ArithmeticMeans(op, ps[0], ps[1]);
      case Div => DivideMeans(ps[0], ps[1]);
      case Matmul => MatmulMeans(ps[0], ps[1]);
      case Permute(axes) =>
        PermuteMeans(ps[0], axes);
        assert ps == [ps[0]];
      case Sectio(start) =>
        SectioMeans(ps[0], start, start + if |shape| > 0 then shape[0] else 0);
        assert ps == [ps[0]];
      case Summa => SummaIsSum(ps[0]);
      case Media => MediaIsMean(ps[0]);
      case Neg => MapMeans(op, ps[0], RealNeg);
      case Relu => MapMeans(op, ps[0], RealRelu);
      case Scala(factor) => ScalaMeans(ps[0], factor);
      case Forma =>
    }
  }

  lemma MapMeans(op: Op, a: Matrix, f: real -> real)
    requires a.Valid() && ((op == Neg && f == RealNeg) || (op == Relu && f == RealRelu))
    ensures Means(op, [a], D.Map(a, f))
  {
    hide ProductTo, CountFits;
  }

  lemma ScalaMeans(a: Matrix, factor: real)
    requires a.Valid()
    ensures Means(Scala(factor), [a], D.Scala(REAL, a, factor))
  {
    hide ProductTo, CountFits;
    forall i | 0 <= i < |a.flat| ensures D.Scala(REAL, a, factor).flat[i] == factor * a.flat[i] {
      Commute(a.flat[i], factor);
      assert REAL.mul(a.flat[i], REAL.lift(factor)) == RealMul(a.flat[i], factor);
    }
  }

  lemma Commute(x: real, y: real)
    ensures RealMul(x, y) == y * x
  {
  }

  ghost function RealOp(op: Op): (real, real) -> real {
    match op
    case Add => RealAdd
    case Sub => RealSub
    case _ => RealMul
  }

  lemma ArithmeticMeans(op: Op, a: Matrix, b: Matrix)
    requires (op == Add || op == Sub || op == Mul) && a.Valid() && b.Valid() && D.Elementwise(a, b, RealOp(op)).Ok?
    ensures Pointwise(op, a, b, D.Elementwise(a, b, RealOp(op)).value)
  {
    hide D.Elementwise, Pointwise, ProductTo, CountFits;
    ElementwiseMeans(op, a, b, RealOp(op));
  }

  /** Every node of every recorded tape holds the plain arithmetic of its operation on its parents. */
  lemma RecordedMeans(nodes: seq<Node>, values: seq<Matrix>, i: nat)
    requires Recorded(nodes, values) && i < |nodes|
    ensures Below(nodes[i].parents, |values|)
    ensures var ps := Pick(values, nodes[i].parents);
            |ps| == Arity(nodes[i].op) && (forall p :: 0 <= p < |ps| ==> ps[p].Valid()) && values[i].Valid() &&
            Means(nodes[i].op, ps, values[i])
  {
    hide Forward, Means;
    assert RecordedAt(nodes, values, i);
    if nodes[i].op == Leaf {
      LeafMeans(values[i]);
    } else {
      ForwardMeans(nodes[i].op, nodes[i].shape, Pick(values, nodes[i].parents));
    }
  }

  lemma LeafMeans(out: Matrix)
    requires out.Valid()
    ensures Means(Leaf, [], out)
  {
  }
}

/** Forward and reverse rules of the tape operations. Forward is generic in the element
    arithmetic, so that one definition gives both the recorded values (over the reals) and the
    forward-mode tangents (over dual numbers). Pullback is what one reverse step contributes to
    each parent. */
module Rules {
  import opened Wrappers
  import opened Shapes
  import opened Sums
  import D = Dense

  datatype Op =
    | Leaf
    | Add
    | Sub
    | Mul
    | Div
    | Neg
    | Relu
    | Matmul
    | Scala(factor: real)
    | Forma
    | Permute(axes: seq<int>)
    | Sectio(start: int)
    | Summa
    | Media

  datatype UnsupportedOp = Mutation | View | HostAbi | Session

  datatype AutogradError =
    | Tensor(error: D.TensorError)
    | ShapeMismatch
    | MissingNode
    | ForeignTapeValue
    | BackwardRequiresScalar
    | Unsupported(op: UnsupportedOp)

  type Matrix = D.Dense<real>

  type GradientResult = Result<Matrix, AutogradError>

  // ----- the two element arithmetics

  function RealAdd(x: real, y: real): real { x + y }
  function RealSub(x: real, y: real): real { x - y }
  function RealMul(x: real, y: real): real { x * y }
  function RealDiv(x: real, y: real): real { if y == 0.0 then 0.0 else x / y }
  function RealNeg(x: real): real { -x }
  function RealRelu(x: real): real { if x > 0.0 then x else 0.0 }
  predicate RealIsZero(x: real) { x == 0.0 }
  function RealLift(x: real): real { x }

  const REAL: D.Arith<real> := D.Arith(0.0, RealLift, RealAdd, RealSub, RealMul, RealDiv, RealNeg, RealRelu, RealIsZero)

  /** value + epsilon * tangent, to first order in epsilon. */
  datatype Dual = Dual(v: real, d: real)

  function DualAdd(x: Dual, y: Dual): Dual { Dual(x.v + y.v, x.d + y.d) }
  function DualSub(x: Dual, y: Dual): Dual { Dual(x.v - y.v, x.d - y.d) }
  function DualMul(x: Dual, y: Dual): Dual { Dual(x.v * y.v, x.v * y.d + x.d * y.v) }
  function DualDiv(x: Dual, y: Dual): Dual {
    if y.v == 0.0 then Dual(0.0, 0.0)
    else Dual(x.v / y.v, (x.d * y.v - x.v * y.d) / (y.v * y.v))
  }
  function DualNeg(x: Dual): Dual { Dual(-x.v, -x.d) }
  function DualRelu(x: Dual): Dual { if x.v > 0.0 then x else Dual(0.0, 0.0) }
  predicate DualIsZero(x: Dual) { x.v == 0.0 }
  function DualLift(x: real): Dual { Dual(x, 0.0) }

  const DUAL: D.Arith<Dual> :=
      D.Arith(Dual(0.0, 0.0), DualLift, DualAdd, DualSub, DualMul, DualDiv, DualNeg, DualRelu, DualIsZero)

  /** Evaluating at value + epsilon * tangent, the dual product agrees with the real product, and
      the dual quotient times the real divisor with the real dividend, up to a term with a factor
      epsilon squared: the tangent component is the derivative along the operands' tangents. */
  lemma DualIsFirstOrder(x: Dual, y: Dual, epsilon: real)
    ensures (x.v + epsilon * x.d) * (y.v + epsilon * y.d)
         == DualMul(x, y).v + epsilon * DualMul(x, y).d + epsilon * epsilon * (x.d * y.d)
    ensures y.v != 0.0 ==>
      (DualDiv(x, y).v + epsilon * DualDiv(x, y).d) * (y.v + epsilon * y.d)
         == x.v + epsilon * x.d + epsilon * epsilon * (DualDiv(x, y).d * y.d)
  {
    ProductExpansion(x.v, x.d, y.v, y.d, epsilon);
    if y.v != 0.0 {
      var q, t := DualDiv(x, y).v, DualDiv(x, y).d;
      QuotientTangent(x, y);
      ProductExpansion(q, t, y.v, y.d, epsilon);
      assert epsilon * (q * y.d + t * y.v) == epsilon * x.d;
    }
  }

  /** Sum, difference and negation have their tangents exactly; relu has its for every step that does not
      cross zero. */
  lemma DualIsExact(x: Dual, y: Dual, epsilon: real)
    ensures x.v + epsilon * x.d + (y.v + epsilon * y.d) == DualAdd(x, y).v + epsilon * DualAdd(x, y).d
    ensures x.v + epsilon * x.d - (y.v + epsilon * y.d) == DualSub(x, y).v + epsilon * DualSub(x, y).d
    ensures -(x.v + epsilon * x.d) == DualNeg(x).v + epsilon * DualNeg(x).d
    ensures x.v > 0.0 && x.v + epsilon * x.d > 0.0 ==>
              x.v + epsilon * x.d == DualRelu(x).v + epsilon * DualRelu(x).d
    ensures x.v <= 0.0 && x.v + epsilon * x.d <= 0.0 ==> 0.0 == DualRelu(x).v + epsilon * DualRelu(x).d
  {
    assert epsilon * (x.d + y.d) == epsilon * x.d + epsilon * y.d;
    assert epsilon * (x.d - y.d) == epsilon * x.d - epsilon * y.d;
    assert epsilon * -x.d == -(epsilon * x.d);
  }

  lemma ProductExpansion(a: real, a': real, b: real, b': real, e: real)
    ensures (a + e * a') * (b + e * b') == a * b + e * (a * b' + a' * b) + e * e * (a' * b')
  {
    assert (a + e * a') * (b + e * b') == a * (b + e * b') + e * a' * (b + e * b');
    assert e * a' * (e * b') == e * e * (a' * b');
  }

  lemma CancelRight(x: real, y: real, b: real)
    requires b != 0.0 && x * b == y * b
    ensures x == y
  {
    assert (x - y) * b == 0.0;
  }

  lemma QuotientTangent(x: Dual, y: Dual)
    requires y.v != 0.0
    ensures DualDiv(x, y).d * y.v == x.d - x.v / y.v * y.d
  {
    var n, q := x.d * y.v - x.v * y.d, x.v / y.v;
    var t := n / (y.v * y.v);
    assert t * (y.v * y.v) == n;
    assert q * y.v == x.v;
    assert t * y.v * y.v == (x.d - q * y.d) * y.v;
    CancelRight(t * y.v, x.d - q * y.d, y.v);
  }

  // ----- forward

  function Arity(op: Op): nat {
    match op
    case Leaf => 0
    case Add | Sub | Mul | Div | Matmul => 2
    case _ => 1
  }

  ghost predicate Inputs<T>(op: Op, shape: seq<nat>, ps: seq<D.Dense<T>>) {
    |ps| == Arity(op) && Words(shape) && forall i :: 0 <= i < |ps| ==> ps[i].Valid()
  }

  function Lifted<T>(r: Result<T, D.TensorError>): Result<D.Dense<T>, D.TensorError> {
    match r
    case Ok(x) => Ok(D.Scalar(x))
    case Err(e) => Err(e)
  }

  /** What the recording method of `op` computes from its parents; `shape` is the recorded shape,
      from which a reshape takes its target and a slice its length. */
  ghost function Forward<T>(A: D.Arith<T>, op: Op, shape: seq<nat>, ps: seq<D.Dense<T>>): (r: D.TensorResult<T>)
    requires Inputs(op, shape, ps) && op != Leaf
    ensures r.Ok? ==> r.value.Valid()
  {
    match op
    case Add => D.Elementwise(ps[0], ps[1], A.add)
    case Sub => D.Elementwise(ps[0], ps[1], A.sub)
    case Mul => D.Elementwise(ps[0], ps[1], A.mul)
    case Div => D.Divide(A, ps[0], ps[1])
    case Neg => Ok(D.Map(ps[0], A.neg))
    case Relu => Ok(D.Map(ps[0], A.relu))
    case Matmul => D.Matmul(A, ps[0], ps[1])
    case Scala(factor) => Ok(D.Scala(A, ps[0], factor))
    case Forma => D.Forma(ps[0], shape)
    case Permute(axes) => D.Permute(ps[0], axes)
    case Sectio(start) => D.Sectio(ps[0], start, start + if |shape| > 0 then shape[0] else 0)
    case Summa => Ok(D.Scalar(D.Summa(A, ps[0])))
    case Media => Lifted(D.Media(A, ps[0]))
  }

  // ----- reverse

  function Lower<T>(r: Result<T, D.TensorError>): Result<T, AutogradError> {
    match r
    case Ok(x) => Ok(x)
    case Err(e) => Err(Tensor(e))
  }

  function Scaled(a: Matrix, c: real): (r: Matrix)
    ensures a.Valid() ==> r.Valid()
    ensures r.shape == a.shape && |r.flat| == |a.flat|
  {
    D.Dense(seq(|a.flat|, i requires 0 <= i < |a.flat| => RealMul(a.flat[i], c)), a.shape)
  }

  /** `reduce_broadcast_gradient`: add every upstream element into the position it was read from. */
  ghost function ReduceBroadcast(u: Matrix, target: seq<nat>): (r: GradientResult)
    requires u.Valid()
    ensures r.Ok? <==> BroadcastsTo(target, u.shape) && CountFits(target)
    ensures r.Ok? ==> r.value.shape == target && |r.value.flat| == Product(target)
  {
    if !BroadcastsTo(target, u.shape) || !CountFits(target) then Err(ShapeMismatch)
    else Ok(D.Dense(Scatter(u.flat, BroadcastMap(u.shape, target), Product(target)), target))
  }

  /** `scatter_axis0_gradient`: add the slice gradient into the rows the slice came from. */
  ghost function ScatterAxis0(u: Matrix, target: seq<nat>, start: int): (r: GradientResult)
    requires u.Valid()
    ensures r.Ok? <==> start >= 0 && SliceOf(u.shape, target, start) && CountFits(target)
    ensures r.Ok? ==> r.value.shape == target && |r.value.flat| == Product(target)
  {
    if start < 0 || !SliceOf(u.shape, target, start) || !CountFits(target) then Err(ShapeMismatch)
    else Ok(D.Dense(Scatter(u.flat, SliceMap(u.shape, target, start), Product(target)), target))
  }

  function PositiveMask(a: Matrix): (r: Matrix)
    ensures a.Valid() ==> r.Valid()
  {
    D.Dense(seq(|a.flat|, i requires 0 <= i < |a.flat| => if a.flat[i] > 0.0 then 1.0 else 0.0), a.shape)
  }

  type Pulled = Result<seq<Matrix>, AutogradError>

  ghost function PullAdd(a: Matrix, b: Matrix, u: Matrix): Pulled
    requires a.Valid() && b.Valid() && u.Valid()
  {
    var lhs :- ReduceBroadcast(u, a.shape);
    var rhs :- ReduceBroadcast(u, b.shape);
    Ok([lhs, rhs])
  }

  ghost function PullSub(a: Matrix, b: Matrix, u: Matrix): Pulled
    requires a.Valid() && b.Valid() && u.Valid()
  {
    var lhs :- ReduceBroadcast(u, a.shape);
    var rhs :- ReduceBroadcast(Scaled(u, -1.0), b.shape);
    Ok([lhs, rhs])
  }

  ghost function PullMul(a: Matrix, b: Matrix, u: Matrix): Pulled
    requires a.Valid() && b.Valid() && u.Valid()
  {
    var byRhs :- Lower(D.Elementwise(u, b, RealMul));
    var lhs :- ReduceBroadcast(byRhs, a.shape);
    var byLhs :- Lower(D.Elementwise(u, a, RealMul));
    var rhs :- ReduceBroadcast(byLhs, b.shape);
    Ok([lhs, rhs])
  }

  ghost function PullDiv(a: Matrix, b: Matrix, u: Matrix): Pulled
    requires a.Valid() && b.Valid() && u.Valid()
  {
    var overRhs :- Lower(D.Divide(REAL, u, b));
    var lhs :- ReduceBroadcast(overRhs, a.shape);
    var negated :- PullQuotient(a, b, u);
    var rhs :- ReduceBroadcast(negated, b.shape);
    Ok([lhs, rhs])
  }

  /** -(u * (a / b)) / b, before it is reduced to the shape of b. */
  ghost function PullQuotient(a: Matrix, b: Matrix, u: Matrix): (r: GradientResult)
    requires a.Valid() && b.Valid() && u.Valid()
    ensures r.Ok? ==> r.value.Valid()
  {
    var quotient :- Lower(D.Divide(REAL, a, b));
    var numerator :- Lower(D.Elementwise(u, quotient, RealMul));
    Lower(D.Divide(REAL, Scaled(numerator, -1.0), b))
  }

  ghost function PullMatmul(a: Matrix, b: Matrix, u: Matrix): Pulled
    requires a.Valid() && b.Valid() && u.Valid()
  {
    var rhsT :- Lower(D.Transpose(b));
    var lhsT :- Lower(D.Transpose(a));
    var lhs :- Lower(D.Matmul(REAL, u, rhsT));
    var rhs :- Lower(D.Matmul(REAL, lhsT, u));
    Ok([lhs, rhs])
  }

  ghost function PullRelu(own: Matrix, u: Matrix): GradientResult
    requires own.Valid() && u.Valid()
  {
    Lower(D.Elementwise(u, PositiveMask(own), RealMul))
  }

  ghost function PullForma(a: Matrix, u: Matrix): GradientResult
    requires a.Valid() && u.Valid()
  {
    Lower(D.Forma(u, a.shape))
  }

  ghost function PullPermute(axes: seq<int>, u: Matrix): GradientResult
    requires u.Valid()
  {
    if !PermutationAxes(axes) then Err(ShapeMismatch) else Lower(D.Permute(u, InverseAxes(ToNats(axes))))
  }

  ghost function PullSumma(a: Matrix, u: Matrix): GradientResult
    requires a.Valid() && u.Valid()
  {
    if |u.shape| != 0 then Err(BackwardRequiresScalar) else Lower(D.Crea(a.shape, u.flat[0]))
  }

  ghost function PullMedia(a: Matrix, u: Matrix): GradientResult
    requires a.Valid() && u.Valid()
  {
    if |u.shape| != 0 then Err(BackwardRequiresScalar)
    else if |a.flat| == 0 then Err(Tensor(D.MediaEmpty))
    else Lower(D.Crea(a.shape, u.flat[0] / (|a.flat| as real)))
  }

  function Only<T, E>(r: Result<T, E>): Result<seq<T>, E> {
    match r
    case Ok(x) => Ok([x])
    case Err(e) => Err(e)
  }

  /** The gradients one reverse step adds to its parents, in order. `own` is the recorded value of
      the node itself, `u` the gradient accumulated for it. */
  ghost function Pullback(op: Op, ps: seq<Matrix>, own: Matrix, u: Matrix): Pulled
    requires |ps| == Arity(op) && forall i :: 0 <= i < |ps| ==> ps[i].Valid()
    requires own.Valid() && u.Valid()
  {
    match op
    case Leaf => Ok([])
    case Add => PullAdd(ps[0], ps[1], u)
    case Sub => PullSub(ps[0], ps[1], u)
    case Mul => PullMul(ps[0], ps[1], u)
    case Div => PullDiv(ps[0], ps[1], u)
    case Neg => Ok([D.Map(u, RealNeg)])
    case Relu => Only(PullRelu(own, u))
    case Matmul => PullMatmul(ps[0], ps[1], u)
    case Scala(factor) => Ok([Scaled(u, factor)])
    case Forma => Only(PullForma(ps[0], u))
    case Permute(axes) => Only(PullPermute(axes, u))
    case Sectio(start) => Only(ScatterAxis0(u, ps[0].shape, start))
    case Summa => Only(PullSumma(ps[0], u))
    case Media => Only(PullMedia(ps[0], u))
  }
}

/** The gradient kernels, the reverse step of every operation and the gradient slots. Every method is
    proved against the functions of Rules and Sweep. */
module Autograd {
  import opened Wrappers
  import opened Shapes
  import opened Sums
  import opened Rules
  import opened Replay
  import opened Tensors
  import K = Tensors
  import D = Dense
  import S = Sweep

  type RealTensor = Tensors.Tensor<real>

  type Gradient = Result<RealTensor, AutogradError>

  /** An owned tensor stands for this matrix. */
  ghost predicate StandsFor(t: RealTensor, m: Matrix) {
    Contiguous(t) && WellFormed(t) && Logical(t) == m
  }

  ghost predicate Computes(r: Gradient, s: GradientResult) {
    match s
    case Err(error) => r == Err(error)
    case Ok(m) => r.Ok? && StandsFor(r.value, m)
  }

  ghost predicate ComputesAll(r: Result<seq<RealTensor>, AutogradError>, s: Pulled) {
    match s
    case Err(error) => r == Err(error)
    case Ok(ms) => r.Ok? && |r.value| == |ms| && forall p :: 0 <= p < |ms| ==> StandsFor(r.value[p], ms[p])
  }

  function Lift(r: KernelResult<real>): Gradient {
    match r
    case Ok(t) => Ok(t)
    case Err(e) => Err(Rules.Tensor(e))
  }

  /** A shape some allocated tensor has. */
  ghost predicate Sized(shape: seq<nat>) {
    Words(shape) && Product(shape) <= ISIZE_MAX / 4
  }

  lemma ShapeSized<T>(t: Tensors.Tensor<T>)
    requires WellFormed(t)
    ensures Sized(t.shape) && D.FitsI64(t.shape) && Logical(t).shape == t.shape
  {
  }

  // ----- gradient kernels

  method ScaleTensor(t: RealTensor, c: real) returns (r: RealTensor)
    requires WellFormed(t)
    ensures StandsFor(r, Scaled(Logical(t), c))
  {
    var flat := Planata(t);
    r := FromContiguous(seq(|flat|, i requires 0 <= i < |flat| => RealMul(flat[i], c)), t.shape);
  }

  /** Where `reduce_broadcast_gradient` adds the upstream element at this ordinal. */
  method ReducedOffset(ordinal: nat, shape: seq<nat>, target: seq<nat>) returns (offset: nat)
    requires BroadcastsTo(target, shape) && ordinal < Product(shape)
    ensures offset == BroadcastMap(shape, target)[ordinal]
  {
    var index := UnravelIndex(ordinal, shape);
    BroadcastMapAt(shape, target, ordinal);
    offset := Ravel(BroadcastIndex(index, target), target);
  }

  /** Where `scatter_axis0_gradient` adds it. */
  method SlicedOffset(ordinal: nat, shape: seq<nat>, target: seq<nat>, start: nat) returns (offset: nat)
    requires SliceOf(shape, target, start) && ordinal < Product(shape)
    ensures offset == SliceMap(shape, target, start)[ordinal]
  {
    var index := UnravelIndex(ordinal, shape);
    SliceMapAt(shape, target, start, ordinal);
    offset := Ravel(Shifted(index, start), target);
  }

  /** The loop of `reduce_broadcast_gradient`. */
  method ReduceBroadcastGradient(upstream: RealTensor, target: seq<nat>) returns (r: Gradient)
    requires WellFormed(upstream) && Sized(target)
    ensures Computes(r, ReduceBroadcast(Logical(upstream), target))
  {
    hide ProductTo, CountFits, Logical, WellFormed;
    ghost var u := Logical(upstream);
    var compatible, joined := BroadcastShape(target, upstream.shape);
    JoinAbsorbs(target, upstream.shape);
    if !compatible || joined != upstream.shape {
      return Err(ShapeMismatch);
    }
    var fits, count := CheckedElementCount(target);
    if !fits {
      return Err(ShapeMismatch);
    }
    hide Sized;
    var data := new real[count](_ => 0.0);
    var flat := Planata(upstream);
    hide BroadcastMap;
    for ordinal := 0 to |flat|
      invariant data[..] == ScatterTo(u.flat, BroadcastMap(u.shape, target), count, ordinal)
    {
      var offset := ReducedOffset(ordinal, upstream.shape, target);
      data[offset] := data[offset] + flat[ordinal];
    }
    var t := FromContiguous(data[..], target);
    r := Ok(t);
  }

  /** The loop of `scatter_axis0_gradient`. */
  method ScatterAxis0Gradient(upstream: RealTensor, target: seq<nat>, start: int) returns (r: Gradient)
    requires WellFormed(upstream) && Sized(target)
    ensures Computes(r, ScatterAxis0(Logical(upstream), target, start))
  {
    hide ProductTo, CountFits, Logical, WellFormed;
    ghost var u := Logical(upstream);
    if start < 0 || |target| == 0 || |upstream.shape| != |target| ||
       (exists i :: 1 <= i < |target| && upstream.shape[i] != target[i]) || start + upstream.shape[0] > target[0] {
      return Err(ShapeMismatch);
    }
    var fits, count := CheckedElementCount(target);
    if !fits {
      return Err(ShapeMismatch);
    }
    var data := new real[count](_ => 0.0);
    var flat := Planata(upstream);
    for ordinal := 0 to |flat|
      invariant data[..] == ScatterTo(u.flat, SliceMap(u.shape, target, start), count, ordinal)
    {
      var offset := SlicedOffset(ordinal, upstream.shape, target, start);
      data[offset] := data[offset] + flat[ordinal];
    }
    var t := FromContiguous(data[..], target);
    r := Ok(t);
  }

  // ----- one reverse step

  method BinaryReduced(lhs: RealTensor, rhs: RealTensor, op: (real, real) -> real, target: seq<nat>)
    returns (r: Gradient)
    requires WellFormed(lhs) && WellFormed(rhs) && Sized(target)
    ensures match Lower(D.Elementwise(Logical(lhs), Logical(rhs), op))
      case Err(error) => r == Err(error)
      case Ok(m) => Computes(r, ReduceBroadcast(m, target))
  {
    hide Logical, WellFormed, Contiguous, Sized, ProductTo, CountFits, Scatter;
    var product := Elementwise(lhs, rhs, op);
    if product.Err? {
      return Err(Rules.Tensor(product.error));
    }
    r := ReduceBroadcastGradient(product.value, target);
  }

  method StepAdd(a: RealTensor, b: RealTensor, u: RealTensor) returns (r: Result<seq<RealTensor>, AutogradError>)
    requires WellFormed(a) && WellFormed(b) && WellFormed(u)
    ensures ComputesAll(r, PullAdd(Logical(a), Logical(b), Logical(u)))
  {
    hide Logical, WellFormed, Contiguous, Sized, ProductTo, CountFits, Scatter;
    ShapeSized(a);
    ShapeSized(b);
    var lhs :- ReduceBroadcastGradient(u, a.shape);
    var rhs :- ReduceBroadcastGradient(u, b.shape);
    r := Ok([lhs, rhs]);
  }

  method StepSub(a: RealTensor, b: RealTensor, u: RealTensor) returns (r: Result<seq<RealTensor>, AutogradError>)
    requires WellFormed(a) && WellFormed(b) && WellFormed(u)
    ensures ComputesAll(r, PullSub(Logical(a), Logical(b), Logical(u)))
  {
    hide Logical, WellFormed, Contiguous, Sized, ProductTo, CountFits, Scatter;
    ShapeSized(a);
    ShapeSized(b);
    var lhs :- ReduceBroadcastGradient(u, a.shape);
    var negated := ScaleTensor(u, -1.0);
    var rhs :- ReduceBroadcastGradient(negated, b.shape);
    r := Ok([lhs, rhs]);
  }

  method StepMul(a: RealTensor, b: RealTensor, u: RealTensor) returns (r: Result<seq<RealTensor>, AutogradError>)
    requires WellFormed(a) && WellFormed(b) && WellFormed(u)
    ensures ComputesAll(r, PullMul(Logical(a), Logical(b), Logical(u)))
  {
    hide D.Elementwise, ReduceBroadcast;
    hide Logical, WellFormed, Contiguous, Sized, ProductTo, CountFits, Scatter;
    ShapeSized(a);
    ShapeSized(b);
    var lhs :- MulReduced(u, b, a.shape);
    var rhs :- MulReduced(u, a, b.shape);
    r := Ok([lhs, rhs]);
  }

  method MulReduced(u: RealTensor, other: RealTensor, target: seq<nat>) returns (r: Gradient)
    requires WellFormed(u) && WellFormed(other) && Sized(target)
    ensures match Lower(D.Elementwise(Logical(u), Logical(other), RealMul))
      case Err(error) => r == Err(error)
      case Ok(m) => Computes(r, ReduceBroadcast(m, target))
  {
    hide Logical, WellFormed, Contiguous, Sized, ProductTo, CountFits, Scatter;
    r := BinaryReduced(u, other, RealMul, target);
  }

  method StepDiv(a: RealTensor, b: RealTensor, u: RealTensor) returns (r: Result<seq<RealTensor>, AutogradError>)
    requires WellFormed(a) && WellFormed(b) && WellFormed(u)
    ensures ComputesAll(r, PullDiv(Logical(a), Logical(b), Logical(u)))
  {
    hide D.Divide, PullQuotient;
    hide Logical, WellFormed, Contiguous, Sized, ProductTo, CountFits, Scatter;
    ShapeSized(a);
    ShapeSized(b);
    var overRhs := Divide(REAL, u, b);
    if overRhs.Err? {
      return Err(Rules.Tensor(overRhs.error));
    }
    var lhs :- ReduceBroadcastGradient(overRhs.value, a.shape);
    var negated :- NegatedQuotient(a, b, u);
    var rhs :- ReduceBroadcastGradient(negated, b.shape);
    r := Ok([lhs, rhs]);
  }

  method NegatedQuotient(a: RealTensor, b: RealTensor, u: RealTensor) returns (r: Gradient)
    requires WellFormed(a) && WellFormed(b) && WellFormed(u)
    ensures Computes(r, PullQuotient(Logical(a), Logical(b), Logical(u)))
  {
    hide Logical, WellFormed, Contiguous, Sized, ProductTo, CountFits, Scatter;
    var quotient := Divide(REAL, a, b);
    if quotient.Err? {
      return Err(Rules.Tensor(quotient.error));
    }
    var numerator := Elementwise(u, quotient.value, RealMul);
    if numerator.Err? {
      return Err(Rules.Tensor(numerator.error));
    }
    var scaled := ScaleTensor(numerator.value, -1.0);
    var negated := Divide(REAL, scaled, b);
    r := Lift(negated);
  }

  method StepMatmul(a: RealTensor, b: RealTensor, u: RealTensor) returns (r: Result<seq<RealTensor>, AutogradError>)
    requires WellFormed(a) && WellFormed(b) && WellFormed(u)
    ensures ComputesAll(r, PullMatmul(Logical(a), Logical(b), Logical(u)))
  {
    hide Logical, WellFormed, Contiguous, Sized, ProductTo, CountFits, Scatter;
    var rhsT := TransposeRank2(b);
    if rhsT.Err? {
      return Err(Rules.Tensor(rhsT.error));
    }
    var lhsT := TransposeRank2(a);
    if lhsT.Err? {
      return Err(Rules.Tensor(lhsT.error));
    }
    var lhs := K.Matmul(REAL, u, rhsT.value);
    if lhs.Err? {
      return Err(Rules.Tensor(lhs.error));
    }
    var rhs := K.Matmul(REAL, lhsT.value, u);
    if rhs.Err? {
      return Err(Rules.Tensor(rhs.error));
    }
    r := Ok([lhs.value, rhs.value]);
  }

  method StepRelu(own: RealTensor, u: RealTensor) returns (r: Gradient)
    requires WellFormed(own) && WellFormed(u)
    ensures Computes(r, PullRelu(Logical(own), Logical(u)))
  {
    hide Logical, WellFormed, Contiguous, Sized, ProductTo, CountFits, Scatter;
    var flat := Planata(own);
    var mask := FromContiguous(seq(|flat|, i requires 0 <= i < |flat| => if flat[i] > 0.0 then 1.0 else 0.0),
        own.shape);
    assert Logical(mask).flat == PositiveMask(Logical(own)).flat;
    var masked := Elementwise(u, mask, RealMul);
    r := Lift(masked);
  }

  method StepPermute(axes: seq<int>, u: RealTensor) returns (r: Gradient)
    requires WellFormed(u)
    ensures Computes(r, PullPermute(axes, Logical(u)))
  {
    var ok, inverse := InversePermutationAxes(axes);
    if !ok {
      return Err(ShapeMismatch);
    }
    var permuted := K.Permute(u, inverse);
    r := Lift(permuted);
  }

  method StepSumma(a: RealTensor, u: RealTensor) returns (r: Gradient)
    requires WellFormed(a) && WellFormed(u)
    ensures Computes(r, PullSumma(Logical(a), Logical(u)))
  {
    if |u.shape| != 0 {
      return Err(BackwardRequiresScalar);
    }
    var flat := Planata(u);
    var spread := Crea(a.shape, flat[0]);
    r := Lift(spread);
  }

  method StepMedia(a: RealTensor, u: RealTensor) returns (r: Gradient)
    requires WellFormed(a) && WellFormed(u)
    ensures Computes(r, PullMedia(Logical(a), Logical(u)))
  {
    if |u.shape| != 0 {
      return Err(BackwardRequiresScalar);
    }
    var flat := Planata(u);
    var _, count := CheckedElementCount(a.shape);
    if count == 0 {
      return Err(Rules.Tensor(D.MediaEmpty));
    }
    var spread := Crea(a.shape, flat[0] / (count as real));
    r := Lift(spread);
  }

  ghost predicate AllWellFormed(ts: seq<RealTensor>) {
    forall i :: 0 <= i < |ts| ==> WellFormed(ts[i])
  }

  ghost function Logicals(ts: seq<RealTensor>): (r: seq<Matrix>)
    requires AllWellFormed(ts)
    ensures |r| == |ts| && forall i :: 0 <= i < |ts| ==> r[i] == Logical(ts[i])
  {
    seq(|ts|, i requires 0 <= i < |ts| => Logical(ts[i]))
  }

  function Single(r: Gradient): Result<seq<RealTensor>, AutogradError> {
    match r
    case Ok(t) => Ok([t])
    case Err(e) => Err(e)
  }

  /** The match of `backward` on the operation of one node. */
  method Contributions(op: Op, ps: seq<RealTensor>, own: RealTensor, u: RealTensor)
    returns (r: Result<seq<RealTensor>, AutogradError>)
    requires |ps| == Arity(op) && AllWellFormed(ps) && WellFormed(own) && WellFormed(u)
    ensures ComputesAll(r, Pullback(op, Logicals(ps), Logical(own), Logical(u)))
  {
    hide Logical, WellFormed, Contiguous, Sized, ProductTo, CountFits;
    forall i | 0 <= i < |ps|
        ensures Sized(ps[i].shape) && D.FitsI64(ps[i].shape) && Logical(ps[i]).shape == ps[i].shape {
      ShapeSized(ps[i]);
    }
    var g: Gradient;
    match op {
      case Leaf => return Ok([]);
      case Add => r := StepAdd(ps[0], ps[1], u); return;
      case Sub => r := StepSub(ps[0], ps[1], u); return;
      case Mul => r := StepMul(ps[0], ps[1], u); return;
      case Div => r := StepDiv(ps[0], ps[1], u); return;
      case Matmul => r := StepMatmul(ps[0], ps[1], u); return;
      case Neg => var t := MapElements(u, RealNeg); g := Ok(t);
      case Relu => g := StepRelu(own, u);
      case Scala(factor) => var t := ScaleTensor(u, factor); g := Ok(t);
      case Forma => var t := K.Forma(u, ps[0].shape); g := Lift(t);
      case Permute(axes) => g := StepPermute(axes, u);
      case Sectio(start) => g := ScatterAxis0Gradient(u, ps[0].shape, start);
      case Summa => g := StepSumma(ps[0], u);
      case Media => g := StepMedia(ps[0], u);
    }
    r := Single(g);
  }

  // ----- gradient slots

  ghost predicate WellFormedSlots(gs: seq<Option<RealTensor>>) {
    forall i :: 0 <= i < |gs| && gs[i].Some? ==> WellFormed(gs[i].value)
  }

  ghost function SlotOf(g: Option<RealTensor>): (r: Option<Matrix>)
    requires g.Some? ==> WellFormed(g.value)
    ensures r.Some? ==> r.value.Valid()
  {
    match g
    case None => None
    case Some(t) => Some(Logical(t))
  }

  ghost function SlotsOf(gs: seq<Option<RealTensor>>): (r: Slots)
    requires WellFormedSlots(gs)
    ensures |r| == |gs| && forall i :: 0 <= i < |r| && r[i].Some? ==> r[i].value.Valid()
  {
    seq(|gs|, i requires 0 <= i < |gs| => SlotOf(gs[i]))
  }

  class AutogradGradients {
    var gradients: seq<Option<RealTensor>>
    const expectedShapes: seq<seq<nat>>

    ghost predicate Valid()
      reads this
    {
      |gradients| == |expectedShapes| && WellFormedSlots(gradients)
    }

    /** The matrices in the slots. */
    ghost function Slots(): (r: Slots)
      reads this
      requires Valid()
      ensures |r| == |gradients| && forall i :: 0 <= i < |r| && r[i].Some? ==> r[i].value.Valid()
    {
      SlotsOf(gradients)
    }

    constructor (shapes: seq<seq<nat>>)
      ensures Valid() && expectedShapes == shapes && Slots() == seq(|shapes|, _ => None)
    {
      expectedShapes := shapes;
      gradients := seq(|shapes|, _ => None);
    }

    method Accumulate(id: nat, gradient: RealTensor) returns (r: Result<(), AutogradError>)
      requires Valid() && WellFormed(gradient)
      modifies this`gradients
      ensures Valid()
      ensures match S.AddInto(expectedShapes, old(Slots()), id, Logical(gradient))
        case Err(error) => r == Err(error) && gradients == old(gradients)
        case Ok(slots) => r.Ok? && Slots() == slots
    {
      if id >= |expectedShapes| {
        return Err(MissingNode);
      }
      if gradient.shape != expectedShapes[id] {
        return Err(ShapeMismatch);
      }
      match gradients[id] {
        case Some(existing) =>
          var sum := Elementwise(existing, gradient, RealAdd);
          if sum.Err? {
            return Err(Rules.Tensor(sum.error));
          }
          gradients := gradients[id := Some(sum.value)];
        case None =>
          gradients := gradients[id := Some(gradient)];
      }
      r := Ok(());
    }
  }
}

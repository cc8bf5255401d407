/** Row-major index arithmetic shared by the tensor kernels and the gradient rules: unravelling an
    ordinal, strides, flat offsets, broadcasting, axis permutation. Shapes are sequences of
    non-negative dimensions of any rank; the empty shape has one element. */
module Shapes {

  const USIZE_MAX: nat := 0xffff_ffff_ffff_ffff
  const ISIZE_MAX: nat := 0x7fff_ffff_ffff_ffff

  // ----- element counts

  /** Product of the first k dimensions. */
  function ProductTo(shape: seq<nat>, k: nat): nat
    requires k <= |shape|
  {
    if k == 0 then 1 else ProductTo(shape, k - 1) * shape[k - 1]
  }

  function Product(shape: seq<nat>): nat {
    ProductTo(shape, |shape|)
  }

  /** No prefix product leaves the 64-bit range, so the checked fold reaches the count. */
  predicate CountFits(shape: seq<nat>) {
    forall k {:trigger ProductTo(shape, k)} :: 0 <= k <= |shape| ==> ProductTo(shape, k) <= USIZE_MAX
  }

  /** Every dimension fits the signed 64-bit type it is given and reported in. */
  predicate Words(shape: seq<nat>) {
    forall i :: 0 <= i < |shape| ==> shape[i] <= ISIZE_MAX
  }

  /** A buffer of four-byte elements of this shape can be allocated. */
  predicate Allocatable(shape: seq<nat>) {
    CountFits(shape) && Product(shape) <= ISIZE_MAX / 4
  }

  method CheckedElementCount(shape: seq<nat>) returns (fits: bool, count: nat)
    ensures fits == CountFits(shape)
    ensures fits ==> count == Product(shape)
  {
    count := 1;
    for i := 0 to |shape|
      invariant count == ProductTo(shape, i)
      invariant forall k {:trigger ProductTo(shape, k)} :: 0 <= k <= i ==> ProductTo(shape, k) <= USIZE_MAX
    {
      count := count * shape[i];
      if count > USIZE_MAX {
        assert ProductTo(shape, i + 1) == count;
        return false, 0;
      }
    }
    fits := true;
  }

  lemma {:induction false} ProductPrefix(a: seq<nat>, b: seq<nat>, k: nat)
    requires k <= |a| && k <= |b| && forall i :: 0 <= i < k ==> a[i] == b[i]
    ensures ProductTo(a, k) == ProductTo(b, k)
  {
    if k > 0 {
      ProductPrefix(a, b, k - 1);
    }
  }

  // ----- indices and ordinals

  ghost predicate ValidIndexTo(index: seq<nat>, shape: seq<nat>, k: nat) {
    k <= |index| && k <= |shape| && forall i :: 0 <= i < k ==> index[i] < shape[i]
  }

  ghost predicate ValidIndex(index: seq<nat>, shape: seq<nat>) {
    |index| == |shape| && ValidIndexTo(index, shape, |shape|)
  }

  function UnravelTo(ordinal: nat, shape: seq<nat>, k: nat): (index: seq<nat>)
    requires k <= |shape| && forall i :: 0 <= i < k ==> shape[i] > 0
    ensures |index| == k
    decreases k
  {
    if k == 0 then []
    else UnravelTo(ordinal / shape[k - 1], shape, k - 1) + [ordinal % shape[k - 1]]
  }

  /** Coordinates of the ordinal-th element in row-major order. */
  function Unravel(ordinal: nat, shape: seq<nat>): (index: seq<nat>)
    requires forall i :: 0 <= i < |shape| ==> shape[i] > 0
    ensures |index| == |shape|
  {
    UnravelTo(ordinal, shape, |shape|)
  }

  function RavelTo(index: seq<nat>, shape: seq<nat>, k: nat): nat
    requires k <= |index| && k <= |shape|
  {
    if k == 0 then 0 else RavelTo(index, shape, k - 1) * shape[k - 1] + index[k - 1]
  }

  /** Row-major ordinal of an index. */
  function Ravel(index: seq<nat>, shape: seq<nat>): nat
    requires |index| == |shape|
  {
    RavelTo(index, shape, |shape|)
  }

  lemma {:induction false} PositiveDims(shape: seq<nat>, k: nat)
    requires k <= |shape| && ProductTo(shape, k) > 0
    ensures forall i :: 0 <= i < k ==> shape[i] > 0
  {
    if k > 0 {
      PositiveDims(shape, k - 1);
    }
  }

  lemma {:induction false} PositiveProduct(shape: seq<nat>, k: nat)
    requires k <= |shape| && forall i :: 0 <= i < k ==> shape[i] > 0
    ensures ProductTo(shape, k) > 0
  {
    if k > 0 {
      PositiveProduct(shape, k - 1);
    }
  }

  lemma {:induction false} RavelPrefix(a: seq<nat>, b: seq<nat>, shape: seq<nat>, k: nat)
    requires k <= |a| && k <= |b| && k <= |shape| && forall i :: 0 <= i < k ==> a[i] == b[i]
    ensures RavelTo(a, shape, k) == RavelTo(b, shape, k)
  {
    if k > 0 {
      RavelPrefix(a, b, shape, k - 1);
    }
  }

  lemma DivModBound(o: nat, a: nat, d: nat)
    requires o < a * d
    ensures d > 0 && o / d < a && o == o / d * d + o % d
  {
    MulMono(o / d, a, d);
  }

  lemma MulMono(x: nat, y: nat, d: nat)
    ensures x >= y ==> x * d >= y * d
  {
  }

  lemma MulAssoc(a: nat, b: nat, c: nat)
    ensures a * b * c == a * (b * c)
  {
  }

  lemma MulDistrib(a: nat, b: nat, c: nat)
    ensures (a + b) * c == a * c + b * c
  {
  }

  lemma {:induction false} UnravelToCorrect(ordinal: nat, shape: seq<nat>, k: nat)
    requires k <= |shape| && ordinal < ProductTo(shape, k)
    ensures forall i :: 0 <= i < k ==> shape[i] > 0
    ensures ValidIndexTo(UnravelTo(ordinal, shape, k), shape, k)
    ensures RavelTo(UnravelTo(ordinal, shape, k), shape, k) == ordinal
    decreases k
  {
    if k > 0 {
      var d := shape[k - 1];
      DivModBound(ordinal, ProductTo(shape, k - 1), d);
      var q, r := ordinal / d, ordinal % d;
      UnravelToCorrect(q, shape, k - 1);
      assert UnravelTo(ordinal, shape, k) == UnravelTo(q, shape, k - 1) + [r];
      RavelPrefix(UnravelTo(q, shape, k - 1), UnravelTo(ordinal, shape, k), shape, k - 1);
    }
  }

  /** Ravelling undoes unravelling. */
  lemma RavelUnravel(ordinal: nat, shape: seq<nat>)
    requires ordinal < Product(shape)
    ensures forall i :: 0 <= i < |shape| ==> shape[i] > 0
    ensures ValidIndex(Unravel(ordinal, shape), shape)
    ensures Ravel(Unravel(ordinal, shape), shape) == ordinal
  {
    UnravelToCorrect(ordinal, shape, |shape|);
  }

  lemma MulAddBound(q: nat, a: nat, d: nat, r: nat)
    requires q < a && r < d
    ensures q * d + r < a * d
    ensures (q * d + r) / d == q && (q * d + r) % d == r
  {
    assert (q + 1) * d <= a * d;
    DivModUnique(q * d + r, d, q, r);
  }

  lemma DivModUnique(n: nat, d: nat, q: nat, r: nat)
    requires r < d && n == q * d + r
    ensures n / d == q && n % d == r
  {
    assert n / d * d + n % d == n;
    MulMono(n / d, q + 1, d);
    MulMono(q, n / d + 1, d);
    MulDistrib(q, 1, d);
    MulDistrib(n / d, 1, d);
  }

  lemma {:induction false} RavelToCorrect(index: seq<nat>, shape: seq<nat>, k: nat)
    requires ValidIndexTo(index, shape, k)
    ensures RavelTo(index, shape, k) < ProductTo(shape, k)
    ensures UnravelTo(RavelTo(index, shape, k), shape, k) == index[..k]
  {
    if k > 0 {
      RavelToCorrect(index, shape, k - 1);
      MulAddBound(RavelTo(index, shape, k - 1), ProductTo(shape, k - 1), shape[k - 1], index[k - 1]);
      assert index[..k] == index[..k - 1] + [index[k - 1]];
    }
  }

  /** Unravelling undoes ravelling, and a valid index lands inside the buffer. */
  lemma UnravelRavel(index: seq<nat>, shape: seq<nat>)
    requires ValidIndex(index, shape)
    ensures Ravel(index, shape) < Product(shape)
    ensures Unravel(Ravel(index, shape), shape) == index
  {
    RavelToCorrect(index, shape, |shape|);
    assert index[..|shape|] == index;
  }

  /** Row-major order is the lexicographic order of the indices. */
  lemma RavelIsLexicographic(i: seq<nat>, j: seq<nat>, shape: seq<nat>, d: nat)
    requires ValidIndex(i, shape) && ValidIndex(j, shape)
    requires d < |shape| && i[..d] == j[..d] && i[d] < j[d]
    ensures Ravel(i, shape) < Ravel(j, shape)
  {
    RavelToOrder(i, j, shape, d, |shape|);
  }

  lemma {:induction false} RavelToOrder(i: seq<nat>, j: seq<nat>, shape: seq<nat>, d: nat, k: nat)
    requires ValidIndex(i, shape) && ValidIndex(j, shape)
    requires d < k <= |shape| && i[..d] == j[..d] && i[d] < j[d]
    ensures RavelTo(i, shape, k) < RavelTo(j, shape, k)
    decreases k
  {
    if k == d + 1 {
      assert forall n :: 0 <= n < d ==> i[n] == i[..d][n] == j[n];
      RavelPrefix(i, j, shape, d);
    } else {
      RavelToOrder(i, j, shape, d, k - 1);
      var below, above := RavelTo(i, shape, k - 1), RavelTo(j, shape, k - 1);
      MulMono(above, below + 1, shape[k - 1]);
      MulDistrib(below, 1, shape[k - 1]);
    }
  }

  /** The loop of `unravel_index`: divide by the trailing dimensions, last axis first. */
  method UnravelIndex(ordinal: nat, shape: seq<nat>) returns (index: seq<nat>)
    requires ordinal < Product(shape)
    ensures forall i :: 0 <= i < |shape| ==> shape[i] > 0
    ensures index == Unravel(ordinal, shape)
  {
    PositiveDims(shape, |shape|);
    var buffer := new nat[|shape|](_ => 0);
    var rest := ordinal;
    var axis := |shape|;
    while axis > 0
      invariant 0 <= axis <= |shape|
      invariant Unravel(ordinal, shape) == UnravelTo(rest, shape, axis) + buffer[axis..]
    {
      axis := axis - 1;
      buffer[axis] := rest % shape[axis];
      rest := rest / shape[axis];
      assert buffer[axis..] == [buffer[axis]] + buffer[axis + 1..];
    }
    assert buffer[0..] == buffer[..];
    index := buffer[..];
  }

  /** Signed indices that address an element. */
  predicate InBounds(indices: seq<int>, shape: seq<nat>) {
    |indices| == |shape| && forall i :: 0 <= i < |shape| ==> 0 <= indices[i] < shape[i]
  }

  // ----- strides

  function SatMul(a: nat, b: nat): nat {
    if a * b > USIZE_MAX then USIZE_MAX else a * b
  }

  /** Saturating product of the dimensions from k on: the value of `next` in `row_major_strides`. */
  function SuffixSat(shape: seq<nat>, k: nat): nat
    requires k <= |shape|
    decreases |shape| - k
  {
    if k == |shape| then 1 else SatMul(SuffixSat(shape, k + 1), shape[k])
  }

  function Strides(shape: seq<nat>): (s: seq<nat>)
    ensures |s| == |shape|
  {
    seq(|shape|, i requires 0 <= i < |shape| => SuffixSat(shape, i + 1))
  }

  method RowMajorStrides(shape: seq<nat>) returns (strides: seq<nat>)
    ensures strides == Strides(shape)
  {
    var buffer := new nat[|shape|](_ => 1);
    var next := 1;
    var i := |shape|;
    while i > 0
      invariant 0 <= i <= |shape|
      invariant next == SuffixSat(shape, i)
      invariant forall j :: i <= j < |shape| ==> buffer[j] == SuffixSat(shape, j + 1)
    {
      i := i - 1;
      buffer[i] := next;
      next := SatMul(next, shape[i]);
    }
    strides := buffer[..];
  }

  /** Sum of index[i] * strides[i] over the first k axes. */
  function OffsetTo(index: seq<nat>, strides: seq<nat>, k: nat): nat
    requires k <= |index| && k <= |strides|
  {
    if k == 0 then 0 else OffsetTo(index, strides, k - 1) + index[k - 1] * strides[k - 1]
  }

  function OffsetSum(index: seq<nat>, strides: seq<nat>): nat
    requires |index| == |strides|
  {
    OffsetTo(index, strides, |index|)
  }

  /** With a fitting non-zero count nothing saturates: the stride product is a divisor of the count. */
  lemma {:induction false} SuffixExact(shape: seq<nat>, k: nat)
    requires k <= |shape| && 0 < Product(shape) <= USIZE_MAX
    ensures ProductTo(shape, k) * SuffixSat(shape, k) == Product(shape)
    ensures SuffixSat(shape, k) > 0
    ensures k < |shape| ==> SuffixSat(shape, k) == shape[k] * SuffixSat(shape, k + 1)
    decreases |shape| - k
  {
    PositiveDims(shape, |shape|);
    if k < |shape| {
      SuffixExact(shape, k + 1);
      PositiveProduct(shape, k);
      SuffixStep(ProductTo(shape, k), shape[k], SuffixSat(shape, k + 1), Product(shape));
    }
  }

  lemma SuffixStep(p: nat, d: nat, s: nat, total: nat)
    requires p > 0 && d > 0 && s > 0 && p * d * s == total <= USIZE_MAX
    ensures SatMul(s, d) == d * s > 0 && p * SatMul(s, d) == total
  {
    MulAssoc(p, d, s);
    MulMono(p, 1, d * s);
  }

  lemma {:induction false} OffsetIsRavelTo(index: seq<nat>, shape: seq<nat>, k: nat)
    requires ValidIndex(index, shape) && k <= |shape| && 0 < Product(shape) <= USIZE_MAX
    ensures OffsetTo(index, Strides(shape), k) == RavelTo(index, shape, k) * SuffixSat(shape, k)
  {
    if k > 0 {
      OffsetIsRavelTo(index, shape, k - 1);
      SuffixExact(shape, k - 1);
      Horner(RavelTo(index, shape, k - 1), shape[k - 1], SuffixSat(shape, k), index[k - 1]);
    }
  }

  lemma Horner(r: nat, d: nat, s: nat, x: nat)
    ensures (r * d + x) * s == r * (d * s) + x * s
  {
    MulDistrib(r * d, x, s);
    MulAssoc(r, d, s);
  }

  /** The stride sum of a row-major buffer is the row-major ordinal. */
  lemma OffsetIsRavel(index: seq<nat>, shape: seq<nat>)
    requires ValidIndex(index, shape) && Product(shape) <= USIZE_MAX
    ensures OffsetSum(index, Strides(shape)) == Ravel(index, shape)
  {
    PositiveProduct(shape, |shape|);
    OffsetIsRavelTo(index, shape, |shape|);
  }

  // ----- broadcasting

  function BroadcastDim(shape: seq<nat>, rank: nat, axis: nat): nat
    requires |shape| <= rank && axis < rank
  {
    var pad := rank - |shape|;
    if axis < pad then 1 else shape[axis - pad]
  }

  function Max(a: nat, b: nat): nat {
    if a < b then b else a
  }

  predicate DimsAgree(a: nat, b: nat) {
    a == b || a == 1 || b == 1
  }

  function JoinDim(a: nat, b: nat): nat {
    if a == b then a else if a == 1 then b else a
  }

  predicate Compatible(lhs: seq<nat>, rhs: seq<nat>) {
    var rank := Max(|lhs|, |rhs|);
    forall axis :: 0 <= axis < rank ==> DimsAgree(BroadcastDim(lhs, rank, axis), BroadcastDim(rhs, rank, axis))
  }

  function Join(lhs: seq<nat>, rhs: seq<nat>): (shape: seq<nat>)
    ensures |shape| == Max(|lhs|, |rhs|)
  {
    var rank := Max(|lhs|, |rhs|);
    seq(rank, axis requires 0 <= axis < rank => JoinDim(BroadcastDim(lhs, rank, axis), BroadcastDim(rhs, rank, axis)))
  }

  /** The loop of `broadcast_shape`. */
  method BroadcastShape(lhs: seq<nat>, rhs: seq<nat>) returns (ok: bool, shape: seq<nat>)
    ensures ok == Compatible(lhs, rhs)
    ensures ok ==> shape == Join(lhs, rhs)
  {
    var rank := Max(|lhs|, |rhs|);
    shape := [];
    for axis := 0 to rank
      invariant |shape| == axis
      invariant forall i :: 0 <= i < axis ==> DimsAgree(BroadcastDim(lhs, rank, i), BroadcastDim(rhs, rank, i))
      invariant forall i :: 0 <= i < axis ==>
                shape[i] == JoinDim(BroadcastDim(lhs, rank, i), BroadcastDim(rhs, rank, i))
    {
      var l, r := BroadcastDim(lhs, rank, axis), BroadcastDim(rhs, rank, axis);
      if l == r {
        shape := shape + [l];
      } else if l == 1 {
        shape := shape + [r];
      } else if r == 1 {
        shape := shape + [l];
      } else {
        return false, [];
      }
    }
    ok := true;
  }

  /** Every axis of `target` is 1 or equals the matching trailing axis of `out`. */
  predicate BroadcastsTo(target: seq<nat>, out: seq<nat>) {
    |target| <= |out| &&
    forall i :: 0 <= i < |target| ==> target[i] == 1 || target[i] == out[i + (|out| - |target|)]
  }

  lemma JoinBroadcasts(lhs: seq<nat>, rhs: seq<nat>)
    requires Compatible(lhs, rhs)
    ensures BroadcastsTo(lhs, Join(lhs, rhs)) && BroadcastsTo(rhs, Join(lhs, rhs))
  {
    var rank := Max(|lhs|, |rhs|);
    forall i | 0 <= i < |lhs| ensures lhs[i] == 1 || lhs[i] == Join(lhs, rhs)[i + (rank - |lhs|)] {
      assert lhs[i] == BroadcastDim(lhs, rank, i + (rank - |lhs|));
    }
    forall i | 0 <= i < |rhs| ensures rhs[i] == 1 || rhs[i] == Join(lhs, rhs)[i + (rank - |rhs|)] {
      assert rhs[i] == BroadcastDim(rhs, rank, i + (rank - |rhs|));
    }
  }

  lemma JoinWords(lhs: seq<nat>, rhs: seq<nat>)
    requires Words(lhs) && Words(rhs)
    ensures Words(Join(lhs, rhs))
  {
  }

  /** The guard of `reduce_broadcast_gradient`: joining with `out` gives `out` back exactly when
      `target` broadcasts to `out`. */
  lemma JoinAbsorbs(target: seq<nat>, out: seq<nat>)
    ensures (Compatible(target, out) && Join(target, out) == out) <==> BroadcastsTo(target, out)
  {
    if BroadcastsTo(target, out) {
      var rank := |out|;
      forall axis | 0 <= axis < rank
        ensures DimsAgree(BroadcastDim(target, rank, axis), BroadcastDim(out, rank, axis))
        ensures JoinDim(BroadcastDim(target, rank, axis), BroadcastDim(out, rank, axis)) == out[axis]
      {
        var pad := rank - |target|;
        if axis >= pad {
          assert target[axis - pad] == 1 || target[axis - pad] == out[axis - pad + pad];
        }
      }
      assert Join(target, out) == out;
    } else if Compatible(target, out) && Join(target, out) == out {
      JoinBroadcasts(target, out);
    }
  }

  /** The same with the operands the other way round, as in `upstream.multiplica(parent)`. */
  lemma JoinAbsorbsRight(out: seq<nat>, target: seq<nat>)
    requires BroadcastsTo(target, out)
    ensures Compatible(out, target) && Join(out, target) == out
  {
    var rank := |out|;
    var pad := rank - |target|;
    forall axis | 0 <= axis < rank
      ensures DimsAgree(BroadcastDim(out, rank, axis), BroadcastDim(target, rank, axis))
      ensures JoinDim(BroadcastDim(out, rank, axis), BroadcastDim(target, rank, axis)) == out[axis]
    {
      if axis >= pad {
        assert target[axis - pad] == 1 || target[axis - pad] == out[axis - pad + pad];
      }
    }
    assert Join(out, target) == out;
  }

  /** Coordinates in `shape` read by the output coordinates `index`. */
  function BroadcastIndex(index: seq<nat>, shape: seq<nat>): (r: seq<nat>)
    requires |shape| <= |index|
    ensures |r| == |shape|
  {
    var pad := |index| - |shape|;
    seq(|shape|, axis requires 0 <= axis < |shape| => if shape[axis] == 1 then 0 else index[axis + pad])
  }

  lemma BroadcastIndexValid(index: seq<nat>, target: seq<nat>, out: seq<nat>)
    requires BroadcastsTo(target, out) && ValidIndex(index, out)
    ensures ValidIndex(BroadcastIndex(index, target), target)
  {
    forall i | 0 <= i < |target| ensures BroadcastIndex(index, target)[i] < target[i] {
      assert index[i + (|out| - |target|)] < out[i + (|out| - |target|)];
    }
  }

  function BroadcastOffset(ordinal: nat, out: seq<nat>, target: seq<nat>): (offset: nat)
    requires BroadcastsTo(target, out) && ordinal < Product(out)
    ensures offset < Product(target)
  {
    RavelUnravel(ordinal, out);
    BroadcastIndexValid(Unravel(ordinal, out), target, out);
    UnravelRavel(BroadcastIndex(Unravel(ordinal, out), target), target);
    Ravel(BroadcastIndex(Unravel(ordinal, out), target), target)
  }

  function BroadcastMapTo(out: seq<nat>, target: seq<nat>, k: nat): (f: seq<nat>)
    requires BroadcastsTo(target, out) && k <= Product(out)
    ensures |f| == k && forall o :: 0 <= o < k ==> f[o] < Product(target)
    decreases k
  {
    if k == 0 then [] else BroadcastMapTo(out, target, k - 1) + [BroadcastOffset(k - 1, out, target)]
  }

  /** For every output ordinal, the ordinal of `target` that broadcasting reads there. */
  function BroadcastMap(out: seq<nat>, target: seq<nat>): (f: seq<nat>)
    requires BroadcastsTo(target, out)
    ensures |f| == Product(out) && forall o :: 0 <= o < |f| ==> f[o] < Product(target)
  {
    BroadcastMapTo(out, target, Product(out))
  }

  lemma {:induction false} BroadcastMapToAt(out: seq<nat>, target: seq<nat>, k: nat, o: nat)
    requires BroadcastsTo(target, out) && o < k <= Product(out)
    ensures BroadcastMapTo(out, target, k)[o] == BroadcastOffset(o, out, target)
    decreases k
  {
    if o < k - 1 {
      BroadcastMapToAt(out, target, k - 1, o);
    }
  }

  lemma BroadcastMapAt(out: seq<nat>, target: seq<nat>, o: nat)
    requires BroadcastsTo(target, out) && o < Product(out)
    ensures BroadcastMap(out, target)[o] == BroadcastOffset(o, out, target)
  {
    BroadcastMapToAt(out, target, Product(out), o);
  }

  /** Broadcasting a shape to itself reads every position where it is. */
  lemma BroadcastSelf(shape: seq<nat>)
    ensures BroadcastsTo(shape, shape)
    ensures BroadcastMap(shape, shape) == Identity(Product(shape))
  {
    forall o | 0 <= o < Product(shape) ensures BroadcastMap(shape, shape)[o] == o {
      BroadcastMapAt(shape, shape, o);
      RavelUnravel(o, shape);
      var index := Unravel(o, shape);
      assert BroadcastIndex(index, shape) == index;
    }
  }

  // ----- axis permutation

  /** axes lists every axis below its length once. */
  predicate IsPermutation(axes: seq<nat>) {
    (forall i :: 0 <= i < |axes| ==> axes[i] < |axes|) &&
    (forall i, j :: 0 <= i < j < |axes| ==> axes[i] != axes[j])
  }

  /** The buffer after writing values[i] at axes[i] for i below k, starting from zeros. */
  function PlaceTo(axes: seq<nat>, values: seq<nat>, k: nat): (r: seq<nat>)
    requires k <= |axes| == |values| && forall i :: 0 <= i < |axes| ==> axes[i] < |axes|
    ensures |r| == |axes|
  {
    if k == 0 then seq(|axes|, _ => 0) else PlaceTo(axes, values, k - 1)[axes[k - 1] := values[k - 1]]
  }

  function Place(axes: seq<nat>, values: seq<nat>): (r: seq<nat>)
    requires |axes| == |values| && forall i :: 0 <= i < |axes| ==> axes[i] < |axes|
    ensures |r| == |axes|
  {
    PlaceTo(axes, values, |axes|)
  }

  lemma {:induction false} PlaceToAt(axes: seq<nat>, values: seq<nat>, k: nat)
    requires IsPermutation(axes) && k <= |axes| == |values|
    ensures forall i :: 0 <= i < k ==> PlaceTo(axes, values, k)[axes[i]] == values[i]
  {
    if k > 0 {
      PlaceToAt(axes, values, k - 1);
    }
  }

  function Identity(n: nat): (r: seq<nat>)
    ensures |r| == n
  {
    seq(n, i requires 0 <= i < n => i)
  }

  /** Position of each axis in `axes`. */
  function InverseAxes(axes: seq<nat>): (r: seq<nat>)
    requires forall i :: 0 <= i < |axes| ==> axes[i] < |axes|
    ensures |r| == |axes|
  {
    Place(axes, Identity(|axes|))
  }

  /** n distinct values below n include every value below n. */
  lemma {:induction false} Pigeonhole(axes: seq<nat>, n: nat, j: nat)
    requires |axes| == n && j < n
    requires forall i :: 0 <= i < n ==> axes[i] < n
    requires forall i, k :: 0 <= i < k < n ==> axes[i] != axes[k]
    ensures j in axes
    decreases n
  {
    if j !in axes {
      var last := axes[n - 1];
      // Swap the missing value with n - 1 so that the shorter list lies below n - 1 and misses one value.
      var shorter := seq(n - 1, i requires 0 <= i < n - 1 => if axes[i] == n - 1 then j else axes[i]);
      if j == n - 1 {
        Pigeonhole(axes[..n - 1], n - 1, last);
        assert false;
      } else {
        var missing := if last == n - 1 then j else last;
        Pigeonhole(shorter, n - 1, missing);
        assert false;
      }
    }
  }

  /** The inverse axis list is a permutation and undoes `axes` on both sides. */
  lemma InverseAxesCorrect(axes: seq<nat>)
    requires IsPermutation(axes)
    ensures IsPermutation(InverseAxes(axes))
    ensures forall i :: 0 <= i < |axes| ==> InverseAxes(axes)[axes[i]] == i
    ensures forall j :: 0 <= j < |axes| ==> axes[InverseAxes(axes)[j]] == j
  {
    var n, inverse := |axes|, InverseAxes(axes);
    PlaceToAt(axes, Identity(n), n);
    forall j | 0 <= j < n
      ensures inverse[j] < n && axes[inverse[j]] == j
    {
      Pigeonhole(axes, n, j);
      var i :| 0 <= i < n && axes[i] == j;
      assert inverse[axes[i]] == Identity(n)[i];
    }
  }

  predicate AxesInRange(axes: seq<int>, rank: nat) {
    forall i :: 0 <= i < |axes| ==> 0 <= axes[i] < rank
  }

  /** The integers as axis numbers, once checked. */
  function ToNats(axes: seq<int>): (r: seq<nat>)
    requires forall i :: 0 <= i < |axes| ==> axes[i] >= 0
    ensures |r| == |axes|
  {
    seq(|axes|, i requires 0 <= i < |axes| => axes[i])
  }

  /** What `inverse_permutation_axes` accepts. */
  predicate PermutationAxes(axes: seq<int>) {
    AxesInRange(axes, |axes|) && IsPermutation(ToNats(axes))
  }

  lemma DuplicateAxis(axes: seq<int>, k: nat)
    requires k < |axes| && axes[k] in axes[..k]
    ensures !PermutationAxes(axes)
  {
    var i :| 0 <= i < k && axes[..k][i] == axes[k];
    if AxesInRange(axes, |axes|) {
      assert ToNats(axes)[i] == ToNats(axes)[k];
    }
  }

  /** The loop of `inverse_permutation_axes`, with its `seen` marks. */
  method InversePermutationAxes(axes: seq<int>) returns (ok: bool, inverse: seq<nat>)
    ensures ok == PermutationAxes(axes)
    ensures ok ==> inverse == InverseAxes(ToNats(axes))
  {
    var rank := |axes|;
    var buffer := new nat[rank](_ => 0);
    var seen := new bool[rank](_ => false);
    for output := 0 to rank
      invariant forall i :: 0 <= i < output ==> 0 <= axes[i] < rank
      invariant forall j :: 0 <= j < rank ==> (seen[j] <==> j in axes[..output])
      invariant forall i, j :: 0 <= i < j < output ==> axes[i] != axes[j]
      invariant forall i :: 0 <= i < output ==> buffer[axes[i]] == i
    {
      var input := axes[output];
      if input < 0 || input >= rank {
        return false, [];
      }
      if seen[input] {
        DuplicateAxis(axes, output);
        return false, [];
      }
      assert axes[..output + 1] == axes[..output] + [input];
      seen[input] := true;
      buffer[input] := output;
    }
    ok := true;
    inverse := buffer[..];
    var nats := ToNats(axes);
    InverseAxesCorrect(nats);
    forall j | 0 <= j < rank ensures inverse[j] == InverseAxes(nats)[j] {
      assert nats[InverseAxes(nats)[j]] == j;
    }
  }

  function PermutedShape(shape: seq<nat>, axes: seq<nat>): (r: seq<nat>)
    requires |axes| == |shape| && IsPermutation(axes)
    ensures |r| == |shape|
  {
    seq(|shape|, i requires 0 <= i < |shape| => shape[axes[i]])
  }

  lemma PlaceAt(axes: seq<nat>, values: seq<nat>)
    requires IsPermutation(axes) && |axes| == |values|
    ensures forall i :: 0 <= i < |axes| ==> Place(axes, values)[axes[i]] == values[i]
    ensures forall j :: 0 <= j < |axes| ==>
            InverseAxes(axes)[j] < |axes| && Place(axes, values)[j] == values[InverseAxes(axes)[j]]
  {
    PlaceToAt(axes, values, |axes|);
    InverseAxesCorrect(axes);
    forall j | 0 <= j < |axes| ensures Place(axes, values)[j] == values[InverseAxes(axes)[j]] {
      var i := InverseAxes(axes)[j];
      assert axes[i] == j;
    }
  }

  lemma PlaceValid(index: seq<nat>, shape: seq<nat>, axes: seq<nat>)
    requires |axes| == |shape| && IsPermutation(axes) && ValidIndex(index, PermutedShape(shape, axes))
    ensures ValidIndex(Place(axes, index), shape)
  {
    PlaceAt(axes, index);
    InverseAxesCorrect(axes);
    forall j | 0 <= j < |shape| ensures Place(axes, index)[j] < shape[j] {
      var i := InverseAxes(axes)[j];
      assert axes[i] == j && index[i] < PermutedShape(shape, axes)[i];
    }
  }

  function PermuteOffset(ordinal: nat, shape: seq<nat>, axes: seq<nat>): (offset: nat)
    requires |axes| == |shape| && IsPermutation(axes) && ordinal < Product(PermutedShape(shape, axes))
    ensures offset < Product(shape)
  {
    var out := PermutedShape(shape, axes);
    RavelUnravel(ordinal, out);
    PlaceValid(Unravel(ordinal, out), shape, axes);
    UnravelRavel(Place(axes, Unravel(ordinal, out)), shape);
    Ravel(Place(axes, Unravel(ordinal, out)), shape)
  }

  function PermuteMapTo(shape: seq<nat>, axes: seq<nat>, k: nat): (f: seq<nat>)
    requires |axes| == |shape| && IsPermutation(axes) && k <= Product(PermutedShape(shape, axes))
    ensures |f| == k && forall o :: 0 <= o < k ==> f[o] < Product(shape)
    decreases k
  {
    if k == 0 then [] else PermuteMapTo(shape, axes, k - 1) + [PermuteOffset(k - 1, shape, axes)]
  }

  /** For every ordinal of the permuted tensor, the ordinal of the input it reads. */
  function PermuteMap(shape: seq<nat>, axes: seq<nat>): (f: seq<nat>)
    requires |axes| == |shape| && IsPermutation(axes)
    ensures |f| == Product(PermutedShape(shape, axes)) && forall o :: 0 <= o < |f| ==> f[o] < Product(shape)
  {
    PermuteMapTo(shape, axes, Product(PermutedShape(shape, axes)))
  }

  lemma {:induction false} PermuteMapToAt(shape: seq<nat>, axes: seq<nat>, k: nat, o: nat)
    requires |axes| == |shape| && IsPermutation(axes) && o < k <= Product(PermutedShape(shape, axes))
    ensures PermuteMapTo(shape, axes, k)[o] == PermuteOffset(o, shape, axes)
    decreases k
  {
    if o < k - 1 {
      PermuteMapToAt(shape, axes, k - 1, o);
    }
  }

  lemma PermuteMapAt(shape: seq<nat>, axes: seq<nat>, o: nat)
    requires |axes| == |shape| && IsPermutation(axes) && o < Product(PermutedShape(shape, axes))
    ensures PermuteMap(shape, axes)[o] == PermuteOffset(o, shape, axes)
  {
    PermuteMapToAt(shape, axes, Product(PermutedShape(shape, axes)), o);
  }

  lemma PermutedShapeInverse(shape: seq<nat>, axes: seq<nat>)
    requires |axes| == |shape| && IsPermutation(axes)
    ensures IsPermutation(InverseAxes(axes))
    ensures PermutedShape(PermutedShape(shape, axes), InverseAxes(axes)) == shape
  {
    InverseAxesCorrect(axes);
  }

  /** Permuting by `axes` and by the inverse list read each other's positions back. */
  lemma PermuteMapInverse(shape: seq<nat>, axes: seq<nat>)
    requires |axes| == |shape| && IsPermutation(axes)
    ensures IsPermutation(InverseAxes(axes))
    ensures PermutedShape(PermutedShape(shape, axes), InverseAxes(axes)) == shape
    ensures var f, g := PermuteMap(shape, axes), PermuteMap(PermutedShape(shape, axes), InverseAxes(axes));
      (forall t :: 0 <= t < Product(shape) ==> g[t] < |f| && f[g[t]] == t) &&
      (forall o :: 0 <= o < |f| ==> f[o] < |g| && g[f[o]] == o)
  {
    var inverse, out := InverseAxes(axes), PermutedShape(shape, axes);
    PermutedShapeInverse(shape, axes);
    InverseAxesCorrect(axes);
    var f, g := PermuteMap(shape, axes), PermuteMap(out, inverse);
    forall t | 0 <= t < Product(shape) ensures f[g[t]] == t {
      PermuteThere(shape, axes, t);
      PermuteMapAt(out, inverse, t);
      PermuteMapAt(shape, axes, g[t]);
    }
    forall o | 0 <= o < Product(out) ensures g[f[o]] == o {
      InverseInverse(axes);
      PermuteThere(out, inverse, o);
      PermuteMapAt(shape, axes, o);
      PermuteMapAt(out, inverse, f[o]);
    }
  }

  lemma InverseInverse(axes: seq<nat>)
    requires IsPermutation(axes)
    ensures IsPermutation(InverseAxes(axes)) && InverseAxes(InverseAxes(axes)) == axes
  {
    var inverse := InverseAxes(axes);
    InverseAxesCorrect(axes);
    InverseAxesCorrect(inverse);
    forall j | 0 <= j < |axes| ensures InverseAxes(inverse)[j] == axes[j] {
      assert inverse[InverseAxes(inverse)[j]] == j;
      assert inverse[axes[j]] == j;
    }
  }

  lemma PermuteThere(shape: seq<nat>, axes: seq<nat>, t: nat)
    requires |axes| == |shape| && IsPermutation(axes) && t < Product(shape)
    ensures IsPermutation(InverseAxes(axes))
    ensures PermutedShape(PermutedShape(shape, axes), InverseAxes(axes)) == shape
    ensures PermuteOffset(PermuteOffset(t, PermutedShape(shape, axes), InverseAxes(axes)), shape, axes) == t
  {
    var inverse, out := InverseAxes(axes), PermutedShape(shape, axes);
    PermutedShapeInverse(shape, axes);
    InverseAxesCorrect(axes);
    RavelUnravel(t, shape);
    var index := Unravel(t, shape);
    var moved := Place(inverse, index);
    PlaceValid(index, out, inverse);
    UnravelRavel(moved, out);
    PlaceAt(inverse, index);
    PlaceAt(axes, moved);
    assert Place(axes, moved) == index by {
      forall j | 0 <= j < |shape| ensures Place(axes, moved)[j] == index[j] {
        assert Place(axes, moved)[j] == moved[inverse[j]];
        assert moved[inverse[j]] == index[j];
      }
    }
  }

  // ----- axis-0 slices

  ghost predicate SliceOf(out: seq<nat>, shape: seq<nat>, start: nat) {
    |out| == |shape| > 0 && start + out[0] <= shape[0] && forall i :: 1 <= i < |shape| ==> out[i] == shape[i]
  }

  function Shifted(index: seq<nat>, start: nat): (r: seq<nat>)
    requires |index| > 0
    ensures |r| == |index|
  {
    index[0 := index[0] + start]
  }

  lemma ShiftedValid(index: seq<nat>, out: seq<nat>, shape: seq<nat>, start: nat)
    requires SliceOf(out, shape, start) && ValidIndex(index, out)
    ensures ValidIndex(Shifted(index, start), shape)
  {
    assert index[0] < out[0];
  }

  function SliceOffset(ordinal: nat, out: seq<nat>, shape: seq<nat>, start: nat): (offset: nat)
    requires SliceOf(out, shape, start) && ordinal < Product(out)
    ensures offset < Product(shape)
  {
    RavelUnravel(ordinal, out);
    ShiftedValid(Unravel(ordinal, out), out, shape, start);
    UnravelRavel(Shifted(Unravel(ordinal, out), start), shape);
    Ravel(Shifted(Unravel(ordinal, out), start), shape)
  }

  function SliceMapTo(out: seq<nat>, shape: seq<nat>, start: nat, k: nat): (f: seq<nat>)
    requires SliceOf(out, shape, start) && k <= Product(out)
    ensures |f| == k && forall o :: 0 <= o < k ==> f[o] < Product(shape)
    decreases k
  {
    if k == 0 then [] else SliceMapTo(out, shape, start, k - 1) + [SliceOffset(k - 1, out, shape, start)]
  }

  /** For every ordinal of the slice, the ordinal of the parent it reads. */
  function SliceMap(out: seq<nat>, shape: seq<nat>, start: nat): (f: seq<nat>)
    requires SliceOf(out, shape, start)
    ensures |f| == Product(out) && forall o :: 0 <= o < |f| ==> f[o] < Product(shape)
  {
    SliceMapTo(out, shape, start, Product(out))
  }

  lemma {:induction false} SliceMapToAt(out: seq<nat>, shape: seq<nat>, start: nat, k: nat, o: nat)
    requires SliceOf(out, shape, start) && o < k <= Product(out)
    ensures SliceMapTo(out, shape, start, k)[o] == SliceOffset(o, out, shape, start)
    decreases k
  {
    if o < k - 1 {
      SliceMapToAt(out, shape, start, k - 1, o);
    }
  }

  lemma SliceMapAt(out: seq<nat>, shape: seq<nat>, start: nat, o: nat)
    requires SliceOf(out, shape, start) && o < Product(out)
    ensures SliceMap(out, shape, start)[o] == SliceOffset(o, out, shape, start)
  {
    SliceMapToAt(out, shape, start, Product(out), o);
  }

  /** An axis-0 slice is a contiguous run: it starts `start` rows in. */
  lemma {:induction false} SliceRavel(index: seq<nat>, out: seq<nat>, shape: seq<nat>, start: nat, k: nat)
    requires SliceOf(out, shape, start) && |index| == |out| && 1 <= k <= |shape|
    requires 0 < Product(shape) <= USIZE_MAX
    ensures RavelTo(Shifted(index, start), shape, k) * SuffixSat(shape, k)
         == RavelTo(index, out, k) * SuffixSat(shape, k) + start * SuffixSat(shape, 1)
  {
    if k > 1 {
      SliceRavel(index, out, shape, start, k - 1);
      SuffixExact(shape, k - 1);
      Horner(RavelTo(Shifted(index, start), shape, k - 1), shape[k - 1], SuffixSat(shape, k), index[k - 1]);
      Horner(RavelTo(index, out, k - 1), shape[k - 1], SuffixSat(shape, k), index[k - 1]);
    } else {
      assert RavelTo(Shifted(index, start), shape, 1) == index[0] + start by {
        assert RavelTo(Shifted(index, start), shape, 0) == 0;
      }
      assert RavelTo(index, out, 1) == index[0] by {
        assert RavelTo(index, out, 0) == 0;
      }
      MulDistrib(index[0], start, SuffixSat(shape, 1));
    }
  }

  lemma SliceIsRun(ordinal: nat, out: seq<nat>, shape: seq<nat>, start: nat)
    requires SliceOf(out, shape, start) && ordinal < Product(out) && Product(shape) <= USIZE_MAX
    ensures SliceOffset(ordinal, out, shape, start) == ordinal + start * SuffixSat(shape, 1)
  {
    RavelUnravel(ordinal, out);
    var index := Unravel(ordinal, out);
    ShiftedValid(index, out, shape, start);
    PositiveProduct(shape, |shape|);
    SliceRavel(index, out, shape, start, |shape|);
  }
}

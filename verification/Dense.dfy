/** What the tensor operations compute, on a row-major list of elements and a shape, over any
    element arithmetic. The strided kernels are proved to refine these definitions; the tape is
    replayed with them once over the reals and once over dual numbers. */
module Dense {
  import opened Wrappers
  import opened Shapes

  datatype TensorError =
    | NegativeDim
    | NegativeSlice
    | InvalidSliceRange
    | IndexOutOfBounds
    | NegativeIndex
    | BroadcastMismatch
    | ElementCountOverflow
    | ElementCountMismatch
    | ReshapeCount
    | PermuteRank
    | PermuteNegativeAxis
    | PermuteAxisOutOfRange
    | PermuteDuplicateAxis
    | MatmulReceiverRank
    | MatmulArgumentRank
    | MatmulInnerDimension
    | TransposeRank
    | DivideZeroDenominator
    | MediaEmpty

  /** The element operations a tensor is generic in. */
  datatype Arith<!T> = Arith(
    zero: T,
    lift: real -> T,
    add: (T, T) -> T,
    sub: (T, T) -> T,
    mul: (T, T) -> T,
    div: (T, T) -> T,
    neg: T -> T,
    relu: T -> T,
    isZero: T -> bool)

  /** The logical content of a tensor. */
  datatype Dense<T> = Dense(flat: seq<T>, shape: seq<nat>) {
    predicate Valid() {
      |flat| == Product(shape) && Allocatable(shape) && Words(shape)
    }
  }

  type TensorResult<T> = Result<Dense<T>, TensorError>

  predicate NonNegative(shape: seq<int>) {
    forall i :: 0 <= i < |shape| ==> shape[i] >= 0
  }

  /** The upper range of a signed 64-bit argument list. */
  predicate FitsI64(shape: seq<int>) {
    forall i :: 0 <= i < |shape| ==> shape[i] <= ISIZE_MAX
  }

  function Scalar<T>(x: T): (r: Dense<T>)
    ensures r.Valid()
  {
    Dense([x], [])
  }

  function Crea<T>(shape: seq<nat>, fill: T): (r: TensorResult<T>)
    requires Words(shape)
    ensures r.Ok? <==> Allocatable(shape)
    ensures r.Ok? ==> r.value.Valid() && r.value.shape == shape
  {
    if Allocatable(shape) then Ok(Dense(seq(Product(shape), _ => fill), shape)) else Err(ElementCountOverflow)
  }

  function Map<T, U>(a: Dense<T>, f: T -> U): (r: Dense<U>)
    ensures a.Valid() ==> r.Valid()
  {
    Dense(seq(|a.flat|, i requires 0 <= i < |a.flat| => f(a.flat[i])), a.shape)
  }

  function Scala<T>(A: Arith<T>, a: Dense<T>, factor: real): (r: Dense<T>)
    ensures a.Valid() ==> r.Valid()
    ensures r.shape == a.shape && |r.flat| == |a.flat|
  {
    Dense(seq(|a.flat|, i requires 0 <= i < |a.flat| => A.mul(a.flat[i], A.lift(factor))), a.shape)
  }

  /** Element o of `a` broadcast to the shape `out`. */
  function Spread<T>(a: Dense<T>, out: seq<nat>, o: nat): T
    requires a.Valid() && BroadcastsTo(a.shape, out) && o < Product(out)
  {
    a.flat[BroadcastMap(out, a.shape)[o]]
  }

  function Elementwise<T>(a: Dense<T>, b: Dense<T>, op: (T, T) -> T): (r: TensorResult<T>)
    requires a.Valid() && b.Valid()
    ensures r.Ok? ==> r.value.Valid() && r.value.shape == Join(a.shape, b.shape) && Compatible(a.shape, b.shape)
  {
    if !Compatible(a.shape, b.shape) then Err(BroadcastMismatch)
    else
      var out := Join(a.shape, b.shape);
      if !Allocatable(out) then Err(ElementCountOverflow)
      else
        JoinBroadcasts(a.shape, b.shape);
        JoinWords(a.shape, b.shape);
        Ok(Dense(seq(Product(out), o requires 0 <= o < Product(out) => op(Spread(a, out, o), Spread(b, out, o))), out))
  }

  /** Some broadcast denominator is zero. */
  ghost predicate ZeroDenominator<T>(A: Arith<T>, b: Dense<T>, out: seq<nat>)
    requires b.Valid() && BroadcastsTo(b.shape, out)
  {
    exists o {:trigger Spread(b, out, o)} :: 0 <= o < Product(out) && A.isZero(Spread(b, out, o))
  }

  /** Checked division: the first zero denominator in row-major order stops it. */
  ghost function Divide<T>(A: Arith<T>, a: Dense<T>, b: Dense<T>): (r: TensorResult<T>)
    requires a.Valid() && b.Valid()
    ensures r.Ok? ==> r.value.Valid() && r.value.shape == Join(a.shape, b.shape) && Compatible(a.shape, b.shape)
  {
    var q := Elementwise(a, b, A.div);
    if q.Err? then q
    else
      JoinBroadcasts(a.shape, b.shape);
      if ZeroDenominator(A, b, q.value.shape) then Err(DivideZeroDenominator) else q
  }

  /** Row i, column j of a matrix. */
  function Cell<T>(a: Dense<T>, i: nat, j: nat): T
    requires a.Valid() && |a.shape| == 2 && i < a.shape[0] && j < a.shape[1]
  {
    MatrixCount(a.shape);
    MulAddBound(i, a.shape[0], a.shape[1], j);
    a.flat[i * a.shape[1] + j]
  }

  lemma MatrixCount(shape: seq<nat>)
    requires |shape| == 2
    ensures Product(shape) == shape[0] * shape[1]
  {
    assert ProductTo(shape, 1) == ProductTo(shape, 0) * shape[0];
  }

  /** The first k terms of the contraction for row i and column j. */
  function Contract<T>(A: Arith<T>, a: Dense<T>, b: Dense<T>, i: nat, j: nat, k: nat): T
    requires a.Valid() && b.Valid() && |a.shape| == 2 && |b.shape| == 2 && a.shape[1] == b.shape[0]
    requires i < a.shape[0] && j < b.shape[1] && k <= a.shape[1]
  {
    if k == 0 then A.zero
    else A.add(Contract(A, a, b, i, j, k - 1), A.mul(Cell(a, i, k - 1), Cell(b, k - 1, j)))
  }

  function Matmul<T>(A: Arith<T>, a: Dense<T>, b: Dense<T>): (r: TensorResult<T>)
    requires a.Valid() && b.Valid()
    ensures r.Ok? ==> r.value.Valid() && |a.shape| == 2 && |b.shape| == 2 && a.shape[1] == b.shape[0] &&
                      r.value.shape == [a.shape[0], b.shape[1]]
  {
    if |a.shape| != 2 then Err(MatmulReceiverRank)
    else if |b.shape| != 2 then Err(MatmulArgumentRank)
    else if a.shape[1] != b.shape[0] then Err(MatmulInnerDimension)
    else
      var m, n := a.shape[0], b.shape[1];
      if !Allocatable([m, n]) then Err(ElementCountOverflow)
      else
        Ok(Dense(seq(Product([m, n]), o requires 0 <= o < Product([m, n]) => MatmulAt(A, a, b, o)), [m, n]))
  }

  /** Row and column of flat position o in an m by n matrix. */
  function RowColumn(o: nat, m: nat, n: nat): (cell: (nat, nat))
    requires o < m * n
    ensures cell.0 < m && cell.1 < n && o == cell.0 * n + cell.1
  {
    DivModBound(o, m, n);
    (o / n, o % n)
  }

  lemma RowColumnOf(i: nat, j: nat, m: nat, n: nat)
    requires i < m && j < n
    ensures 0 <= i * n + j < m * n && RowColumn(i * n + j, m, n) == (i, j)
  {
    MulAddBound(i, m, n, j);
  }

  /** Element o of the product: row o / n, column o % n. */
  function MatmulAt<T>(A: Arith<T>, a: Dense<T>, b: Dense<T>, o: nat): T
    requires a.Valid() && b.Valid() && |a.shape| == 2 && |b.shape| == 2 && a.shape[1] == b.shape[0]
    requires o < Product([a.shape[0], b.shape[1]])
  {
    MatrixCount([a.shape[0], b.shape[1]]);
    var cell := RowColumn(o, a.shape[0], b.shape[1]);
    Contract(A, a, b, cell.0, cell.1, a.shape[1])
  }

  /** Element o of the transpose of `a`. */
  function TransposeAt<T>(a: Dense<T>, o: nat): T
    requires a.Valid() && |a.shape| == 2 && o < Product([a.shape[1], a.shape[0]])
  {
    MatrixCount([a.shape[1], a.shape[0]]);
    var cell := RowColumn(o, a.shape[1], a.shape[0]);
    Cell(a, cell.1, cell.0)
  }

  function Transpose<T>(a: Dense<T>): (r: TensorResult<T>)
    requires a.Valid()
    ensures r.Ok? <==> |a.shape| == 2
    ensures r.Ok? ==> r.value.Valid() && r.value.shape == [a.shape[1], a.shape[0]]
  {
    if |a.shape| != 2 then Err(TransposeRank)
    else
      var out := [a.shape[1], a.shape[0]];
      TransposeFits(a.shape);
      Ok(Dense(seq(Product(out), o requires 0 <= o < Product(out) => TransposeAt(a, o)), out))
  }

  lemma TransposeFits(shape: seq<nat>)
    requires |shape| == 2 && Allocatable(shape) && Words(shape)
    ensures Allocatable([shape[1], shape[0]])
  {
    MatrixCount(shape);
    MatrixCount([shape[1], shape[0]]);
    var t := [shape[1], shape[0]];
    assert ProductTo(t, 1) == t[0] by {
      assert ProductTo(t, 0) == 1;
    }
    assert ProductTo(t, 2) == Product(t);
  }

  function Forma<T>(a: Dense<T>, shape: seq<int>): (r: TensorResult<T>)
    requires a.Valid() && FitsI64(shape)
    ensures r.Ok? ==> r.value.Valid() && NonNegative(shape) && r.value == Dense(a.flat, ToNats(shape))
  {
    if !NonNegative(shape) then Err(NegativeDim)
    else if !(CountFits(ToNats(shape)) && Product(ToNats(shape)) == |a.flat|) then Err(ReshapeCount)
    else Ok(Dense(a.flat, ToNats(shape)))
  }

  /** The first fault `permute_axes` meets among axes k.., in its order of checks. */
  function AxisFault(axes: seq<int>, rank: nat, k: nat): (r: Option<TensorError>)
    requires k <= |axes|
    decreases |axes| - k
  {
    if k == |axes| then None
    else if axes[k] < 0 then Some(PermuteNegativeAxis)
    else if axes[k] >= rank then Some(PermuteAxisOutOfRange)
    else if axes[k] in axes[..k] then Some(PermuteDuplicateAxis)
    else AxisFault(axes, rank, k + 1)
  }

  /** The fault is that of the first axis that is negative, too large or there before. */
  lemma {:induction false} FirstAxisFault(axes: seq<int>, rank: nat, k: nat, at: nat)
    requires k <= at < |axes| && (axes[at] < 0 || axes[at] >= rank || exists i :: 0 <= i < at && axes[i] == axes[at])
    requires forall i :: k <= i < at ==> 0 <= axes[i] < rank && forall j :: 0 <= j < i ==> axes[j] != axes[i]
    ensures AxisFault(axes, rank, k) ==
              Some(if axes[at] < 0 then PermuteNegativeAxis
                   else if axes[at] >= rank then PermuteAxisOutOfRange else PermuteDuplicateAxis)
    decreases at - k
  {
    if k < at {
      assert axes[k] !in axes[..k];
      FirstAxisFault(axes, rank, k + 1, at);
    } else if exists i :: 0 <= i < at && axes[i] == axes[at] {
      var i :| 0 <= i < at && axes[i] == axes[at];
      assert axes[..at][i] == axes[at];
    }
  }

  lemma {:induction false} AxisFaultFree(axes: seq<int>, k: nat)
    requires k <= |axes|
    requires forall i :: 0 <= i < k ==> 0 <= axes[i] < |axes| && axes[i] !in axes[..i]
    ensures AxisFault(axes, |axes|, k).None? <==> PermutationAxes(axes)
    decreases |axes| - k
  {
    if k == |axes| {
      var nats := ToNats(axes);
      forall i, j | 0 <= i < j < |axes| ensures nats[i] != nats[j] {
        assert axes[..j][i] == axes[i];
      }
    } else if PermutationAxes(axes) {
      assert axes[k] !in axes[..k] by {
        var nats := ToNats(axes);
        forall i | 0 <= i < k ensures axes[..k][i] != axes[k] {
          assert nats[i] != nats[k];
        }
      }
      AxisFaultFree(axes, k + 1);
    } else if AxisFault(axes, |axes|, k).None? {
      assert axes[k] !in axes[..k];
      AxisFaultFree(axes, k + 1);
    }
  }

  function Permute<T>(a: Dense<T>, axes: seq<int>): (r: TensorResult<T>)
    requires a.Valid()
    ensures r.Ok? ==> r.value.Valid() && |axes| == |a.shape| && PermutationAxes(axes) &&
                      r.value.shape == PermutedShape(a.shape, ToNats(axes))
  {
    if |axes| != |a.shape| then Err(PermuteRank)
    else
      AxisFaultFree(axes, 0);
      match AxisFault(axes, |a.shape|, 0)
      case Some(fault) => Err(fault)
      case None =>
        var out := PermutedShape(a.shape, ToNats(axes));
        if !Allocatable(out) then Err(ElementCountOverflow)
        else Ok(Dense(seq(Product(out),
            o requires 0 <= o < Product(out) => a.flat[PermuteMap(a.shape, ToNats(axes))[o]]), out))
  }

  lemma PermuteReads<T>(a: Dense<T>, axes: seq<nat>, out: seq<nat>)
    requires a.Valid() && |axes| == |a.shape| && IsPermutation(axes) && out == PermutedShape(a.shape, axes) &&
             Allocatable(out)
    ensures Permute(a, axes).Ok? && Permute(a, axes).value.shape == out
    ensures var f := PermuteMap(a.shape, axes);
      |Permute(a, axes).value.flat| == |f| && forall o :: 0 <= o < |f| ==>
          Permute(a, axes).value.flat[o] == a.flat[f[o]]
  {
    hide ProductTo, CountFits;
    assert ToNats(axes) == axes;
    AxisFaultFree(axes, 0);
  }

  /** Permuting by any valid axis list and then by its inverse gives the tensor back. */
  lemma PermuteRoundTrip<T>(a: Dense<T>, axes: seq<int>)
    requires a.Valid() && Permute(a, axes).Ok?
    ensures Permute(Permute(a, axes).value, InverseAxes(ToNats(axes))) == Ok(a)
  {
    hide ProductTo, CountFits, IsPermutation;
    var order, there := ToNats(axes), Permute(a, axes).value;
    var inverse := InverseAxes(order);
    PermuteMapInverse(a.shape, order);
    var f, g := PermuteMap(a.shape, order), PermuteMap(there.shape, inverse);
    PermuteReads(there, inverse, a.shape);
    var back := Permute(there, inverse).value;
    forall t | 0 <= t < |a.flat| ensures back.flat[t] == a.flat[t] {
      assert there.flat[g[t]] == a.flat[f[g[t]]];
    }
    assert back.flat == a.flat;
  }

  function Sectio<T>(a: Dense<T>, start: int, end: int): (r: TensorResult<T>)
    requires a.Valid()
    ensures r.Ok? <==> 0 <= start <= end && |a.shape| > 0 && end <= a.shape[0]
    ensures r.Ok? ==>
              r.value.Valid() && r.value.shape == a.shape[0 := end - start] && SliceOf(r.value.shape, a.shape, start)
  {
    if start < 0 || end < 0 then Err(NegativeSlice)
    else if end < start then Err(InvalidSliceRange)
    else if |a.shape| == 0 || end > a.shape[0] then Err(IndexOutOfBounds)
    else
      var out := a.shape[0 := end - start];
      SliceFits(out, a.shape, start);
      Ok(Dense(seq(Product(out), o requires 0 <= o < Product(out) => a.flat[SliceMap(out, a.shape, start)[o]]), out))
  }

  lemma {:induction false} SliceShrinks(out: seq<nat>, shape: seq<nat>, start: nat, k: nat)
    requires SliceOf(out, shape, start) && k <= |shape|
    ensures ProductTo(out, k) <= ProductTo(shape, k)
  {
    if k > 1 {
      SliceShrinks(out, shape, start, k - 1);
      MulMono(ProductTo(shape, k - 1), ProductTo(out, k - 1), shape[k - 1]);
    } else if k == 1 {
      assert ProductTo(out, 0) == ProductTo(shape, 0) == 1;
    }
  }

  lemma SliceFits(out: seq<nat>, shape: seq<nat>, start: nat)
    requires SliceOf(out, shape, start) && Allocatable(shape)
    ensures Allocatable(out)
  {
    forall k {:trigger ProductTo(out, k)} | 0 <= k <= |out| ensures ProductTo(out, k) <= USIZE_MAX {
      SliceShrinks(out, shape, start, k);
    }
    SliceShrinks(out, shape, start, |shape|);
  }

  /** Left fold of the first k elements, starting from zero. */
  function FoldTo<T>(A: Arith<T>, flat: seq<T>, k: nat): T
    requires k <= |flat|
  {
    if k == 0 then A.zero else A.add(FoldTo(A, flat, k - 1), flat[k - 1])
  }

  function Summa<T>(A: Arith<T>, a: Dense<T>): T {
    FoldTo(A, a.flat, |a.flat|)
  }

  function Media<T>(A: Arith<T>, a: Dense<T>): (r: Result<T, TensorError>)
    ensures r.Ok? <==> |a.flat| > 0
  {
    if |a.flat| == 0 then Err(MediaEmpty) else Ok(A.div(Summa(A, a), A.lift(|a.flat| as real)))
  }
}

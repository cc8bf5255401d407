/** The strided tensor descriptor and its materializing kernels. Every kernel walks its operands
    through strides and offset, and is proved to compute the definition in Dense on their logical
    contents, with the same error. Buffers here are snapshots; Views models the shared one. */
module Tensors {
  import opened Wrappers
  import opened Shapes
  import D = Dense

  datatype Tensor<T> = Tensor(data: seq<T>, shape: seq<nat>, strides: seq<nat>, offset: nat, view: bool)

  type KernelResult<T> = Result<Tensor<T>, D.TensorError>

  /** Every logical index addresses the buffer. */
  ghost predicate WellFormed<T>(t: Tensor<T>) {
    && |t.strides| == |t.shape|
    && Allocatable(t.shape)
    && Words(t.shape)
    && forall index {:trigger ValidIndex(index, t.shape)} ::
         ValidIndex(index, t.shape) ==> t.offset + OffsetSum(index, t.strides) < |t.data|
  }

  /** An owned row-major tensor, as `from_contiguous` builds it. */
  ghost predicate Contiguous<T>(t: Tensor<T>) {
    && t.strides == Strides(t.shape)
    && t.offset == 0
    && !t.view
    && |t.data| == Product(t.shape)
    && Allocatable(t.shape)
    && Words(t.shape)
  }

  function ValueAt<T>(t: Tensor<T>, index: seq<nat>): T
    requires WellFormed(t) && ValidIndex(index, t.shape)
  {
    t.data[t.offset + OffsetSum(index, t.strides)]
  }

  function ElementAt<T>(t: Tensor<T>, ordinal: nat): T
    requires WellFormed(t) && ordinal < Product(t.shape)
  {
    RavelUnravel(ordinal, t.shape);
    ValueAt(t, Unravel(ordinal, t.shape))
  }

  /** The row-major list of elements a descriptor stands for. */
  ghost function Logical<T>(t: Tensor<T>): (d: D.Dense<T>)
    requires WellFormed(t)
    ensures d.Valid() && d.shape == t.shape
  {
    D.Dense(seq(Product(t.shape), o requires 0 <= o < Product(t.shape) => ElementAt(t, o)), t.shape)
  }

  lemma ValueIsFlat<T>(t: Tensor<T>, index: seq<nat>)
    requires WellFormed(t) && ValidIndex(index, t.shape)
    ensures Ravel(index, t.shape) < Product(t.shape)
    ensures ValueAt(t, index) == Logical(t).flat[Ravel(index, t.shape)]
  {
    UnravelRavel(index, t.shape);
  }

  /** A row-major tensor stands for its own buffer. */
  lemma ContiguousLogical<T>(t: Tensor<T>)
    requires Contiguous(t)
    ensures WellFormed(t) && Logical(t) == D.Dense(t.data, t.shape)
  {
    forall index {:trigger ValidIndex(index, t.shape)} | ValidIndex(index, t.shape)
      ensures OffsetSum(index, t.strides) < |t.data|
    {
      OffsetIsRavel(index, t.shape);
      UnravelRavel(index, t.shape);
    }
    forall o | 0 <= o < Product(t.shape) ensures ElementAt(t, o) == t.data[o] {
      RavelUnravel(o, t.shape);
      OffsetIsRavel(Unravel(o, t.shape), t.shape);
    }
  }

  /** A kernel result stands for the defined result, or carries the defined error. */
  ghost predicate Refines<T>(r: KernelResult<T>, s: D.TensorResult<T>) {
    match s
    case Err(error) => r == Err(error)
    case Ok(dense) => r.Ok? && Contiguous(r.value) && WellFormed(r.value) && Logical(r.value) == dense
  }

  method FromContiguous<T>(data: seq<T>, shape: seq<nat>) returns (t: Tensor<T>)
    requires |data| == Product(shape) && Allocatable(shape) && Words(shape)
    ensures Contiguous(t) && WellFormed(t) && Logical(t) == D.Dense(data, shape)
  {
    var strides := RowMajorStrides(shape);
    t := Tensor(data, shape, strides, 0, false);
    ContiguousLogical(t);
  }

  method Planata<T>(t: Tensor<T>) returns (flat: seq<T>)
    requires WellFormed(t)
    ensures flat == Logical(t).flat
  {
    var _, count := CheckedElementCount(t.shape);
    flat := [];
    for ordinal := 0 to count
      invariant flat == Logical(t).flat[..ordinal]
    {
      var index := UnravelIndex(ordinal, t.shape);
      RavelUnravel(ordinal, t.shape);
      flat := flat + [ValueAt(t, index)];
    }
  }

  method Materialize<T>(t: Tensor<T>) returns (r: Tensor<T>)
    requires WellFormed(t)
    ensures Contiguous(r) && WellFormed(r) && Logical(r) == Logical(t)
  {
    var flat := Planata(t);
    r := FromContiguous(flat, t.shape);
  }

  method Structa<T>(data: seq<T>, shape: seq<int>) returns (r: KernelResult<T>)
    requires D.FitsI64(shape) && |data| <= ISIZE_MAX / 4
    ensures !D.NonNegative(shape) ==> r == Err(D.NegativeDim)
    ensures D.NonNegative(shape) ==>
      var dims := ToNats(shape);
      Refines(r, if CountFits(dims) && Product(dims) == |data| then Ok(D.Dense(data, dims))
                 else Err(D.ElementCountMismatch))
  {
    if !D.NonNegative(shape) {
      return Err(D.NegativeDim);
    }
    var dims := ToNats(shape);
    var fits, count := CheckedElementCount(dims);
    if !fits || count != |data| {
      return Err(D.ElementCountMismatch);
    }
    var t := FromContiguous(data, dims);
    r := Ok(t);
  }

  method CheckAllocation(shape: seq<nat>) returns (ok: bool, count: nat)
    ensures ok == Allocatable(shape)
    ensures ok ==> count == Product(shape)
  {
    ok, count := CheckedElementCount(shape);
    ok := ok && count <= ISIZE_MAX / 4;
  }

  method Crea<T>(shape: seq<nat>, fill: T) returns (r: KernelResult<T>)
    requires Words(shape)
    ensures Refines(r, D.Crea(shape, fill))
  {
    var ok, count := CheckAllocation(shape);
    if !ok {
      return Err(D.ElementCountOverflow);
    }
    var t := FromContiguous(seq(count, _ => fill), shape);
    r := Ok(t);
  }

  method MapElements<T, U>(t: Tensor<T>, f: T -> U) returns (r: Tensor<U>)
    requires WellFormed(t)
    ensures Contiguous(r) && WellFormed(r) && Logical(r) == D.Map(Logical(t), f)
  {
    var flat := Planata(t);
    r := FromContiguous(seq(|flat|, i requires 0 <= i < |flat| => f(flat[i])), t.shape);
  }

  lemma SpreadIsValue<T>(t: Tensor<T>, out: seq<nat>, o: nat)
    requires WellFormed(t) && BroadcastsTo(t.shape, out) && o < Product(out)
    ensures forall i :: 0 <= i < |out| ==> out[i] > 0
    ensures ValidIndex(BroadcastIndex(Unravel(o, out), t.shape), t.shape)
    ensures ValueAt(t, BroadcastIndex(Unravel(o, out), t.shape)) == D.Spread(Logical(t), out, o)
  {
    RavelUnravel(o, out);
    BroadcastMapAt(out, t.shape, o);
    var index := BroadcastIndex(Unravel(o, out), t.shape);
    BroadcastIndexValid(Unravel(o, out), t.shape, out);
    ValueIsFlat(t, index);
  }

  /** Both operands read through broadcasting at one ordinal of the result. */
  method SpreadPair<T>(lhs: Tensor<T>, rhs: Tensor<T>, shape: seq<nat>, ordinal: nat) returns (left: T, right: T)
    requires WellFormed(lhs) && WellFormed(rhs) && BroadcastsTo(lhs.shape, shape) && BroadcastsTo(rhs.shape, shape)
    requires ordinal < Product(shape)
    ensures left == D.Spread(Logical(lhs), shape, ordinal) && right == D.Spread(Logical(rhs), shape, ordinal)
  {
    var index := UnravelIndex(ordinal, shape);
    SpreadIsValue(lhs, shape, ordinal);
    SpreadIsValue(rhs, shape, ordinal);
    left := ValueAt(lhs, BroadcastIndex(index, lhs.shape));
    right := ValueAt(rhs, BroadcastIndex(index, rhs.shape));
  }

  /** The broadcast shape, once compatible and allocatable. */
  method ResultShape<T>(lhs: Tensor<T>, rhs: Tensor<T>) returns (r: Result<seq<nat>, D.TensorError>)
    requires WellFormed(lhs) && WellFormed(rhs)
    ensures match r
      case Ok(shape) => Compatible(lhs.shape, rhs.shape) && shape == Join(lhs.shape, rhs.shape) && Allocatable(shape) &&
                        Words(shape) && BroadcastsTo(lhs.shape, shape) && BroadcastsTo(rhs.shape, shape)
      case Err(BroadcastMismatch) => !Compatible(lhs.shape, rhs.shape)
      case Err(error) =>
        && error == D.ElementCountOverflow && Compatible(lhs.shape, rhs.shape)
        && !Allocatable(Join(lhs.shape, rhs.shape))
  {
    var compatible, shape := BroadcastShape(lhs.shape, rhs.shape);
    if !compatible {
      return Err(D.BroadcastMismatch);
    }
    var ok, _ := CheckAllocation(shape);
    if !ok {
      return Err(D.ElementCountOverflow);
    }
    JoinBroadcasts(lhs.shape, rhs.shape);
    JoinWords(lhs.shape, rhs.shape);
    r := Ok(shape);
  }

  /** The loop of `tensor_elementwise`. */
  method PairwiseValues<T>(lhs: Tensor<T>, rhs: Tensor<T>, shape: seq<nat>, op: (T, T) -> T) returns (data: seq<T>)
    requires WellFormed(lhs) && WellFormed(rhs) && BroadcastsTo(lhs.shape, shape) && BroadcastsTo(rhs.shape, shape)
    requires Allocatable(shape)
    ensures |data| == Product(shape)
    ensures forall o :: 0 <= o < |data| ==>
            data[o] == op(D.Spread(Logical(lhs), shape, o), D.Spread(Logical(rhs), shape, o))
  {
    hide ProductTo, CountFits, Logical, WellFormed;
    ghost var l, rr := Logical(lhs), Logical(rhs);
    var _, count := CheckedElementCount(shape);
    data := [];
    for ordinal := 0 to count
      invariant |data| == ordinal
      invariant forall o :: 0 <= o < ordinal ==> data[o] == op(D.Spread(l, shape, o), D.Spread(rr, shape, o))
    {
      var left, right := SpreadPair(lhs, rhs, shape, ordinal);
      data := data + [op(left, right)];
    }
  }

  method Elementwise<T>(lhs: Tensor<T>, rhs: Tensor<T>, op: (T, T) -> T) returns (r: KernelResult<T>)
    requires WellFormed(lhs) && WellFormed(rhs)
    ensures Refines(r, D.Elementwise(Logical(lhs), Logical(rhs), op))
  {
    hide ProductTo, CountFits;
    var joined := ResultShape(lhs, rhs);
    ghost var l, rr := Logical(lhs), Logical(rhs);
    ghost var spec := D.Elementwise(l, rr, op);
    if joined.Err? {
      assert spec == Err(joined.error);
      return Err(joined.error);
    }
    var shape := joined.value;
    assert spec.Ok? && spec.value.shape == shape;
    var data := PairwiseValues(lhs, rhs, shape, op);
    assert data == spec.value.flat;
    var t := FromContiguous(data, shape);
    r := Ok(t);
  }

  /** The loop of `divide`: it stops at the first zero denominator. */
  method Quotients<T>(A: D.Arith<T>, lhs: Tensor<T>, rhs: Tensor<T>, shape: seq<nat>) returns (ok: bool, data: seq<T>)
    requires WellFormed(lhs) && WellFormed(rhs) && BroadcastsTo(lhs.shape, shape) && BroadcastsTo(rhs.shape, shape)
    requires Allocatable(shape)
    ensures ok == !D.ZeroDenominator(A, Logical(rhs), shape)
    ensures ok ==> |data| == Product(shape) && forall o :: 0 <= o < |data| ==>
                     data[o] == A.div(D.Spread(Logical(lhs), shape, o), D.Spread(Logical(rhs), shape, o))
  {
    hide ProductTo, CountFits, Logical, WellFormed;
    ghost var l, rr := Logical(lhs), Logical(rhs);
    var _, count := CheckedElementCount(shape);
    data := [];
    for ordinal := 0 to count
      invariant |data| == ordinal
      invariant forall o :: 0 <= o < ordinal ==> data[o] == A.div(D.Spread(l, shape, o), D.Spread(rr, shape, o))
      invariant forall o {:trigger D.Spread(rr, shape, o)} :: 0 <= o < ordinal ==> !A.isZero(D.Spread(rr, shape, o))
    {
      var left, right := SpreadPair(lhs, rhs, shape, ordinal);
      if A.isZero(right) {
        return false, [];
      }
      data := data + [A.div(left, right)];
    }
    ok := true;
  }

  method Divide<T>(A: D.Arith<T>, lhs: Tensor<T>, rhs: Tensor<T>) returns (r: KernelResult<T>)
    requires WellFormed(lhs) && WellFormed(rhs)
    ensures Refines(r, D.Divide(A, Logical(lhs), Logical(rhs)))
  {
    var joined := ResultShape(lhs, rhs);
    ghost var spec := D.Divide(A, Logical(lhs), Logical(rhs));
    ghost var quotient := D.Elementwise(Logical(lhs), Logical(rhs), A.div);
    if joined.Err? {
      assert quotient == Err(joined.error);
      return Err(joined.error);
    }
    var shape := joined.value;
    var ok, data := Quotients(A, lhs, rhs, shape);
    assert quotient.Ok? && quotient.value.shape == shape;
    if !ok {
      assert spec == Err(D.DivideZeroDenominator);
      return Err(D.DivideZeroDenominator);
    }
    assert spec == quotient;
    assert data == quotient.value.flat;
    var t := FromContiguous(data, shape);
    r := Ok(t);
  }

  lemma CellIsValue<T>(t: Tensor<T>, i: nat, j: nat)
    requires WellFormed(t) && |t.shape| == 2 && i < t.shape[0] && j < t.shape[1]
    ensures ValidIndex([i, j], t.shape)
    ensures ValueAt(t, [i, j]) == D.Cell(Logical(t), i, j)
  {
    ValueIsFlat(t, [i, j]);
    assert RavelTo([i, j], t.shape, 1) == RavelTo([i, j], t.shape, 0) * t.shape[0] + i == i;
  }

  /** The innermost loop of `matmul`. */
  method ContractLoop<T>(A: D.Arith<T>, lhs: Tensor<T>, rhs: Tensor<T>, i: nat, j: nat) returns (acc: T)
    requires WellFormed(lhs) && WellFormed(rhs) && |lhs.shape| == 2 && |rhs.shape| == 2 && lhs.shape[1] == rhs.shape[0]
    requires i < lhs.shape[0] && j < rhs.shape[1]
    ensures acc == D.Contract(A, Logical(lhs), Logical(rhs), i, j, lhs.shape[1])
  {
    hide D.Cell, ProductTo, CountFits, ValueAt, Logical, WellFormed;
    acc := A.zero;
    for k := 0 to lhs.shape[1]
      invariant acc == D.Contract(A, Logical(lhs), Logical(rhs), i, j, k)
    {
      CellIsValue(lhs, i, k);
      CellIsValue(rhs, k, j);
      acc := A.add(acc, A.mul(ValueAt(lhs, [i, k]), ValueAt(rhs, [k, j])));
    }
  }

  /** The contraction: rows, then columns, then the inner dimension. */
  method Matmul<T>(A: D.Arith<T>, lhs: Tensor<T>, rhs: Tensor<T>) returns (r: KernelResult<T>)
    requires WellFormed(lhs) && WellFormed(rhs)
    ensures Refines(r, D.Matmul(A, Logical(lhs), Logical(rhs)))
  {
    if |lhs.shape| != 2 {
      return Err(D.MatmulReceiverRank);
    }
    if |rhs.shape| != 2 {
      return Err(D.MatmulArgumentRank);
    }
    var m, n := lhs.shape[0], rhs.shape[1];
    if lhs.shape[1] != rhs.shape[0] {
      return Err(D.MatmulInnerDimension);
    }
    var ok, _ := CheckAllocation([m, n]);
    if !ok {
      return Err(D.ElementCountOverflow);
    }
    hide Logical, WellFormed, D.MatmulAt;
    D.MatrixCount([m, n]);
    var result := MatmulLoops(A, lhs, rhs);
    assert result == D.Matmul(A, Logical(lhs), Logical(rhs)).value.flat;
    var t := FromContiguous(result, [m, n]);
    r := Ok(t);
  }

  method MatmulLoops<T>(A: D.Arith<T>, lhs: Tensor<T>, rhs: Tensor<T>) returns (result: seq<T>)
    requires WellFormed(lhs) && WellFormed(rhs) && |lhs.shape| == 2 && |rhs.shape| == 2 && lhs.shape[1] == rhs.shape[0]
    ensures |result| == Product([lhs.shape[0], rhs.shape[1]])
    ensures forall o :: 0 <= o < |result| ==> result[o] == D.MatmulAt(A, Logical(lhs), Logical(rhs), o)
  {
    hide Logical, WellFormed, D.Contract, D.RowColumn;
    ghost var l, rr := Logical(lhs), Logical(rhs);
    var m, n := lhs.shape[0], rhs.shape[1];
    D.MatrixCount([m, n]);
    result := [];
    for i := 0 to m
      invariant |result| == i * n <= m * n
      invariant forall o :: 0 <= o < i * n ==> result[o] == D.MatmulAt(A, l, rr, o)
    {
      MulMono(m, i + 1, n);
      MulDistrib(i, 1, n);
      for j := 0 to n
        invariant |result| == i * n + j <= m * n
        invariant forall o :: 0 <= o < i * n + j ==> result[o] == D.MatmulAt(A, l, rr, o)
      {
        var acc := ContractLoop(A, lhs, rhs, i, j);
        D.RowColumnOf(i, j, m, n);
        assert D.MatmulAt(A, l, rr, i * n + j) == acc;
        result := result + [acc];
      }
    }
  }

  method TransposeRank2<T>(t: Tensor<T>) returns (r: KernelResult<T>)
    requires WellFormed(t)
    ensures Refines(r, D.Transpose(Logical(t)))
  {
    if |t.shape| != 2 {
      return Err(D.TransposeRank);
    }
    var rows, cols := t.shape[0], t.shape[1];
    D.TransposeFits(t.shape);
    ghost var expected := D.Transpose(Logical(t)).value;
    D.MatrixCount([cols, rows]);
    var data: seq<T> := [];
    for col := 0 to cols
      invariant |data| == col * rows <= cols * rows
      invariant data == expected.flat[..col * rows]
    {
      MulMono(cols, col + 1, rows);
      MulDistrib(col, 1, rows);
      for row := 0 to rows
        invariant |data| == col * rows + row <= cols * rows
        invariant data == expected.flat[..col * rows + row]
      {
        CellIsValue(t, row, col);
        D.RowColumnOf(col, row, cols, rows);
        assert expected.flat[col * rows + row] == ValueAt(t, [row, col]);
        data := data + [ValueAt(t, [row, col])];
      }
    }
    var out := FromContiguous(data, [cols, rows]);
    r := Ok(out);
  }

  /** The loop of `permute_axes`, reporting the first fault it meets. */
  method PermuteAxes(axes: seq<int>, rank: nat) returns (r: Result<seq<nat>, D.TensorError>)
    ensures |axes| != rank ==> r == Err(D.PermuteRank)
    ensures |axes| == rank ==>
      match D.AxisFault(axes, rank, 0)
      case Some(fault) => r == Err(fault)
      case None => PermutationAxes(axes) && r == Ok(ToNats(axes))
  {
    if |axes| != rank {
      return Err(D.PermuteRank);
    }
    var parsed: seq<nat> := [];
    var seen := new bool[rank](_ => false);
    for k := 0 to rank
      invariant D.AxisFault(axes, rank, 0) == D.AxisFault(axes, rank, k)
      invariant |parsed| == k && forall i :: 0 <= i < k ==> 0 <= axes[i] < rank && parsed[i] == axes[i]
      invariant forall i :: 0 <= i < k ==> axes[i] !in axes[..i]
      invariant forall j :: 0 <= j < rank ==> (seen[j] <==> j in axes[..k])
    {
      var axis := axes[k];
      if axis < 0 {
        return Err(D.PermuteNegativeAxis);
      }
      if axis >= rank {
        return Err(D.PermuteAxisOutOfRange);
      }
      if seen[axis] {
        return Err(D.PermuteDuplicateAxis);
      }
      assert axes[..k + 1] == axes[..k] + [axis];
      seen[axis] := true;
      parsed := parsed + [axis];
    }
    D.AxisFaultFree(axes, 0);
    assert parsed == ToNats(axes);
    r := Ok(parsed);
  }

  /** The inner loop of `permute`: input coordinates from output coordinates. */
  method InputIndex(axes: seq<nat>, index: seq<nat>) returns (input: seq<nat>)
    requires IsPermutation(axes) && |axes| == |index|
    ensures input == Place(axes, index)
  {
    var buffer := new nat[|axes|](_ => 0);
    for i := 0 to |axes|
      invariant buffer[..] == PlaceTo(axes, index, i)
    {
      buffer[axes[i]] := index[i];
    }
    input := buffer[..];
  }

  method Permute<T>(t: Tensor<T>, axes: seq<int>) returns (r: KernelResult<T>)
    requires WellFormed(t)
    ensures Refines(r, D.Permute(Logical(t), axes))
  {
    var parsed := PermuteAxes(axes, |t.shape|);
    if parsed.Err? {
      return Err(parsed.error);
    }
    var order := parsed.value;
    var shape := PermutedShape(t.shape, order);
    var ok, count := CheckAllocation(shape);
    if !ok {
      return Err(D.ElementCountOverflow);
    }
    ghost var expected := D.Permute(Logical(t), axes).value;
    var data: seq<T> := [];
    for ordinal := 0 to count
      invariant data == expected.flat[..ordinal]
    {
      var outputIndex := UnravelIndex(ordinal, shape);
      var inputIndex := InputIndex(order, outputIndex);
      RavelUnravel(ordinal, shape);
      PermuteMapAt(t.shape, order, ordinal);
      PlaceValid(outputIndex, t.shape, order);
      ValueIsFlat(t, inputIndex);
      data := data + [ValueAt(t, inputIndex)];
    }
    var out := FromContiguous(data, shape);
    r := Ok(out);
  }

  method Forma<T>(t: Tensor<T>, shape: seq<int>) returns (r: KernelResult<T>)
    requires WellFormed(t) && D.FitsI64(shape)
    ensures Refines(r, D.Forma(Logical(t), shape))
  {
    if !D.NonNegative(shape) {
      return Err(D.NegativeDim);
    }
    var dims := ToNats(shape);
    var fits, count := CheckedElementCount(dims);
    var _, own := CheckedElementCount(t.shape);
    if !fits || count != own {
      return Err(D.ReshapeCount);
    }
    var flat := Planata(t);
    var out := FromContiguous(flat, dims);
    r := Ok(out);
  }

  /** Axis-0 slice: a view on the same buffer, with the parent's strides and a moved offset. */
  method Sectio<T>(t: Tensor<T>, start: int, end: int) returns (r: KernelResult<T>)
    requires WellFormed(t)
    ensures match D.Sectio(Logical(t), start, end)
      case Err(error) => r == Err(error)
      case Ok(dense) => r.Ok? && WellFormed(r.value) && Logical(r.value) == dense &&
                        r.value.view && r.value.data == t.data && r.value.strides == t.strides
  {
    if start < 0 || end < 0 {
      return Err(D.NegativeSlice);
    }
    if end < start {
      return Err(D.InvalidSliceRange);
    }
    if |t.shape| == 0 || end > t.shape[0] {
      return Err(D.IndexOutOfBounds);
    }
    var shape := t.shape[0 := end - start];
    var out := Tensor(t.data, shape, t.strides, t.offset + start * t.strides[0], true);
    D.SliceFits(shape, t.shape, start);
    SliceCorrect(t, out, start);
    r := Ok(out);
  }

  lemma {:induction false} ShiftedOffset(index: seq<nat>, strides: seq<nat>, start: nat, k: nat)
    requires |index| == |strides| && 1 <= k <= |index|
    ensures OffsetTo(Shifted(index, start), strides, k) == OffsetTo(index, strides, k) + start * strides[0]
    decreases k
  {
    if k > 1 {
      ShiftedOffset(index, strides, start, k - 1);
    } else {
      assert OffsetTo(index, strides, 0) == 0 == OffsetTo(Shifted(index, start), strides, 0);
      MulDistrib(index[0], start, strides[0]);
    }
  }

  /** The moved offset addresses in `out` what shifted coordinates address in `t`. */
  lemma SliceCorrect<T>(t: Tensor<T>, out: Tensor<T>, start: nat)
    requires WellFormed(t) && SliceOf(out.shape, t.shape, start)
    requires out.data == t.data && out.strides == t.strides && out.offset == t.offset + start * t.strides[0]
    ensures WellFormed(out)
    ensures forall o :: 0 <= o < Product(out.shape) ==>
            ElementAt(out, o) == Logical(t).flat[SliceMap(out.shape, t.shape, start)[o]]
  {
    D.SliceFits(out.shape, t.shape, start);
    forall index {:trigger ValidIndex(index, out.shape)} | ValidIndex(index, out.shape)
      ensures out.offset + OffsetSum(index, out.strides) < |out.data|
      ensures out.offset + OffsetSum(index, out.strides) == t.offset + OffsetSum(Shifted(index, start), t.strides)
    {
      ShiftedValid(index, out.shape, t.shape, start);
      ShiftedOffset(index, t.strides, start, |index|);
    }
    forall o | 0 <= o < Product(out.shape)
      ensures ElementAt(out, o) == Logical(t).flat[SliceMap(out.shape, t.shape, start)[o]]
    {
      RavelUnravel(o, out.shape);
      SliceMapAt(out.shape, t.shape, start, o);
      var index := Unravel(o, out.shape);
      ShiftedValid(index, out.shape, t.shape, start);
      ShiftedOffset(index, t.strides, start, |index|);
      ValueIsFlat(t, Shifted(index, start));
    }
  }

  method Summa<T>(A: D.Arith<T>, t: Tensor<T>) returns (sum: T)
    requires WellFormed(t)
    ensures sum == D.Summa(A, Logical(t))
  {
    var flat := Planata(t);
    sum := A.zero;
    for i := 0 to |flat|
      invariant sum == D.FoldTo(A, flat, i)
    {
      sum := A.add(sum, flat[i]);
    }
  }

  method Media<T>(A: D.Arith<T>, t: Tensor<T>) returns (r: Result<T, D.TensorError>)
    requires WellFormed(t)
    ensures r == D.Media(A, Logical(t))
  {
    var _, count := CheckedElementCount(t.shape);
    if count == 0 {
      return Err(D.MediaEmpty);
    }
    var sum := Summa(A, t);
    r := Ok(A.div(sum, A.lift(count as real)));
  }
}

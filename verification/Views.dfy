/** Tensor descriptors that share one buffer: axis-0 slices of slices, reads, writes and fills through
    them, and copies that no longer share. */
module Views {
  import opened Wrappers
  import opened Shapes
  import D = Dense

  function ToIndex(indices: seq<int>): (index: seq<nat>)
    requires D.NonNegative(indices)
    ensures |index| == |indices|
  {
    seq(|indices|, i requires 0 <= i < |indices| => indices[i])
  }

  /** Where in the row-major list of a shape the element at these indices stands. */
  function Ordinal(indices: seq<int>, shape: seq<nat>): (at: nat)
    requires InBounds(indices, shape)
    ensures at < Product(shape)
  {
    UnravelRavel(ToIndex(indices), shape);
    Ravel(ToIndex(indices), shape)
  }

  /** A shape that differs from its root in the first dimension alone has the root's row-major order. */
  lemma {:induction false} SameRavel(index: seq<nat>, a: seq<nat>, b: seq<nat>, k: nat)
    requires k <= |a| == |b| == |index| && forall i :: 1 <= i < |a| ==> a[i] == b[i]
    ensures RavelTo(index, a, k) == RavelTo(index, b, k)
    decreases k
  {
    if k > 1 {
      SameRavel(index, a, b, k - 1);
    } else if k == 1 {
      assert RavelTo(index, a, 0) == 0 == RavelTo(index, b, 0);
    }
  }

  /** The rows of a slice lie inside the root. */
  lemma {:induction false} RowsInside(shape: seq<nat>, root: seq<nat>, start: nat, k: nat)
    requires SliceOf(shape, root, start) && 1 <= k <= |root| && 0 < Product(root) <= USIZE_MAX
    ensures ProductTo(shape, k) * SuffixSat(root, k) == shape[0] * SuffixSat(root, 1)
    decreases k
  {
    if k == 1 {
      assert ProductTo(shape, 1) == ProductTo(shape, 0) * shape[0] == shape[0];
    } else {
      RowsInside(shape, root, start, k - 1);
      SuffixExact(root, k - 1);
      MulAssoc(ProductTo(shape, k - 1), root[k - 1], SuffixSat(root, k));
    }
  }

  lemma SliceExtent(shape: seq<nat>, root: seq<nat>, start: nat)
    requires SliceOf(shape, root, start) && 0 < Product(root) <= USIZE_MAX
    ensures Product(shape) == shape[0] * SuffixSat(root, 1)
    ensures start * SuffixSat(root, 1) + Product(shape) <= Product(root)
  {
    var row := SuffixSat(root, 1);
    RowsInside(shape, root, start, |root|);
    SuffixExact(root, 0);
    SuffixExact(root, 1);
    MulDistrib(start, shape[0], row);
    MulMono(root[0], start + shape[0], row);
  }

  /** The allocation a run of elements sees after one element of the buffer changed. */
  lemma SeenThrough<T>(before: seq<T>, at: nat, value: T, offset: nat, count: nat)
    requires at < |before| && offset + count <= |before|
    ensures var seen := before[offset..offset + count];
            before[at := value][offset..offset + count] ==
              (if offset <= at < offset + count then seen[at - offset := value] else seen)
  {
  }

  /** Where row k begins in the row-major list of a root of this shape. */
  function RowStart(root: seq<nat>, k: nat): nat
    requires root != []
  {
    k * SuffixSat(root, 1)
  }

  /** A slice holds the elements from its first row up to the row after its last. */
  lemma SliceRows(shape: seq<nat>, root: seq<nat>, start: nat, from: nat, to: nat)
    requires SliceOf(shape, root, start) && 0 < Product(root) <= USIZE_MAX && from <= to <= shape[0]
    ensures RowStart(root, from) <= RowStart(root, to) <= Product(shape)
    ensures Product(shape[0 := to - from]) == RowStart(root, to) - RowStart(root, from)
  {
    var row := SuffixSat(root, 1);
    SliceExtent(shape, root, start);
    SliceExtent(shape[0 := to - from], root, start + from);
    MulDistrib(from, to - from, row);
    MulMono(shape[0], to, row);
  }

  lemma SubRun<T>(s: seq<T>, offset: nat, count: nat, from: nat, to: nat)
    requires offset + count <= |s| && from <= to <= count
    ensures s[offset..offset + count][from..to] == s[offset + from..offset + to]
  {
    var seen := s[offset..offset + count];
    forall k | 0 <= k < to - from ensures seen[from..to][k] == s[offset + from..offset + to][k] {
      assert seen[from..to][k] == seen[from + k];
    }
  }

  class View<T(0)> {
    const buffer: array<T>
    const shape: seq<nat>
    const strides: seq<nat>
    const offset: nat
    const view: bool
    /** The shape of the tensor the buffer was made for, and the first of its rows seen here. */
    ghost const root: seq<nat>
    ghost const start: nat

    /** A chain of axis-0 slices of a non-empty row-major tensor. */
    ghost predicate Valid() {
      && 0 < Product(root) && Allocatable(root) && Words(root)
      && buffer.Length == Product(root) && strides == Strides(root)
      && (if root == [] then shape == [] && offset == 0 && start == 0
          else SliceOf(shape, root, start) && offset == start * SuffixSat(root, 1))
    }

    /** The buffer position of an index. */
    ghost function Address(index: seq<nat>): nat
      requires Valid() && |index| == |shape|
    {
      offset + OffsetSum(index, strides)
    }

    /** Logical indices go to the buffer positions of one run, in row-major order. */
    lemma AddressInRun(index: seq<nat>)
      requires Valid() && ValidIndex(index, shape)
      ensures Address(index) == offset + Ravel(index, shape)
      ensures Ravel(index, shape) < Product(shape) && offset + Product(shape) <= buffer.Length
    {
      UnravelRavel(index, shape);
      RunInside();
      assert ValidIndex(index, root);
      OffsetIsRavel(index, root);
      if root != [] {
        SameRavel(index, shape, root, |root|);
      }
    }

    lemma RunInside()
      requires Valid()
      ensures offset + Product(shape) <= buffer.Length && Product(shape) <= Product(root)
    {
      if root != [] {
        SliceExtent(shape, root, start);
      }
    }

    /** No two indices share a position. */
    lemma AddressInjective(i: seq<nat>, j: seq<nat>)
      requires Valid() && ValidIndex(i, shape) && ValidIndex(j, shape) && Address(i) == Address(j)
      ensures i == j
    {
      AddressInRun(i);
      AddressInRun(j);
      UnravelRavel(i, shape);
      UnravelRavel(j, shape);
    }

    /** The elements seen, in row-major order. */
    ghost function Seen(): (r: seq<T>)
      requires Valid()
      reads buffer
      ensures |r| == Product(shape)
    {
      RunInside();
      buffer[..][offset..offset + Product(shape)]
    }

    /** `from_contiguous`. */
    constructor Contiguous(data: array<T>, shape: seq<nat>)
      requires 0 < Product(shape) == data.Length && Allocatable(shape) && Words(shape)
      ensures Valid() && buffer == data && this.shape == shape && root == shape && start == 0 && offset == 0 && !view
      ensures Seen() == data[..]
    {
      buffer, this.shape, strides, offset, view := data, shape, Strides(shape), 0, false;
      root, start := shape, 0;
    }

    constructor Sliced(parent: View<T>, from: nat, to: nat)
      requires parent.Valid() && parent.shape != [] && from <= to <= parent.shape[0]
      ensures Valid() && buffer == parent.buffer && shape == parent.shape[0 := to - from] && strides == parent.strides
      ensures root == parent.root && start == parent.start + from && view
      ensures offset == parent.offset + RowStart(root, from)
    {
      buffer, shape, strides := parent.buffer, parent.shape[0 := to - from], parent.strides;
      offset, view := parent.offset + from * parent.strides[0], true;
      root, start := parent.root, parent.start + from;
      MulDistrib(parent.start, from, SuffixSat(parent.root, 1));
    }

    /** The rows of a slice are a slice of the row-major list. */
    lemma SlicedSeen(child: View<T>, from: nat, to: nat)
      requires Valid() && child.Valid() && shape != [] && from <= to <= shape[0]
      requires child.buffer == buffer && child.root == root && child.shape == shape[0 := to - from]
      requires child.offset == offset + RowStart(root, from)
      ensures RowStart(root, from) <= RowStart(root, to) <= Product(shape)
      ensures child.Seen() == Seen()[RowStart(root, from)..RowStart(root, to)]
      ensures offset <= child.offset && child.offset + Product(child.shape) <= offset + Product(shape) <= buffer.Length
    {
      RunInside();
      SliceRows(shape, root, start, from, to);
      hide Product, RowStart, Valid;
      SubRun(buffer[..], offset, Product(shape), RowStart(root, from), RowStart(root, to));
    }

    /** `sectio`: the same buffer seen through fewer rows, or the first fault of the bounds. */
    method Sectio(from: int, to: int) returns (r: Result<View<T>, D.TensorError>)
      requires Valid()
      ensures r.Ok? <==> 0 <= from <= to && shape != [] && to <= shape[0]
      ensures r.Err? ==> r.error == if from < 0 || to < 0 then D.NegativeSlice
                                    else if to < from then D.InvalidSliceRange else D.IndexOutOfBounds
      ensures r.Ok? ==>
                r.value.Valid() && r.value.buffer == buffer && r.value.view && r.value.shape == shape[0 := to - from]
      ensures r.Ok? ==> root != [] && RowStart(root, from) <= RowStart(root, to) <= Product(shape)
      ensures r.Ok? ==> r.value.root == root && r.value.offset == offset + RowStart(root, from)
      ensures r.Ok? ==> r.value.Seen() == Seen()[RowStart(root, from)..RowStart(root, to)]
      ensures r.Ok? ==>
                && offset <= r.value.offset
                && r.value.offset + Product(r.value.shape) <= offset + Product(shape) <= buffer.Length
    {
      hide Seen, Product, RowStart;
      if from < 0 || to < 0 {
        return Err(D.NegativeSlice);
      }
      if to < from {
        return Err(D.InvalidSliceRange);
      }
      if |shape| == 0 || to > shape[0] {
        return Err(D.IndexOutOfBounds);
      }
      var child := new View.Sliced(this, from, to);
      SlicedSeen(child, from, to);
      r := Ok(child);
    }

    /** The first fault of an index list: a negative index anywhere, then the rank or the bounds. */
    function IndexFault(indices: seq<int>): Option<D.TensorError> {
      if !D.NonNegative(indices) then Some(D.NegativeIndex)
      else if !InBounds(indices, shape) then Some(D.IndexOutOfBounds)
      else None
    }

    method OffsetForIndex(indices: seq<int>) returns (at: Option<nat>)
      requires Valid() && D.NonNegative(indices)
      ensures at.Some? <==> InBounds(indices, shape)
      ensures at.Some? ==> at.value == offset + Ordinal(indices, shape) < buffer.Length
    {
      if |indices| != |shape| {
        return None;
      }
      var sum := offset;
      for k := 0 to |shape|
        invariant forall i :: 0 <= i < k ==> indices[i] < shape[i]
        invariant sum == offset + OffsetTo(ToIndex(indices), strides, k)
      {
        if indices[k] >= shape[k] {
          return None;
        }
        sum := sum + indices[k] * strides[k];
      }
      AddressInRun(ToIndex(indices));
      at := Some(sum);
    }

    /** `ponde`: a write through the view changes that one element of the buffer. */
    method Ponde(indices: seq<int>, value: T) returns (e: Option<D.TensorError>)
      requires Valid()
      modifies buffer
      ensures e == IndexFault(indices)
      ensures e.Some? ==> buffer[..] == old(buffer[..])
      ensures e.None? ==> offset + Ordinal(indices, shape) < buffer.Length
      ensures e.None? ==> buffer[..] == old(buffer[..])[offset + Ordinal(indices, shape) := value]
      ensures e.None? ==> Seen() == old(Seen())[Ordinal(indices, shape) := value]
    {
      if exists i :: 0 <= i < |indices| && indices[i] < 0 {
        return Some(D.NegativeIndex);
      }
      var at := OffsetForIndex(indices);
      if at.None? {
        return Some(D.IndexOutOfBounds);
      }
      RunInside();
      SeenThrough(buffer[..], at.value, value, offset, Product(shape));
      buffer[at.value] := value;
      e := None;
    }

    /** `accipe`: a negative index is a fault, one outside the shape reads nothing. */
    method Accipe(indices: seq<int>) returns (r: Result<Option<T>, D.TensorError>)
      requires Valid()
      ensures !D.NonNegative(indices) ==> r == Err(D.NegativeIndex)
      ensures D.NonNegative(indices) ==>
              r == Ok(if InBounds(indices, shape) then Some(Seen()[Ordinal(indices, shape)]) else None)
    {
      if exists i :: 0 <= i < |indices| && indices[i] < 0 {
        return Err(D.NegativeIndex);
      }
      var at := OffsetForIndex(indices);
      RunInside();
      r := Ok(if at.Some? then Some(buffer[at.value]) else None);
    }

    /** The position of the element at an ordinal, through the strides. */
    method OffsetOfOrdinal(ordinal: nat) returns (at: nat)
      requires Valid() && ordinal < Product(shape)
      ensures at == offset + ordinal < buffer.Length
    {
      var index := UnravelIndex(ordinal, shape);
      RavelUnravel(ordinal, shape);
      AddressInRun(index);
      at := offset + OffsetSum(index, strides);
    }

    /** `planata`. */
    method Planata() returns (flat: seq<T>)
      requires Valid()
      ensures flat == Seen()
    {
      RunInside();
      flat := [];
      var ordinal := 0;
      while ordinal < Product(shape)
        invariant ordinal <= Product(shape) && flat == buffer[offset..offset + ordinal]
      {
        var at := OffsetOfOrdinal(ordinal);
        flat := flat + [buffer[at]];
        ordinal := ordinal + 1;
      }
    }

    /** `reple`: fills what is seen and nothing else. */
    method Reple(value: T)
      requires Valid()
      modifies buffer
      ensures offset + Product(shape) <= buffer.Length
      ensures forall k :: 0 <= k < buffer.Length ==>
                buffer[k] == if offset <= k < offset + Product(shape) then value else old(buffer[k])
    {
      RunInside();
      var ordinal := 0;
      while ordinal < Product(shape)
        invariant ordinal <= Product(shape)
        invariant forall k :: 0 <= k < buffer.Length ==>
                    buffer[k] == if offset <= k < offset + ordinal then value else old(buffer[k])
      {
        var at := OffsetOfOrdinal(ordinal);
        buffer[at] := value;
        ordinal := ordinal + 1;
      }
    }

    /** `materialize`: a copy on a buffer of its own. */
    method Materialize() returns (copy: View<T>)
      requires Valid() && 0 < Product(shape) && Allocatable(shape) && Words(shape)
      ensures fresh(copy.buffer) && copy.Valid() && copy.shape == shape && copy.Seen() == Seen()
    {
      var flat := Planata();
      var data := new T[|flat|](i requires 0 <= i < |flat| => flat[i]);
      assert data[..] == flat;
      copy := new View.Contiguous(data, shape);
    }
  }

  /** A write through a slice of a slice is seen by the first tensor at exactly one element, and not by a
      copy made before. */
  method WriteBehind<T(0)>(parent: View<T>, a: int, b: int, c: int, d: int, indices: seq<int>, value: T)
    returns (copy: View<T>, at: Option<nat>)
    requires parent.Valid() && 0 < Product(parent.shape) && Allocatable(parent.shape) && Words(parent.shape)
    modifies parent.buffer
    ensures copy.Valid() && copy.Seen() == old(parent.Seen())
    ensures at.None? ==> parent.Seen() == old(parent.Seen())
    ensures at.Some? ==> at.value < Product(parent.shape) && parent.Seen() == old(parent.Seen())[at.value := value]
    ensures at.Some? <==>
              && parent.shape != [] && 0 <= a <= b <= parent.shape[0] && 0 <= c <= d <= b - a
              && D.NonNegative(indices) && InBounds(indices, parent.shape[0 := d - c])
    ensures at.Some? ==> parent.root != []
    ensures at.Some? ==>
              var rows := RowStart(parent.root, a) + RowStart(parent.root, c);
              at.value == rows + Ordinal(indices, parent.shape[0 := d - c])
  {
    hide View<T>.Valid, Product, SuffixSat, RowStart, Ordinal;
    copy := parent.Materialize();
    at := None;
    var first := parent.Sectio(a, b);
    if first.Ok? {
      var second := first.value.Sectio(c, d);
      if second.Ok? {
        var child := second.value;
        assert child.shape == parent.shape[0 := d - c];
        var e := child.Ponde(indices, value);
        if e.None? {
          var position := child.offset + Ordinal(indices, child.shape);
          SeenThrough(old(parent.buffer[..]), position, value, parent.offset, Product(parent.shape));
          at := Some(position - parent.offset);
        }
      }
    }
  }
}

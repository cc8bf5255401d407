/** The sparse tensor: a map of the entries that differ from the default, walked in row-major order by a
    coordinate that is stepped in place. */
module Sparsa {
  import opened Wrappers
  import opened Shapes
  import D = Dense

  /** The indices as coordinates. */
  function Coordinates(indices: seq<int>, shape: seq<nat>): (index: seq<nat>)
    requires InBounds(indices, shape)
    ensures ValidIndex(index, shape)
  {
    seq(|indices|, i requires 0 <= i < |indices| => indices[i])
  }

  /** The first fault from axis k on. */
  function IndexFault(indices: seq<int>, shape: seq<nat>, k: nat): Option<D.TensorError>
    requires |indices| == |shape| && k <= |shape|
    decreases |shape| - k
  {
    if k == |shape| then None
    else if indices[k] < 0 then Some(D.NegativeIndex)
    else if indices[k] >= shape[k] then Some(D.IndexOutOfBounds)
    else IndexFault(indices, shape, k + 1)
  }

  datatype SparsaError = RankMismatch | Tensor(error: D.TensorError)

  /** The fault is that of the first axis whose index is outside. */
  lemma {:induction false} FirstIndexFault(indices: seq<int>, shape: seq<nat>, k: nat, axis: nat)
    requires |indices| == |shape| && k <= axis < |shape| && !(0 <= indices[axis] < shape[axis])
    requires forall i :: k <= i < axis ==> 0 <= indices[i] < shape[i]
    ensures IndexFault(indices, shape, k) == Some(if indices[axis] < 0 then D.NegativeIndex else D.IndexOutOfBounds)
    decreases axis - k
  {
    if k < axis {
      FirstIndexFault(indices, shape, k + 1, axis);
    }
  }

  method ValidateIndices(shape: seq<nat>, indices: seq<int>) returns (e: Option<SparsaError>)
    ensures e == None <==> InBounds(indices, shape)
    ensures e == Some(RankMismatch) <==> |indices| != |shape|
    ensures |indices| == |shape| && e.Some? ==> IndexFault(indices, shape, 0) == Some(e.value.error)
  {
    if |indices| != |shape| {
      return Some(RankMismatch);
    }
    for k := 0 to |shape|
      invariant forall i :: 0 <= i < k ==> 0 <= indices[i] < shape[i]
      invariant IndexFault(indices, shape, 0) == IndexFault(indices, shape, k)
    {
      if indices[k] < 0 {
        return Some(Tensor(D.NegativeIndex));
      }
      if indices[k] >= shape[k] {
        return Some(Tensor(D.IndexOutOfBounds));
      }
    }
    e := None;
  }

  // ----- the coordinate step

  /** Adding one carries into the axes before when the last coordinate is at its end. */
  lemma UnravelNext(q: nat, shape: seq<nat>, k: nat)
    requires 0 < k <= |shape| && forall i :: 0 <= i < k ==> shape[i] > 0
    ensures q % shape[k - 1] + 1 < shape[k - 1] ==>
              UnravelTo(q + 1, shape, k) == UnravelTo(q / shape[k - 1], shape, k - 1) + [q % shape[k - 1] + 1]
    ensures q % shape[k - 1] + 1 >= shape[k - 1] ==>
              UnravelTo(q + 1, shape, k) == UnravelTo(q / shape[k - 1] + 1, shape, k - 1) + [0]
  {
    var d := shape[k - 1];
    if q % d + 1 < d {
      DivModUnique(q + 1, d, q / d, q % d + 1);
    } else {
      MulDistrib(q / d, 1, d);
      DivModUnique(q + 1, d, q / d + 1, 0);
    }
  }

  /** Whether the step from `q` stays inside the first k axes is decided in the axes before. */
  lemma LastOfAxis(q: nat, shape: seq<nat>, k: nat)
    requires 0 < k <= |shape| && shape[k - 1] > 0 && q % shape[k - 1] + 1 >= shape[k - 1]
    ensures q + 1 < ProductTo(shape, k) <==> q / shape[k - 1] + 1 < ProductTo(shape, k - 1)
    ensures q + 1 == (q / shape[k - 1] + 1) * shape[k - 1]
  {
    var d := shape[k - 1];
    MulDistrib(q / d, 1, d);
    MulMono(q / d + 1, ProductTo(shape, k - 1), d);
    MulMono(ProductTo(shape, k - 1), q / d + 1 + 1, d);
    MulDistrib(q / d + 1, 1, d);
    if q / d + 1 < ProductTo(shape, k - 1) {
      MulMono(ProductTo(shape, k - 1), q / d + 2, d);
      assert (q / d + 2) * d == (q / d + 1) * d + d;
    }
  }

  lemma InnerCarry(q: nat, shape: seq<nat>, k: nat)
    requires 0 < k <= |shape| && shape[k - 1] > 0 && q < ProductTo(shape, k) && q % shape[k - 1] + 1 < shape[k - 1]
    ensures q + 1 < ProductTo(shape, k)
  {
    var d, p := shape[k - 1], ProductTo(shape, k - 1);
    DivModBound(q, p, d);
    MulDistrib(q / d, 1, d);
    MulMono(p, q / d + 1, d);
  }

  /** One axis of the step: the coordinate there is q % d, and either it grows or it wraps and the axes
      before step. */
  lemma AxisStep(q: nat, shape: seq<nat>, k: nat)
    requires 0 < k <= |shape| && q < ProductTo(shape, k) && forall i :: 0 <= i < k ==> shape[i] > 0
    ensures q / shape[k - 1] < ProductTo(shape, k - 1)
    ensures UnravelTo(q, shape, k) == UnravelTo(q / shape[k - 1], shape, k - 1) + [q % shape[k - 1]]
    ensures var d := shape[k - 1]; q % d + 1 < d ==>
              q + 1 < ProductTo(shape, k) && UnravelTo(q + 1, shape, k) == UnravelTo(q / d, shape, k - 1) + [q % d + 1]
    ensures var d := shape[k - 1]; q % d + 1 >= d ==>
              (q + 1 < ProductTo(shape, k) <==> q / d + 1 < ProductTo(shape, k - 1)) &&
              UnravelTo(q + 1, shape, k) == UnravelTo(q / d + 1, shape, k - 1) + [0]
  {
    hide UnravelTo;
    DivModBound(q, ProductTo(shape, k - 1), shape[k - 1]);
    UnravelNext(q, shape, k);
    UnravelLast(q, shape, k);
    if q % shape[k - 1] + 1 < shape[k - 1] {
      InnerCarry(q, shape, k);
    } else {
      LastOfAxis(q, shape, k);
    }
  }

  lemma UnravelLast(q: nat, shape: seq<nat>, k: nat)
    requires 0 < k <= |shape| && forall i :: 0 <= i < k ==> shape[i] > 0
    ensures UnravelTo(q, shape, k) == UnravelTo(q / shape[k - 1], shape, k - 1) + [q % shape[k - 1]]
  {
  }

  lemma Appended(front: seq<nat>, x: nat, tail: seq<nat>)
    ensures front + [x] + tail == front + ([x] + tail)
  {
  }

  lemma Joined(current: array<nat>, front: seq<nat>, x: nat, tail: seq<nat>)
    requires current.Length == |front| + 1 + |tail| && current[|front|] == x
    requires forall i :: 0 <= i < |front| ==> current[i] == front[i]
    requires forall i :: |front| < i < current.Length ==> current[i] == tail[i - |front| - 1]
    ensures current[..] == front + [x] + tail
  {
  }

  /** Where the step of ordinal o stands when the axes from `axis` on have wrapped to `tail`: those before
      still hold the coordinates of q, and are the ones to step. */
  ghost predicate Carrying(o: nat, shape: seq<nat>, axis: nat, q: nat, tail: seq<nat>)
    requires axis <= |shape| && forall i :: 0 <= i < |shape| ==> shape[i] > 0
  {
    && q < ProductTo(shape, axis)
    && Unravel(o + 1, shape) == UnravelTo(q + 1, shape, axis) + tail
    && (o + 1 < Product(shape) <==> q + 1 < ProductTo(shape, axis))
  }

  lemma StartCarrying(o: nat, shape: seq<nat>)
    requires o < Product(shape) && forall i :: 0 <= i < |shape| ==> shape[i] > 0
    ensures Carrying(o, shape, |shape|, o, [])
  {
    assert UnravelTo(o + 1, shape, |shape|) + [] == Unravel(o + 1, shape);
  }

  /** One axis further: it holds a digit, and either it grows and the step is done, or it wraps. */
  lemma CarryOn(o: nat, shape: seq<nat>, axis: nat, q: nat, tail: seq<nat>)
    returns (front: seq<nat>, digit: nat, next: nat)
    requires axis < |shape| && forall i :: 0 <= i < |shape| ==> shape[i] > 0
    requires Carrying(o, shape, axis + 1, q, tail)
    ensures front == UnravelTo(next, shape, axis) && UnravelTo(q, shape, axis + 1) == front + [digit]
    ensures digit + 1 < shape[axis] ==> o + 1 < Product(shape) && Unravel(o + 1, shape) == front + [digit + 1] + tail
    ensures digit + 1 >= shape[axis] ==> Carrying(o, shape, axis, next, [0] + tail)
  {
    hide ProductTo, UnravelTo, Unravel, Product;
    digit, next := q % shape[axis], q / shape[axis];
    front := UnravelTo(next, shape, axis);
    AxisStep(q, shape, axis + 1);
    Appended(UnravelTo(next + 1, shape, axis), 0, tail);
  }

  lemma EndCarrying(o: nat, shape: seq<nat>, q: nat, tail: seq<nat>)
    requires (forall i :: 0 <= i < |shape| ==> shape[i] > 0) && Carrying(o, shape, 0, q, tail)
    ensures o + 1 >= Product(shape)
  {
    NothingBefore(shape);
  }

  /** `advance_coordinate`: the next coordinate in row-major order, or false after the last one. */
  method AdvanceCoordinate(current: array<nat>, shape: seq<nat>, ghost o: nat) returns (more: bool)
    requires o < Product(shape) && current.Length == |shape|
    requires forall i :: 0 <= i < |shape| ==> shape[i] > 0
    requires current[..] == Unravel(o, shape)
    modifies current
    ensures more == (o + 1 < Product(shape))
    ensures more ==> current[..] == Unravel(o + 1, shape)
  {
    var axis := |shape|;
    ghost var q: nat := o;
    ghost var tail: seq<nat> := [];
    StartCarrying(o, shape);
    assert forall i :: 0 <= i < axis ==> current[i] == UnravelTo(q, shape, axis)[i];
    hide ProductTo, UnravelTo, Product, Unravel, Carrying;
    while axis > 0
      invariant 0 <= axis <= |shape| && |tail| == |shape| - axis && Carrying(o, shape, axis, q, tail)
      invariant forall i :: 0 <= i < axis ==> current[i] == UnravelTo(q, shape, axis)[i]
      invariant forall i :: axis <= i < |shape| ==> current[i] == tail[i - axis]
    {
      axis := axis - 1;
      ghost var front, digit, next := CarryOn(o, shape, axis, q, tail);
      assert current[axis] == digit && forall i :: 0 <= i < axis ==> current[i] == front[i];
      current[axis] := current[axis] + 1;
      if current[axis] < shape[axis] {
        Joined(current, front, digit + 1, tail);
        return true;
      }
      current[axis] := 0;
      tail := [0] + tail;
      q := next;
    }
    EndCarrying(o, shape, q, tail);
    more := false;
  }

  lemma NothingBefore(shape: seq<nat>)
    ensures ProductTo(shape, 0) == 1
  {
  }

  // ----- the tensor

  /** What a sparse tensor stands for, in row-major order. */
  ghost function Filled<T>(shape: seq<nat>, entries: map<seq<nat>, T>, default: T): (r: seq<T>)
    ensures |r| == Product(shape)
  {
    seq(Product(shape), o requires 0 <= o < Product(shape) => FilledAt(shape, entries, default, o))
  }

  ghost function FilledAt<T>(shape: seq<nat>, entries: map<seq<nat>, T>, default: T, o: nat): T
    requires o < Product(shape)
  {
    RavelUnravel(o, shape);
    EntryOr(entries, Unravel(o, shape), default)
  }

  function EntryOr<T>(entries: map<seq<nat>, T>, index: seq<nat>, default: T): T {
    if index in entries then entries[index] else default
  }

  /** Every entry is in bounds and differs from the default. */
  ghost predicate Sparse<T(!new)>(shape: seq<nat>, entries: map<seq<nat>, T>, default: T) {
    forall index :: index in entries ==> ValidIndex(index, shape) && entries[index] != default
  }

  lemma FilledEntry<T>(shape: seq<nat>, entries: map<seq<nat>, T>, default: T, index: seq<nat>)
    requires ValidIndex(index, shape)
    ensures Ravel(index, shape) < Product(shape)
    ensures Filled(shape, entries, default)[Ravel(index, shape)] == EntryOr(entries, index, default)
  {
    UnravelRavel(index, shape);
  }

  /** Changing what is read at one coordinate changes one element of the dense list. */
  lemma FilledUpdate<T>(shape: seq<nat>, before: map<seq<nat>, T>, after: map<seq<nat>, T>, default: T,
      index: seq<nat>, value: T)
    requires ValidIndex(index, shape) && EntryOr(after, index, default) == value
    requires forall other :: other != index ==> EntryOr(after, other, default) == EntryOr(before, other, default)
    ensures Ravel(index, shape) < Product(shape)
    ensures Filled(shape, after, default) == Filled(shape, before, default)[Ravel(index, shape) := value]
  {
    UnravelRavel(index, shape);
    var at := Ravel(index, shape);
    forall o | 0 <= o < Product(shape)
      ensures Filled(shape, after, default)[o] == Filled(shape, before, default)[at := value][o]
    {
      RavelUnravel(o, shape);
      if Unravel(o, shape) == index {
        assert o == at;
      } else {
        assert o != at;
      }
    }
  }

  /** A sparse tensor is determined by what it stands for: nothing but its non-default elements is kept. */
  lemma FilledDetermines<T(!new)>(shape: seq<nat>, a: map<seq<nat>, T>, b: map<seq<nat>, T>, default: T)
    requires Sparse(shape, a, default) && Sparse(shape, b, default)
    requires Filled(shape, a, default) == Filled(shape, b, default)
    ensures a == b
  {
    forall index ensures EntryOr(a, index, default) == EntryOr(b, index, default) {
      if index in a || index in b {
        FilledEntry(shape, a, default, index);
        FilledEntry(shape, b, default, index);
      }
    }
    forall index ensures (index in a <==> index in b) && (index in a ==> a[index] == b[index]) {
      assert EntryOr(a, index, default) == EntryOr(b, index, default);
    }
  }

  class Sparsa<T(==,!new)> {
    const shape: seq<nat>
    const default: T
    var entries: map<seq<nat>, T>

    ghost predicate Valid()
      reads this
    {
      Sparse(shape, entries, default) && Words(shape)
    }

    /** The dense list this tensor stands for. */
    ghost function Contents(): (r: seq<T>)
      reads this
      ensures |r| == Product(shape)
    {
      Filled(shape, entries, default)
    }

    constructor (shape: seq<nat>, default: T, entries: map<seq<nat>, T>)
      requires Sparse(shape, entries, default) && Words(shape)
      ensures Valid() && this.shape == shape && this.default == default && this.entries == entries
    {
      this.shape, this.default, this.entries := shape, default, entries;
    }

    method Accipe(indices: seq<int>) returns (r: Result<T, SparsaError>)
      requires Valid()
      ensures r.Ok? <==> InBounds(indices, shape)
      ensures r.Ok? ==> Ravel(Coordinates(indices, shape), shape) < Product(shape)
      ensures r.Ok? ==> r.value == Contents()[Ravel(Coordinates(indices, shape), shape)]
      ensures r == Err(RankMismatch) <==> |indices| != |shape|
      ensures |indices| == |shape| && r.Err? ==> IndexFault(indices, shape, 0) == Some(r.error.error)
    {
      var fault := ValidateIndices(shape, indices);
      if fault.Some? {
        return Err(fault.value);
      }
      FilledEntry(shape, entries, default, Coordinates(indices, shape));
      r := Ok(EntryOr(entries, Coordinates(indices, shape), default));
    }

    /** A write is the same write on the dense list, and a default is never stored. */
    method Ponde(indices: seq<int>, value: T) returns (e: Option<SparsaError>)
      requires Valid()
      modifies this
      ensures Valid()
      ensures e == None <==> InBounds(indices, shape)
      ensures e == None ==> Ravel(Coordinates(indices, shape), shape) < Product(shape)
      ensures e == None ==> Contents() == old(Contents())[Ravel(Coordinates(indices, shape), shape) := value]
      ensures e.Some? ==> entries == old(entries)
      ensures e == Some(RankMismatch) <==> |indices| != |shape|
      ensures |indices| == |shape| && e.Some? ==> IndexFault(indices, shape, 0) == Some(e.value.error)
    {
      e := ValidateIndices(shape, indices);
      if e.Some? {
        return;
      }
      var index := Coordinates(indices, shape);
      ghost var before := entries;
      if value == default {
        entries := entries - {index};
      } else {
        entries := entries[index := value];
      }
      FilledUpdate(shape, before, entries, default, index, value);
    }

    /** `densata`: the elements in row-major order; a count that does not fit is refused. */
    method Densata() returns (r: Result<seq<T>, D.TensorError>)
      requires Valid()
      ensures r == if CountFits(shape) then Ok(Contents()) else Err(D.ElementCountOverflow)
    {
      var fits, count := CheckedElementCount(shape);
      if !fits {
        return Err(D.ElementCountOverflow);
      }
      var data := PushDenseValues(shape, entries, default);
      r := Ok(data);
    }
  }

  lemma {:induction false} ZeroDim(shape: seq<nat>, k: nat, i: nat)
    requires i < k <= |shape| && shape[i] == 0
    ensures ProductTo(shape, k) == 0
    decreases k
  {
    if i < k - 1 {
      ZeroDim(shape, k - 1, i);
    }
  }

  method PushDenseValues<T>(shape: seq<nat>, entries: map<seq<nat>, T>, default: T) returns (data: seq<T>)
    ensures data == Filled(shape, entries, default)
  {
    if 0 in shape {
      var i :| 0 <= i < |shape| && shape[i] == 0;
      ZeroDim(shape, |shape|, i);
      return [];
    }
    PositiveProduct(shape, |shape|);
    var current := new nat[|shape|](_ => 0);
    ZeroIsFirst(shape, |shape|);
    assert current[..] == Unravel(0, shape);
    data := [];
    var more := true;
    while more
      invariant more ==> |data| < Product(shape) && current[..] == Unravel(|data|, shape)
      invariant !more ==> |data| == Product(shape)
      invariant |data| <= Product(shape) && data == Filled(shape, entries, default)[..|data|]
      decreases Product(shape) - |data|, more
    {
      data := data + [EntryOr(entries, current[..], default)];
      if |shape| == 0 {
        more := false;
      } else {
        more := AdvanceCoordinate(current, shape, |data| - 1);
      }
    }
  }

  lemma {:induction false} ZeroIsFirst(shape: seq<nat>, k: nat)
    requires k <= |shape| && forall i :: 0 <= i < k ==> shape[i] > 0
    ensures UnravelTo(0, shape, k) == seq(k, _ => 0)
    decreases k
  {
    if k > 0 {
      ZeroIsFirst(shape, k - 1);
    }
  }

  /** `from_tensor`: the non-default elements of a row-major list under their coordinates. */
  method FromTensor<T(==,!new)>(shape: seq<nat>, values: seq<T>, default: T) returns (s: Sparsa<T>)
    requires |values| == Product(shape) && Words(shape)
    ensures fresh(s) && s.Valid() && s.shape == shape && s.default == default
    ensures s.Contents() == values
  {
    var entries: map<seq<nat>, T> := map[];
    if values != [] {
      PositiveDims(shape, |shape|);
      var current := new nat[|shape|](_ => 0);
      ZeroIsFirst(shape, |shape|);
      assert current[..] == Unravel(0, shape);
      var i := 0;
      var more := true;
      while i < |values| && more
        invariant 0 <= i <= |values|
        invariant i < |values| ==> more && current[..] == Unravel(i, shape)
        invariant Sparse(shape, entries, default)
        invariant forall o :: 0 <= o < i ==> FilledAt(shape, entries, default, o) == values[o]
        invariant forall index :: index in entries ==> Ravel(index, shape) < i
      {
        RavelUnravel(i, shape);
        ghost var before := entries;
        if values[i] != default {
          entries := entries[current[..] := values[i]];
        }
        forall o | 0 <= o <= i ensures FilledAt(shape, entries, default, o) == values[o] {
          RavelUnravel(o, shape);
          if o < i {
            assert FilledAt(shape, before, default, o) == values[o];
          }
        }
        if |shape| == 0 {
          more := false;
        } else {
          more := AdvanceCoordinate(current, shape, i);
        }
        i := i + 1;
      }
    }
    s := new Sparsa(shape, default, entries);
  }

  /** Dense to sparse to dense is the identity. */
  method DenseRoundTrip<T(==,!new)>(shape: seq<nat>, values: seq<T>, default: T)
    returns (again: Result<seq<T>, D.TensorError>)
    requires |values| == Product(shape) && Words(shape)
    ensures again == if CountFits(shape) then Ok(values) else Err(D.ElementCountOverflow)
  {
    var s := FromTensor(shape, values, default);
    again := s.Densata();
  }
}

/** Finite sums over the reals, the inner product of flat buffers, and the scatter-add that is
    adjoint to an indexed read. Everything the gradient proofs need about addition is here. */
module Sums {

  /** f(0) + ... + f(n - 1), added from the left as the kernels do. */
  ghost function Sum(n: nat, f: int -> real): real {
    if n == 0 then 0.0 else Sum(n - 1, f) + f(n - 1)
  }

  /** s[i], and zero outside s. */
  ghost function At(s: seq<real>, i: int): real {
    if 0 <= i < |s| then s[i] else 0.0
  }

  /** Multiplication under a name, so that proofs can hide it. */
  ghost function Times(x: real, y: real): real {
    x * y
  }

  /** Inner product of two flat buffers. */
  ghost function Dot(a: seq<real>, b: seq<real>): real {
    Sum(|a|, i => Times(At(a, i), At(b, i)))
  }

  lemma {:induction false} SumExt(n: nat, f: int -> real, g: int -> real)
    requires forall i :: 0 <= i < n ==> f(i) == g(i)
    ensures Sum(n, f) == Sum(n, g)
  {
    if n > 0 {
      SumExt(n - 1, f, g);
    }
  }

  lemma {:induction false} SumZero(n: nat, f: int -> real)
    requires forall i :: 0 <= i < n ==> f(i) == 0.0
    ensures Sum(n, f) == 0.0
  {
    if n > 0 {
      SumZero(n - 1, f);
    }
  }

  lemma {:induction false} SumAdd(n: nat, f: int -> real, g: int -> real)
    ensures Sum(n, i => f(i) + g(i)) == Sum(n, f) + Sum(n, g)
  {
    if n > 0 {
      SumAdd(n - 1, f, g);
    }
  }

  lemma {:induction false} SumScale(n: nat, c: real, f: int -> real)
    ensures Sum(n, i => Times(c, f(i))) == Times(c, Sum(n, f))
  {
    if n > 0 {
      SumScale(n - 1, c, f);
    }
  }

  /** Only the terms at p differ between f and g. */
  lemma {:induction false} SumPoint(n: nat, f: int -> real, g: int -> real, p: nat)
    requires p < n
    requires forall i :: 0 <= i < n && i != p ==> f(i) == g(i)
    ensures Sum(n, f) - Sum(n, g) == f(p) - g(p)
  {
    if p == n - 1 {
      SumExt(n - 1, f, g);
    } else {
      SumPoint(n - 1, f, g, p);
    }
  }

  /** Exchange of the order of summation. */
  lemma {:induction false} SumSwap(m: nat, n: nat, f: (int, int) -> real)
    ensures Sum(m, i => Sum(n, j => f(i, j))) == Sum(n, j => Sum(m, i => f(i, j)))
  {
    var inner := i => Sum(n, j => f(i, j));
    var outer := j => Sum(m, i => f(i, j));
    if m == 0 {
      SumZero(n, outer);
    } else {
      var last := j => f(m - 1, j);
      var shorter := j => Sum(m - 1, i => f(i, j));
      SumSwap(m - 1, n, f);
      SumAdd(n, shorter, last);
      SumExt(n, j => shorter(j) + last(j), outer);
      assert Sum(m, inner) == Sum(m - 1, inner) + Sum(n, last);
    }
  }

  /** A sum over m * n flat positions is a sum over m rows of n columns. */
  lemma {:induction false} SumFlatten(m: nat, n: nat, f: int -> real)
    ensures m * n >= 0
    ensures Sum(m * n, f) == Sum(m, i => Sum(n, j => f(i * n + j)))
  {
    var row := i => Sum(n, j => f(i * n + j));
    if m > 0 {
      SumFlatten(m - 1, n, f);
      assert m * n == (m - 1) * n + n;
      SumSplit((m - 1) * n, n, f);
      SumExt(n, j => f((m - 1) * n + j), j => f((m - 1) * n + j));
      SumExt(m - 1, row, i => Sum(n, j => f(i * n + j)));
    }
  }

  lemma {:induction false} SumSplit(a: nat, b: nat, f: int -> real)
    ensures Sum(a + b, f) == Sum(a, f) + Sum(b, j => f(a + j))
  {
    if b > 0 {
      SumSplit(a, b - 1, f);
    }
  }

  // ----- double sums

  ghost function Sum2(m: nat, n: nat, f: (int, int) -> real): real {
    Sum(m, i => Sum(n, j => f(i, j)))
  }

  lemma Sum2Ext(m: nat, n: nat, f: (int, int) -> real, g: (int, int) -> real)
    requires forall i, j :: 0 <= i < m && 0 <= j < n ==> f(i, j) == g(i, j)
    ensures Sum2(m, n, f) == Sum2(m, n, g)
  {
    var left, right := i => Sum(n, j => f(i, j)), i => Sum(n, j => g(i, j));
    forall i | 0 <= i < m ensures left(i) == right(i) {
      SumExt(n, j => f(i, j), j => g(i, j));
    }
    SumExt(m, left, right);
  }

  lemma Sum2Add(m: nat, n: nat, f: (int, int) -> real, g: (int, int) -> real, h: (int, int) -> real)
    requires forall i, j :: 0 <= i < m && 0 <= j < n ==> h(i, j) == f(i, j) + g(i, j)
    ensures Sum2(m, n, h) == Sum2(m, n, f) + Sum2(m, n, g)
  {
    var left, right, both := i => Sum(n, j => f(i, j)), i => Sum(n, j => g(i, j)), i => Sum(n, j => h(i, j));
    forall i | 0 <= i < m ensures both(i) == left(i) + right(i) {
      var l, r := j => f(i, j), j => g(i, j);
      SumAdd(n, l, r);
      SumExt(n, j => h(i, j), j => l(j) + r(j));
    }
    SumAdd(m, left, right);
    SumExt(m, both, i => left(i) + right(i));
  }

  lemma Sum2Swap(m: nat, n: nat, f: (int, int) -> real, g: (int, int) -> real)
    requires forall i, j :: 0 <= i < m && 0 <= j < n ==> f(i, j) == g(j, i)
    ensures Sum2(m, n, f) == Sum2(n, m, g)
  {
    SumSwap(m, n, f);
    var left, right := j => Sum(m, i => f(i, j)), j => Sum(m, i => g(j, i));
    forall j | 0 <= j < n ensures left(j) == right(j) {
      SumExt(m, i => f(i, j), i => g(j, i));
    }
    SumExt(n, left, right);
  }

  /** A triple sum regrouped by its outer and inner indices. */
  lemma RegroupInner(m: nat, n: nat, k: nat, f: (int, int, int) -> real, rows: (int, int) -> real,
      byInner: (int, int) -> real)
    requires forall i, j :: 0 <= i < m && 0 <= j < n ==> rows(i, j) == Sum(k, p => f(i, j, p))
    requires forall i, p :: 0 <= i < m && 0 <= p < k ==> byInner(i, p) == Sum(n, j => f(i, j, p))
    ensures Sum2(m, n, rows) == Sum2(m, k, byInner)
  {
    var left, right := i => Sum(n, j => rows(i, j)), i => Sum(k, p => byInner(i, p));
    forall i | 0 <= i < m ensures left(i) == right(i) {
      SumExt(n, j => rows(i, j), j => Sum(k, p => f(i, j, p)));
      SumExt(k, p => byInner(i, p), p => Sum(n, j => f(i, j, p)));
      var plane := (j, p) => f(i, j, p);
      SumSwap(n, k, plane);
      Sum2Ext(n, k, plane, (j, p) => f(i, j, p));
      PlaneSums(n, k, i, f, plane);
    }
    SumExt(m, left, right);
  }

  lemma PlaneSums(n: nat, k: nat, i: int, f: (int, int, int) -> real, plane: (int, int) -> real)
    requires forall j, p :: plane(j, p) == f(i, j, p)
    ensures Sum(n, j => Sum(k, p => plane(j, p))) == Sum(n, j => Sum(k, p => f(i, j, p)))
    ensures Sum(k, p => Sum(n, j => plane(j, p))) == Sum(k, p => Sum(n, j => f(i, j, p)))
  {
    var a, b := j => Sum(k, p => plane(j, p)), j => Sum(k, p => f(i, j, p));
    forall j | 0 <= j < n ensures a(j) == b(j) {
      SumExt(k, p => plane(j, p), p => f(i, j, p));
    }
    SumExt(n, a, b);
    var c, d := p => Sum(n, j => plane(j, p)), p => Sum(n, j => f(i, j, p));
    forall p | 0 <= p < k ensures c(p) == d(p) {
      SumExt(n, j => plane(j, p), j => f(i, j, p));
    }
    SumExt(k, c, d);
  }

  lemma Commute(x: real, y: real)
    ensures Times(x, y) == Times(y, x)
  {
  }

  /** A common right factor leaves the sum. */
  lemma FactorOut(n: nat, f: int -> real, c: real, g: int -> real)
    requires forall j :: 0 <= j < n ==> g(j) == Times(f(j), c)
    ensures Sum(n, g) == Times(Sum(n, f), c)
  {
    hide Times;
    SumScale(n, c, f);
    forall j | 0 <= j < n ensures g(j) == Times(c, f(j)) {
      Commute(c, f(j));
    }
    Commute(c, Sum(n, f));
    SumExt(n, g, j => Times(c, f(j)));
  }

  // ----- indexed reads and scatter-adds

  /** Every entry of the index map f addresses a buffer of n elements. */
  ghost predicate Into(f: seq<nat>, n: nat) {
    forall o :: 0 <= o < |f| ==> f[o] < n
  }

  /** The buffer after the first k iterations of `data[f[o]] += u[o]` on a zeroed buffer. */
  ghost function ScatterTo(u: seq<real>, f: seq<nat>, n: nat, k: nat): (r: seq<real>)
    requires k <= |u| == |f| && Into(f, n)
    ensures |r| == n
  {
    if k == 0 then seq(n, _ => 0.0)
    else
      var before := ScatterTo(u, f, n, k - 1);
      before[f[k - 1] := before[f[k - 1]] + u[k - 1]]
  }

  ghost function Scatter(u: seq<real>, f: seq<nat>, n: nat): (r: seq<real>)
    requires |u| == |f| && Into(f, n)
    ensures |r| == n
  {
    ScatterTo(u, f, n, |u|)
  }

  lemma ZeroTimes(x: real)
    ensures Times(0.0, x) == 0.0 && Times(x, 0.0) == 0.0
  {
  }

  lemma Distribute(a: real, b: real, c: real)
    ensures Times(a + b, c) == Times(a, c) + Times(b, c)
  {
  }

  lemma {:induction false} DotScatterTo(u: seq<real>, f: seq<nat>, x: seq<real>, k: nat)
    requires k <= |u| == |f| && Into(f, |x|)
    ensures Dot(ScatterTo(u, f, |x|, k), x) == Sum(k, o => Times(At(u, o), At(x, if 0 <= o < |f| then f[o] else 0)))
  {
    hide Times;
    var after := ScatterTo(u, f, |x|, k);
    var g := i => Times(At(after, i), At(x, i));
    if k == 0 {
      forall i | 0 <= i < |x| ensures g(i) == 0.0 {
        ZeroTimes(At(x, i));
      }
      SumZero(|x|, g);
    } else {
      var before := ScatterTo(u, f, |x|, k - 1);
      var p := f[k - 1];
      DotScatterTo(u, f, x, k - 1);
      SumPoint(|x|, g, i => Times(At(before, i), At(x, i)), p);
      Distribute(before[p], u[k - 1], x[p]);
    }
  }

  /** Scatter-add is the adjoint of the indexed read: <scatter(u), x> is the sum of u[o] * x[f[o]]. */
  lemma DotScatter(u: seq<real>, f: seq<nat>, x: seq<real>)
    requires |u| == |f| && Into(f, |x|)
    ensures Dot(Scatter(u, f, |x|), x) == Sum(|u|, o => Times(At(u, o), At(x, if 0 <= o < |f| then f[o] else 0)))
  {
    DotScatterTo(u, f, x, |u|);
  }

  lemma DotAdd(a: seq<real>, b: seq<real>, c: seq<real>, x: seq<real>)
    requires |a| == |b| == |c|
    requires forall i :: 0 <= i < |a| ==> c[i] == a[i] + b[i]
    ensures Dot(c, x) == Dot(a, x) + Dot(b, x)
  {
    hide Times;
    var f := i => Times(At(a, i), At(x, i));
    var g := i => Times(At(b, i), At(x, i));
    forall i | 0 <= i < |a| ensures Times(At(c, i), At(x, i)) == f(i) + g(i) {
      Distribute(a[i], b[i], At(x, i));
    }
    SumAdd(|a|, f, g);
    SumExt(|a|, i => Times(At(c, i), At(x, i)), i => f(i) + g(i));
  }

  /** The inner product with a unit vector reads one entry. */
  lemma DotUnit(a: seq<real>, x: seq<real>, e: nat)
    requires e < |a| == |x|
    requires forall i :: 0 <= i < |x| ==> x[i] == if i == e then 1.0 else 0.0
    ensures Dot(a, x) == a[e]
  {
    SumPoint(|a|, i => Times(At(a, i), At(x, i)), i => 0.0, e);
    SumZero(|a|, i => 0.0);
  }
}

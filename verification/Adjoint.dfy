/** One reverse step is the adjoint of one forward-mode step, for every operation: the upstream
    gradient paired with the tangent of the result equals the pulled-back gradients paired with
    the tangents of the parents. */
module Adjoint {
  import opened Wrappers
  import opened Shapes
  import opened Sums
  import opened Rules
  import D = Dense

  type Jet = D.Dense<Dual>

  /** The value components of a dual tensor. */
  ghost function Primal(t: Jet): (r: Matrix)
    ensures r.Valid() <==> t.Valid()
    ensures r.shape == t.shape && |r.flat| == |t.flat|
  {
    D.Dense(seq(|t.flat|, i requires 0 <= i < |t.flat| => t.flat[i].v), t.shape)
  }

  /** The tangent components, as a flat list. */
  ghost function Tangent(t: Jet): (r: seq<real>)
    ensures |r| == |t.flat|
  {
    seq(|t.flat|, i requires 0 <= i < |t.flat| => t.flat[i].d)
  }

  /** A gradient for a parent of this shape. */
  ghost predicate Fits(g: Matrix, parent: Jet) {
    g.Valid() && g.shape == parent.shape
  }

  ghost predicate AdjointPair(r: Pulled, a: Jet, b: Jet, out: Jet, u: Matrix) {
    && r.Ok? && |r.value| == 2
    && Fits(r.value[0], a) && Fits(r.value[1], b)
    && Dot(u.flat, Tangent(out)) == Dot(r.value[0].flat, Tangent(a)) + Dot(r.value[1].flat, Tangent(b))
  }

  ghost predicate AdjointSingle(r: GradientResult, a: Jet, out: Jet, u: Matrix) {
    && r.Ok?
    && Fits(r.value, a)
    && Dot(u.flat, Tangent(out)) == Dot(r.value.flat, Tangent(a))
  }

  // ----- broadcasting operations

  /** At one position: the upstream u pairs with the tangent t as g with x and h with y together. */
  ghost predicate Splits(u: real, t: real, g: real, x: real, h: real, y: real) {
    u * t == g * x + h * y
  }

  /** At one position: u pairs with t as c with x. */
  ghost predicate Matches(u: real, t: real, c: real, x: real) {
    u * t == c * x
  }

  lemma SplitTimes(u: real, t: real, g: real, x: real, h: real, y: real)
    requires Splits(u, t, g, x, h, y)
    ensures Times(u, t) == Times(g, x) + Times(h, y)
  {
  }

  /** Elementwise contributions ga, gb, scattered along the index maps f, g, are adjoint to reading
      both operands along f and g. */
  lemma PairAdjoint(u: seq<real>, out: seq<real>, ga: seq<real>, f: seq<nat>, a: seq<real>,
                    gb: seq<real>, g: seq<nat>, b: seq<real>)
    requires |u| == |out| == |ga| == |f| == |gb| == |g| && Into(f, |a|) && Into(g, |b|)
    requires forall o :: 0 <= o < |u| ==> Splits(u[o], out[o], ga[o], a[f[o]], gb[o], b[g[o]])
    ensures Dot(u, out) == Dot(Scatter(ga, f, |a|), a) + Dot(Scatter(gb, g, |b|), b)
  {
    hide Times, Splits;
    DotScatter(ga, f, a);
    DotScatter(gb, g, b);
    var left := o => Times(At(ga, o), At(a, if 0 <= o < |f| then f[o] else 0));
    var right := o => Times(At(gb, o), At(b, if 0 <= o < |g| then g[o] else 0));
    forall o | 0 <= o < |u| ensures Times(At(u, o), At(out, o)) == left(o) + right(o) {
      SplitTimes(u[o], out[o], ga[o], a[f[o]], gb[o], b[g[o]]);
    }
    SumAdd(|u|, left, right);
    SumExt(|u|, o => Times(At(u, o), At(out, o)), o => left(o) + right(o));
  }

  lemma SpreadSelf<T>(t: D.Dense<T>, o: nat)
    requires t.Valid() && o < Product(t.shape)
    ensures BroadcastsTo(t.shape, t.shape) && D.Spread(t, t.shape, o) == t.flat[o]
  {
    BroadcastSelf(t.shape);
    assert BroadcastMap(t.shape, t.shape)[o] == o;
  }

  /** Combining the upstream gradient with a parent value keeps the upstream shape. */
  lemma WithParent(u: Matrix, p: Matrix, op: (real, real) -> real)
    requires u.Valid() && p.Valid() && BroadcastsTo(p.shape, u.shape)
    ensures D.Elementwise(u, p, op).Ok?
    ensures D.Elementwise(u, p, op).value.shape == u.shape
    ensures forall o :: 0 <= o < |u.flat| ==>
            D.Elementwise(u, p, op).value.flat[o] == op(u.flat[o], D.Spread(p, u.shape, o))
  {
    JoinAbsorbsRight(u.shape, p.shape);
    forall o | 0 <= o < |u.flat| ensures D.Spread(u, u.shape, o) == u.flat[o] {
      SpreadSelf(u, o);
    }
  }

  lemma ReduceFits(u: Matrix, a: Jet)
    requires u.Valid() && a.Valid() && BroadcastsTo(a.shape, u.shape)
    ensures ReduceBroadcast(u, a.shape).Ok?
    ensures Fits(ReduceBroadcast(u, a.shape).value, a)
    ensures ReduceBroadcast(u, a.shape).value.flat == Scatter(u.flat, BroadcastMap(u.shape, a.shape), |a.flat|)
  {
  }

  /** Both contributions reduced to the parents' shapes are adjoint, given the identity at every
      position of the broadcast result. */
  lemma ReducedPair(a: Jet, b: Jet, out: Jet, u: Matrix, ga: Matrix, gb: Matrix)
    requires a.Valid() && b.Valid() && out.Valid() && u.Valid() && ga.Valid() && gb.Valid()
    requires u.shape == ga.shape == gb.shape == out.shape
    requires BroadcastsTo(a.shape, out.shape) && BroadcastsTo(b.shape, out.shape)
    requires forall o :: 0 <= o < |u.flat| ==>
      Splits(u.flat[o], out.flat[o].d, ga.flat[o], D.Spread(a, out.shape, o).d, gb.flat[o], D.Spread(b, out.shape, o).d)
    ensures ReduceBroadcast(ga, a.shape).Ok? && ReduceBroadcast(gb, b.shape).Ok?
    ensures AdjointPair(Ok([ReduceBroadcast(ga, a.shape).value, ReduceBroadcast(gb, b.shape).value]), a, b, out, u)
  {
    hide Splits, ProductTo, CountFits, Dot;
    ReduceFits(ga, a);
    ReduceFits(gb, b);
    var f, g := BroadcastMap(out.shape, a.shape), BroadcastMap(out.shape, b.shape);
    var n := |u.flat|;
    forall o | 0 <= o < n
      ensures Splits(u.flat[o], Tangent(out)[o], ga.flat[o], Tangent(a)[f[o]], gb.flat[o], Tangent(b)[g[o]])
    {
      assert Tangent(a)[f[o]] == D.Spread(a, out.shape, o).d;
      assert Tangent(b)[g[o]] == D.Spread(b, out.shape, o).d;
    }
    PairAdjoint(u.flat, Tangent(out), ga.flat, f, Tangent(a), gb.flat, g, Tangent(b));
  }

  lemma LinearPoint(u: real, x: Dual, y: Dual)
    ensures Splits(u, DualAdd(x, y).d, u, x.d, u, y.d)
    ensures Splits(u, DualSub(x, y).d, u, x.d, RealMul(u, -1.0), y.d)
  {
  }

  lemma AddAdjoint(a: Jet, b: Jet, out: Jet, u: Matrix)
    requires a.Valid() && b.Valid() && u.Valid() && u.shape == out.shape
    requires D.Elementwise(a, b, DualAdd) == Ok(out)
    ensures AdjointPair(PullAdd(Primal(a), Primal(b), u), a, b, out, u)
  {
    hide Splits, ProductTo, CountFits;
    JoinBroadcasts(a.shape, b.shape);
    forall o | 0 <= o < |u.flat|
      ensures Splits(u.flat[o], out.flat[o].d, u.flat[o], D.Spread(a, out.shape, o).d, u.flat[o],
              D.Spread(b, out.shape, o).d)
    {
      LinearPoint(u.flat[o], D.Spread(a, out.shape, o), D.Spread(b, out.shape, o));
    }
    ReducedPair(a, b, out, u, u, u);
  }

  lemma SubAdjoint(a: Jet, b: Jet, out: Jet, u: Matrix)
    requires a.Valid() && b.Valid() && u.Valid() && u.shape == out.shape
    requires D.Elementwise(a, b, DualSub) == Ok(out)
    ensures AdjointPair(PullSub(Primal(a), Primal(b), u), a, b, out, u)
  {
    hide Splits, ProductTo, CountFits;
    JoinBroadcasts(a.shape, b.shape);
    var negated := Scaled(u, -1.0);
    forall o | 0 <= o < |u.flat|
      ensures Splits(u.flat[o], out.flat[o].d, u.flat[o], D.Spread(a, out.shape, o).d, negated.flat[o],
              D.Spread(b, out.shape, o).d)
    {
      LinearPoint(u.flat[o], D.Spread(a, out.shape, o), D.Spread(b, out.shape, o));
    }
    ReducedPair(a, b, out, u, u, negated);
  }

  lemma SpreadPrimal(t: Jet, out: seq<nat>, o: nat)
    requires t.Valid() && BroadcastsTo(t.shape, out) && o < Product(out)
    ensures D.Spread(Primal(t), out, o) == D.Spread(t, out, o).v
  {
  }

  lemma MulAdjoint(a: Jet, b: Jet, out: Jet, u: Matrix)
    requires a.Valid() && b.Valid() && u.Valid() && u.shape == out.shape
    requires D.Elementwise(a, b, DualMul) == Ok(out)
    ensures AdjointPair(PullMul(Primal(a), Primal(b), u), a, b, out, u)
  {
    hide Splits, RealMul, DualMul, ProductTo, CountFits;
    JoinBroadcasts(a.shape, b.shape);
    WithParent(u, Primal(b), RealMul);
    WithParent(u, Primal(a), RealMul);
    var byRhs, byLhs := D.Elementwise(u, Primal(b), RealMul).value, D.Elementwise(u, Primal(a), RealMul).value;
    forall o | 0 <= o < |u.flat|
      ensures Splits(u.flat[o], out.flat[o].d, byRhs.flat[o], D.Spread(a, out.shape, o).d, byLhs.flat[o],
              D.Spread(b, out.shape, o).d)
    {
      SpreadPrimal(a, out.shape, o);
      SpreadPrimal(b, out.shape, o);
      MulPoint(u.flat[o], D.Spread(a, out.shape, o), D.Spread(b, out.shape, o));
    }
    ReducedPair(a, b, out, u, byRhs, byLhs);
  }

  lemma MulPoint(u: real, x: Dual, y: Dual)
    ensures Splits(u, DualMul(x, y).d, RealMul(u, y.v), x.d, RealMul(u, x.v), y.d)
  {
  }

  lemma DivPoint(u: real, x: Dual, y: Dual)
    requires y.v != 0.0
    ensures Splits(u, DualDiv(x, y).d, RealDiv(u, y.v), x.d,
            RealDiv(RealMul(RealMul(u, RealDiv(x.v, y.v)), -1.0), y.v), y.d)
  {
    var q, t := x.v / y.v, DualDiv(x, y).d;
    QuotientTangent(x, y);
    assert t * y.v == x.d - q * y.d;
    assert u * t == u / y.v * (t * y.v);
    var w := u / y.v;
    assert w * y.v == u;
    assert u * q * -1.0 / y.v == -(w * q) by {
      assert -(w * q) * y.v == -(w * y.v * q) == u * q * -1.0;
      assert u * q * -1.0 / y.v * y.v == u * q * -1.0;
      CancelRight(u * q * -1.0 / y.v, -(w * q), y.v);
    }
  }

  lemma DivideByParent(u: Matrix, p: Matrix)
    requires u.Valid() && p.Valid() && BroadcastsTo(p.shape, u.shape) && !D.ZeroDenominator(REAL, p, u.shape)
    ensures D.Divide(REAL, u, p).Ok?
    ensures D.Divide(REAL, u, p).value.shape == u.shape
    ensures forall o :: 0 <= o < |u.flat| ==>
              D.Spread(p, u.shape, o) != 0.0 &&
              D.Divide(REAL, u, p).value.flat[o] == RealDiv(u.flat[o], D.Spread(p, u.shape, o))
  {
    WithParent(u, p, REAL.div);
  }

  lemma DivPrimal(x: Dual, y: Dual)
    ensures DualDiv(x, y).v == RealDiv(x.v, y.v)
  {
  }

  /** A successful dual division is a successful real one on the value components. */
  lemma NoZeroDenominator(a: Jet, b: Jet, out: Jet)
    requires a.Valid() && b.Valid() && D.Divide(DUAL, a, b) == Ok(out)
    ensures BroadcastsTo(a.shape, out.shape) && BroadcastsTo(b.shape, out.shape)
    ensures !D.ZeroDenominator(REAL, Primal(b), out.shape)
    ensures D.Divide(REAL, Primal(a), Primal(b)) == Ok(Primal(out))
    ensures forall o :: 0 <= o < |out.flat| ==>
              D.Spread(b, out.shape, o).v != 0.0 &&
                  out.flat[o] == DualDiv(D.Spread(a, out.shape, o), D.Spread(b, out.shape, o))
  {
    hide ProductTo, CountFits, DualDiv, RealDiv;
    JoinBroadcasts(a.shape, b.shape);
    forall o | 0 <= o < |out.flat|
      ensures D.Spread(Primal(b), out.shape, o) == D.Spread(b, out.shape, o).v != 0.0
      ensures out.flat[o] == DualDiv(D.Spread(a, out.shape, o), D.Spread(b, out.shape, o))
      ensures RealDiv(D.Spread(Primal(a), out.shape, o), D.Spread(Primal(b), out.shape, o)) == out.flat[o].v
    {
      assert !DUAL.isZero(D.Spread(b, out.shape, o));
      SpreadPrimal(a, out.shape, o);
      SpreadPrimal(b, out.shape, o);
      DivPrimal(D.Spread(a, out.shape, o), D.Spread(b, out.shape, o));
    }
    assert D.Elementwise(Primal(a), Primal(b), REAL.div).value.flat == Primal(out).flat;
  }

  lemma DivAdjoint(a: Jet, b: Jet, out: Jet, u: Matrix)
    requires a.Valid() && b.Valid() && u.Valid() && u.shape == out.shape
    requires D.Divide(DUAL, a, b) == Ok(out)
    ensures AdjointPair(PullDiv(Primal(a), Primal(b), u), a, b, out, u)
  {
    hide Splits, RealMul, RealDiv, DualDiv, ProductTo, CountFits;
    NoZeroDenominator(a, b, out);
    DivideByParent(u, Primal(b));
    QuotientGradient(a, b, out, u);
    var overRhs, negated := D.Divide(REAL, u, Primal(b)).value, PullQuotient(Primal(a), Primal(b), u).value;
    forall o | 0 <= o < |u.flat|
      ensures Splits(u.flat[o], out.flat[o].d, overRhs.flat[o], D.Spread(a, out.shape, o).d, negated.flat[o],
              D.Spread(b, out.shape, o).d)
    {
      SpreadPrimal(b, out.shape, o);
      DivPoint(u.flat[o], D.Spread(a, out.shape, o), D.Spread(b, out.shape, o));
    }
    ReducedPair(a, b, out, u, overRhs, negated);
  }

  lemma QuotientGradient(a: Jet, b: Jet, out: Jet, u: Matrix)
    requires a.Valid() && b.Valid() && u.Valid() && u.shape == out.shape
    requires D.Divide(DUAL, a, b) == Ok(out)
    ensures BroadcastsTo(a.shape, out.shape) && BroadcastsTo(b.shape, out.shape)
    ensures PullQuotient(Primal(a), Primal(b), u).Ok?
    ensures var r := PullQuotient(Primal(a), Primal(b), u).value;
      r.shape == u.shape && forall o :: 0 <= o < |u.flat| ==>
        var x, y := D.Spread(a, out.shape, o), D.Spread(b, out.shape, o);
        y.v != 0.0 && r.flat[o] == RealDiv(RealMul(RealMul(u.flat[o], RealDiv(x.v, y.v)), -1.0), y.v)
  {
    hide RealMul, RealDiv, DualDiv, ProductTo, CountFits;
    NoZeroDenominator(a, b, out);
    BroadcastSelf(u.shape);
    WithParent(u, Primal(out), RealMul);
    var numerator := D.Elementwise(u, Primal(out), RealMul).value;
    var negated := Scaled(numerator, -1.0);
    DivideByParent(negated, Primal(b));
    var r := D.Divide(REAL, negated, Primal(b)).value;
    assert PullQuotient(Primal(a), Primal(b), u) == Ok(r);
    forall o | 0 <= o < |u.flat|
      ensures var x, y := D.Spread(a, out.shape, o), D.Spread(b, out.shape, o);
        r.flat[o] == RealDiv(RealMul(RealMul(u.flat[o], RealDiv(x.v, y.v)), -1.0), y.v)
    {
      SpreadSelf(Primal(out), o);
      SpreadPrimal(b, out.shape, o);
      DivPrimal(D.Spread(a, out.shape, o), D.Spread(b, out.shape, o));
      assert numerator.flat[o] == RealMul(u.flat[o], out.flat[o].v);
    }
  }

  // ----- elementwise, reshaping and slicing operations

  lemma MatchTimes(u: real, t: real, c: real, x: real)
    requires Matches(u, t, c, x)
    ensures Times(u, t) == Times(c, x)
  {
  }

  /** Flat contributions c are adjoint to a pointwise rule when the identity holds at each position. */
  lemma PointAdjoint(u: seq<real>, out: seq<real>, c: seq<real>, a: seq<real>)
    requires |u| == |out| == |c| == |a|
    requires forall o :: 0 <= o < |u| ==> Matches(u[o], out[o], c[o], a[o])
    ensures Dot(u, out) == Dot(c, a)
  {
    hide Times, Matches;
    forall o | 0 <= o < |u| ensures Times(At(u, o), At(out, o)) == Times(At(c, o), At(a, o)) {
      MatchTimes(u[o], out[o], c[o], a[o]);
    }
    SumExt(|u|, o => Times(At(u, o), At(out, o)), o => Times(At(c, o), At(a, o)));
  }

  lemma NegPoint(u: real, x: Dual)
    ensures Matches(u, DualNeg(x).d, RealNeg(u), x.d)
  {
  }

  lemma NegAdjoint(a: Jet, u: Matrix)
    requires a.Valid() && u.Valid() && u.shape == a.shape
    ensures AdjointSingle(Ok(D.Map(u, RealNeg)), a, D.Map(a, DualNeg), u)
  {
    hide ProductTo, CountFits, Dot, Matches;
    var t, c := Tangent(D.Map(a, DualNeg)), D.Map(u, RealNeg).flat;
    forall o | 0 <= o < |u.flat| ensures Matches(u.flat[o], t[o], c[o], Tangent(a)[o]) {
      NegPoint(u.flat[o], a.flat[o]);
    }
    PointAdjoint(u.flat, t, c, Tangent(a));
  }

  lemma ScalaAdjoint(a: Jet, u: Matrix, factor: real)
    requires a.Valid() && u.Valid() && u.shape == a.shape
    ensures AdjointSingle(Ok(Scaled(u, factor)), a, D.Scala(DUAL, a, factor), u)
  {
    hide ProductTo, CountFits, Dot, Matches;
    var t, c := Tangent(D.Scala(DUAL, a, factor)), Scaled(u, factor).flat;
    forall o | 0 <= o < |u.flat| ensures Matches(u.flat[o], t[o], c[o], Tangent(a)[o]) {
      ScalaPoint(u.flat[o], a.flat[o], factor);
    }
    PointAdjoint(u.flat, t, c, Tangent(a));
  }

  lemma ScalaPoint(u: real, x: Dual, factor: real)
    ensures Matches(u, DualMul(x, DualLift(factor)).d, RealMul(u, factor), x.d)
  {
  }

  lemma ReluPoint(u: real, x: Dual)
    ensures Matches(u, DualRelu(x).d, RealMul(u, if DualRelu(x).v > 0.0 then 1.0 else 0.0), x.d)
  {
  }

  lemma ReluAdjoint(a: Jet, u: Matrix)
    requires a.Valid() && u.Valid() && u.shape == a.shape
    ensures AdjointSingle(PullRelu(Primal(D.Map(a, DualRelu)), u), a, D.Map(a, DualRelu), u)
  {
    hide ProductTo, CountFits, Dot, Matches, RealMul;
    var out := D.Map(a, DualRelu);
    var mask := PositiveMask(Primal(out));
    BroadcastSelf(u.shape);
    WithParent(u, mask, RealMul);
    var masked := D.Elementwise(u, mask, RealMul).value;
    forall o | 0 <= o < |u.flat| ensures Matches(u.flat[o], Tangent(out)[o], masked.flat[o], Tangent(a)[o]) {
      SpreadSelf(mask, o);
      assert out.flat[o] == DualRelu(a.flat[o]);
      assert masked.flat[o] == RealMul(u.flat[o], mask.flat[o]);
      ReluPoint(u.flat[o], a.flat[o]);
    }
    PointAdjoint(u.flat, Tangent(out), masked.flat, Tangent(a));
  }

  lemma FormaAdjoint(a: Jet, out: Jet, shape: seq<int>, u: Matrix)
    requires a.Valid() && u.Valid() && u.shape == out.shape && D.FitsI64(shape)
    requires D.Forma(a, shape) == Ok(out)
    ensures AdjointSingle(PullForma(Primal(a), u), a, out, u)
  {
    assert ToNats(a.shape) == a.shape;
    forall o | 0 <= o < |u.flat| ensures Matches(u.flat[o], Tangent(out)[o], u.flat[o], Tangent(a)[o]) {
      assert Tangent(out)[o] == Tangent(a)[o];
    }
    PointAdjoint(u.flat, Tangent(out), u.flat, Tangent(a));
  }

  /** Along a bijection, scattering by f is reading by its inverse g. */
  lemma {:induction false} ScatterBijection(u: seq<real>, f: seq<nat>, g: seq<nat>, k: nat)
    requires k <= |u| == |f| && Into(f, |g|) && Into(g, |f|)
    requires forall t :: 0 <= t < |g| ==> f[g[t]] == t
    requires forall o :: 0 <= o < |f| ==> g[f[o]] == o
    ensures forall t :: 0 <= t < |g| ==> ScatterTo(u, f, |g|, k)[t] == if g[t] < k then u[g[t]] else 0.0
  {
    if k > 0 {
      ScatterBijection(u, f, g, k - 1);
    }
  }

  /** Pairing with an indexed read of x. */
  lemma GatheredDot(u: seq<real>, f: seq<nat>, x: seq<real>, out: seq<real>)
    requires |u| == |f| == |out| && Into(f, |x|)
    requires forall o :: 0 <= o < |u| ==> out[o] == x[f[o]]
    ensures Dot(u, out) == Dot(Scatter(u, f, |x|), x)
  {
    hide Times;
    DotScatter(u, f, x);
    SumExt(|u|, o => Times(At(u, o), At(out, o)), o => Times(At(u, o), At(x, if 0 <= o < |f| then f[o] else 0)));
  }

  /** The reverse step of a permutation reads the upstream gradient through the inverse axes. */
  lemma PermutePulled(shape: seq<nat>, axes: seq<int>, u: Matrix)
    requires |axes| == |shape| && PermutationAxes(axes) && Allocatable(shape)
    requires u.Valid() && u.shape == PermutedShape(shape, ToNats(axes))
    ensures PullPermute(axes, u).Ok?
    ensures IsPermutation(InverseAxes(ToNats(axes)))
    ensures var r := PullPermute(axes, u).value;
      var g := PermuteMap(u.shape, InverseAxes(ToNats(axes)));
      r.Valid() && r.shape == shape && |g| == |r.flat| && forall t :: 0 <= t < |g| ==> r.flat[t] == u.flat[g[t]]
  {
    hide ProductTo, CountFits;
    var inverse := InverseAxes(ToNats(axes));
    PermutedShapeInverse(shape, ToNats(axes));
    assert ToNats(inverse) == inverse;
    D.AxisFaultFree(inverse, 0);
  }

  /** Reducing a gradient is the adjoint of broadcasting, for all ranks and shapes; against the
      all-ones operand this says that the total of the gradient is conserved. */
  lemma ReduceIsBroadcastAdjoint(u: Matrix, x: Matrix)
    requires u.Valid() && x.Valid() && BroadcastsTo(x.shape, u.shape)
    ensures ReduceBroadcast(u, x.shape).Ok?
    ensures Dot(u.flat, seq(|u.flat|, o requires 0 <= o < |u.flat| => D.Spread(x, u.shape, o)))
         == Dot(ReduceBroadcast(u, x.shape).value.flat, x.flat)
    ensures (forall i :: 0 <= i < |x.flat| ==> x.flat[i] == 1.0) ==>
      Sum(|u.flat|, o => At(u.flat, o)) ==
      Sum(|x.flat|, i => At(ReduceBroadcast(u, x.shape).value.flat, i))
  {
    hide ProductTo, CountFits;
    var spread := seq(|u.flat|, o requires 0 <= o < |u.flat| => D.Spread(x, u.shape, o));
    var reduced := ReduceBroadcast(u, x.shape).value.flat;
    GatheredDot(u.flat, BroadcastMap(u.shape, x.shape), x.flat, spread);
    if forall i :: 0 <= i < |x.flat| ==> x.flat[i] == 1.0 {
      OnesDot(u.flat, spread);
      OnesDot(reduced, x.flat);
    }
  }

  lemma OnesDot(u: seq<real>, ones: seq<real>)
    requires |u| == |ones| && forall i :: 0 <= i < |ones| ==> ones[i] == 1.0
    ensures Dot(u, ones) == Sum(|u|, o => At(u, o))
  {
    SumExt(|u|, o => Times(At(u, o), At(ones, o)), o => At(u, o));
  }

  lemma PermuteAdjoint(a: Jet, out: Jet, axes: seq<int>, u: Matrix)
    requires a.Valid() && u.Valid() && u.shape == out.shape
    requires D.Permute(a, axes) == Ok(out)
    ensures AdjointSingle(PullPermute(axes, u), a, out, u)
  {
    hide ProductTo, CountFits, Dot, IsPermutation;
    var order := ToNats(axes);
    var inverse := InverseAxes(order);
    PermutePulled(a.shape, axes, u);
    PermuteMapInverse(a.shape, order);
    var f, g := PermuteMap(a.shape, order), PermuteMap(out.shape, inverse);
    ScatterBijection(u.flat, f, g, |u.flat|);
    assert PullPermute(axes, u).value.flat == Scatter(u.flat, f, |g|);
    GatheredDot(u.flat, f, Tangent(a), Tangent(out));
  }

  lemma SectioAdjoint(a: Jet, out: Jet, start: int, end: int, u: Matrix)
    requires a.Valid() && u.Valid() && u.shape == out.shape
    requires D.Sectio(a, start, end) == Ok(out)
    ensures AdjointSingle(ScatterAxis0(u, a.shape, start), a, out, u)
  {
    hide ProductTo, CountFits, Dot;
    var f := SliceMap(out.shape, a.shape, start);
    GatheredDot(u.flat, f, Tangent(a), Tangent(out));
  }

  // ----- reductions to a scalar

  lemma {:induction false} FoldDual(a: Jet, k: nat)
    requires k <= |a.flat|
    ensures D.FoldTo(DUAL, a.flat, k).v == D.FoldTo(REAL, Primal(a).flat, k)
    ensures D.FoldTo(DUAL, a.flat, k).d == Sum(k, i => At(Tangent(a), i))
  {
    if k > 0 {
      FoldDual(a, k - 1);
    }
  }

  /** A constant gradient pairs with a tangent as the constant times the tangent's sum. */
  lemma ConstantDot(c: real, x: seq<real>)
    ensures Dot(seq(|x|, _ => c), x) == Times(c, Sum(|x|, i => At(x, i)))
  {
    hide Times;
    var filled := seq(|x|, _ => c);
    var f := i => At(x, i);
    SumScale(|x|, c, f);
    SumExt(|x|, i => Times(At(filled, i), At(x, i)), i => Times(c, f(i)));
  }

  lemma ScalarDot(u: Matrix, out: Jet)
    requires u.Valid() && out.Valid() && u.shape == out.shape == []
    ensures |u.flat| == 1 && Dot(u.flat, Tangent(out)) == Times(u.flat[0], out.flat[0].d)
  {
    var f := i => Times(At(u.flat, i), At(Tangent(out), i));
    assert Sum(1, f) == Sum(0, f) + f(0);
  }

  lemma SummaAdjoint(a: Jet, u: Matrix)
    requires a.Valid() && u.Valid() && u.shape == []
    ensures AdjointSingle(PullSumma(Primal(a), u), a, D.Scalar(D.Summa(DUAL, a)), u)
  {
    hide CountFits, Dot, Times, D.FoldTo;
    FoldDual(a, |a.flat|);
    ScalarDot(u, D.Scalar(D.Summa(DUAL, a)));
    ConstantDot(u.flat[0], Tangent(a));
    assert PullSumma(Primal(a), u).value.flat == seq(|a.flat|, _ => u.flat[0]);
  }

  lemma MediaAdjoint(a: Jet, u: Matrix)
    requires a.Valid() && u.Valid() && u.shape == [] && |a.flat| > 0
    ensures AdjointSingle(PullMedia(Primal(a), u), a, D.Scalar(D.Media(DUAL, a).value), u)
  {
    hide CountFits, Dot, DualDiv, Times, D.FoldTo;
    var out := D.Scalar(D.Media(DUAL, a).value);
    var n := |a.flat| as real;
    var s := D.Summa(DUAL, a);
    FoldDual(a, |a.flat|);
    ScalarDot(u, out);
    ConstantDot(u.flat[0] / n, Tangent(a));
    assert PullMedia(Primal(a), u).value.flat == seq(|a.flat|, _ => u.flat[0] / n);
    QuotientTangent(s, Dual(n, 0.0));
    MeanPoint(u.flat[0], s.d, n, out.flat[0].d);
  }

  lemma MeanPoint(u: real, d: real, n: real, t: real)
    requires n != 0.0 && t * n == d
    ensures Times(u, t) == Times(u / n, d)
  {
    var w := u / n;
    assert w * n == u;
    assert w * (t * n) == w * n * t;
  }

  // ----- matrix product

  /** One cell of the product-rule pairing, split into the part through a' and the part through b'. */
  lemma CellAdjoint(inner: nat, u: real, a: int -> real, a': int -> real, b: int -> real, b': int -> real)
    ensures Times(u, Sum(inner, p => Times(a(p), b'(p)) + Times(a'(p), b(p))))
         == Sum(inner, p => Times(Times(u, b(p)), a'(p))) + Sum(inner, p => Times(Times(a(p), u), b'(p)))
  {
    hide Times;
    var left, right := p => Times(Times(u, b(p)), a'(p)), p => Times(Times(a(p), u), b'(p));
    var rule := p => Times(a(p), b'(p)) + Times(a'(p), b(p));
    SumScale(inner, u, rule);
    SumAdd(inner, left, right);
    forall p | 0 <= p < inner ensures Times(u, rule(p)) == left(p) + right(p) {
      TermSplit(u, a(p), a'(p), b(p), b'(p));
    }
    SumExt(inner, p => Times(u, rule(p)), p => left(p) + right(p));
  }

  lemma TermSplit(u: real, a: real, a': real, b: real, b': real)
    ensures Times(u, Times(a, b') + Times(a', b)) == Times(Times(u, b), a') + Times(Times(a, u), b')
  {
  }

  lemma CellOfRow(inner: nat, i: int, j: int, u: (int, int) -> real, a: (int, int) -> real,
                  a': (int, int) -> real, b: (int, int) -> real, b': (int, int) -> real)
    ensures Times(u(i, j), Sum(inner, p => Times(a(i, p), b'(p, j)) + Times(a'(i, p), b(p, j))))
         == Sum(inner, p => Times(Times(u(i, j), b(p, j)), a'(i, p))) +
             Sum(inner, p => Times(Times(a(i, p), u(i, j)), b'(p, j)))
  {
    hide Times;
    var a1, a2, b1, b2 := p => a(i, p), p => a'(i, p), p => b(p, j), p => b'(p, j);
    CellAdjoint(inner, u(i, j), a1, a2, b1, b2);
    SumExt(inner, p => Times(a(i, p), b'(p, j)) + Times(a'(i, p), b(p, j)),
        p => Times(a1(p), b2(p)) + Times(a2(p), b1(p)));
    SumExt(inner, p => Times(Times(u(i, j), b(p, j)), a'(i, p)), p => Times(Times(u(i, j), b1(p)), a2(p)));
    SumExt(inner, p => Times(Times(a(i, p), u(i, j)), b'(p, j)), p => Times(Times(a1(p), u(i, j)), b2(p)));
  }

  /** The transposed contractions are adjoint to the product rule, on matrices as functions. */
  lemma ProductRuleAdjoint(m: nat, inner: nat, n: nat, u: (int, int) -> real, a: (int, int) -> real,
                           a': (int, int) -> real, b: (int, int) -> real, b': (int, int) -> real)
    ensures Sum2(m, n, (i, j) => Times(u(i, j), Sum(inner, p => Times(a(i, p), b'(p, j)) + Times(a'(i, p), b(p, j)))))
         == Sum2(m, inner, (i, p) => Times(Sum(n, j => Times(u(i, j), b(p, j))), a'(i, p)))
          + Sum2(inner, n, (p, j) => Times(Sum(m, i => Times(a(i, p), u(i, j))), b'(p, j)))
  {
    hide Times, Sum2;
    var through := (i, j) => Sum(inner, p => Times(Times(u(i, j), b(p, j)), a'(i, p)));
    var beside := (i, j) => Sum(inner, p => Times(Times(a(i, p), u(i, j)), b'(p, j)));
    var whole := (i, j) => Times(u(i, j), Sum(inner, p => Times(a(i, p), b'(p, j)) + Times(a'(i, p), b(p, j))));
    forall i, j | 0 <= i < m && 0 <= j < n ensures whole(i, j) == through(i, j) + beside(i, j) {
      CellOfRow(inner, i, j, u, a, a', b, b');
    }
    Sum2Add(m, n, through, beside, whole);
    LeftFactor(m, inner, n, u, a', b);
    RightFactor(m, inner, n, u, a, b');
  }

  /** The part through a', regrouped by the entries of a'. */
  lemma LeftFactor(m: nat, inner: nat, n: nat, u: (int, int) -> real, a': (int, int) -> real, b: (int, int) -> real)
    ensures Sum2(m, n, (i, j) => Sum(inner, p => Times(Times(u(i, j), b(p, j)), a'(i, p))))
         == Sum2(m, inner, (i, p) => Times(Sum(n, j => Times(u(i, j), b(p, j))), a'(i, p)))
  {
    hide Times, Sum2;
    var f := (i, j, p) => Times(Times(u(i, j), b(p, j)), a'(i, p));
    var rows := (i, j) => Sum(inner, p => Times(Times(u(i, j), b(p, j)), a'(i, p)));
    var goal := (i, p) => Times(Sum(n, j => Times(u(i, j), b(p, j))), a'(i, p));
    forall i, j | 0 <= i < m && 0 <= j < n ensures rows(i, j) == Sum(inner, p => f(i, j, p)) {
      SumExt(inner, p => Times(Times(u(i, j), b(p, j)), a'(i, p)), p => f(i, j, p));
    }
    forall i, p | 0 <= i < m && 0 <= p < inner ensures goal(i, p) == Sum(n, j => f(i, j, p)) {
      FactorOut(n, j => Times(u(i, j), b(p, j)), a'(i, p), j => f(i, j, p));
    }
    RegroupInner(m, n, inner, f, rows, goal);
  }

  /** The part through b', regrouped by the entries of b'. */
  lemma RightFactor(m: nat, inner: nat, n: nat, u: (int, int) -> real, a: (int, int) -> real, b': (int, int) -> real)
    ensures Sum2(m, n, (i, j) => Sum(inner, p => Times(Times(a(i, p), u(i, j)), b'(p, j))))
         == Sum2(inner, n, (p, j) => Times(Sum(m, i => Times(a(i, p), u(i, j))), b'(p, j)))
  {
    hide Times, Sum2;
    var f := (j, i, p) => Times(Times(a(i, p), u(i, j)), b'(p, j));
    var rows := (i, j) => Sum(inner, p => Times(Times(a(i, p), u(i, j)), b'(p, j)));
    var columns := (j, i) => Sum(inner, p => Times(Times(a(i, p), u(i, j)), b'(p, j)));
    var goal := (p, j) => Times(Sum(m, i => Times(a(i, p), u(i, j))), b'(p, j));
    var flipped := (j, p) => Times(Sum(m, i => Times(a(i, p), u(i, j))), b'(p, j));
    Sum2Swap(m, n, rows, columns);
    forall j, i | 0 <= j < n && 0 <= i < m ensures columns(j, i) == Sum(inner, p => f(j, i, p)) {
      SumExt(inner, p => Times(Times(a(i, p), u(i, j)), b'(p, j)), p => f(j, i, p));
    }
    forall j, p | 0 <= j < n && 0 <= p < inner ensures flipped(j, p) == Sum(m, i => f(j, i, p)) {
      FactorOut(m, i => Times(a(i, p), u(i, j)), b'(p, j), i => f(j, i, p));
    }
    RegroupInner(n, m, inner, f, columns, flipped);
    Sum2Swap(n, inner, flipped, goal);
  }
}

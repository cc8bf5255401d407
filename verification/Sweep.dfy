/** The reverse sweep over a tape as a function, and its correctness on every recorded tape: it
    succeeds, every gradient has its node's shape, and the leaf gradients paired with any leaf
    tangents give the forward-mode tangent of the loss. */
module Sweep {
  import opened Wrappers
  import opened Shapes
  import opened Sums
  import opened Rules
  import opened Adjoint
  import opened Replay
  import D = Dense

  // ----- the sweep

  /** `accumulate`: check the shape, then set or add. */
  ghost function AddInto(shapes: seq<seq<nat>>, grads: Slots, id: nat, g: Matrix): (r: Result<Slots, AutogradError>)
    requires |grads| == |shapes| && g.Valid() && forall i :: 0 <= i < |grads| && grads[i].Some? ==>
             grads[i].value.Valid()
    ensures r.Ok? ==> |r.value| == |grads|
    ensures r.Ok? ==> forall i :: 0 <= i < |grads| && r.value[i].Some? ==> r.value[i].value.Valid()
  {
    if id >= |shapes| then Err(MissingNode)
    else if g.shape != shapes[id] then Err(ShapeMismatch)
    else match grads[id]
      case None => Ok(grads[id := Some(g)])
      case Some(existing) =>
        var sum :- Lower(D.Elementwise(existing, g, RealAdd));
        Ok(grads[id := Some(sum)])
  }

  /** Add the contributions gs to the parents, first to last. */
  ghost function AddAll(shapes: seq<seq<nat>>, grads: Slots, parents: seq<nat>, gs: seq<Matrix>,
      k: nat): (r: Result<Slots, AutogradError>)
    requires |grads| == |shapes| && k <= |parents| == |gs|
    requires forall i :: 0 <= i < |grads| && grads[i].Some? ==> grads[i].value.Valid()
    requires forall p :: 0 <= p < |gs| ==> gs[p].Valid()
    ensures r.Ok? ==> |r.value| == |grads|
    ensures r.Ok? ==> forall i :: 0 <= i < |grads| && r.value[i].Some? ==> r.value[i].value.Valid()
    decreases k
  {
    if k == 0 then Ok(grads)
    else
      var before :- AddAll(shapes, grads, parents, gs, k - 1);
      AddInto(shapes, before, parents[k - 1], gs[k - 1])
  }

  ghost function NodeShapes(nodes: seq<Node>): (r: seq<seq<nat>>)
    ensures |r| == |nodes| && forall i :: 0 <= i < |nodes| ==> r[i] == nodes[i].shape
  {
    seq(|nodes|, i requires 0 <= i < |nodes| => nodes[i].shape)
  }

  /** Gradients present have their node's shape. */
  ghost predicate Shaped(values: seq<Matrix>, grads: Slots) {
    |grads| == |values| &&
    forall i :: 0 <= i < |grads| && grads[i].Some? ==> grads[i].value.Valid() && grads[i].value.shape == values[i].shape
  }

  /** One turn of the reverse loop, at node j. */
  ghost function Turn(nodes: seq<Node>, values: seq<Matrix>, grads: Slots, j: nat): (r: Result<Slots, AutogradError>)
    requires Recorded(nodes, values) && Shaped(values, grads) && j < |nodes|
  {
    match grads[j]
    case None => Ok(grads)
    case Some(u) =>
      var node := nodes[j];
      assert RecordedAt(nodes, values, j);
      var gs :- Pullback(node.op, Pick(values, node.parents), values[j], u);
      if |gs| != |node.parents| || exists p :: 0 <= p < |gs| && !gs[p].Valid() then Err(ShapeMismatch)
      else AddAll(NodeShapes(nodes), grads, node.parents, gs, |gs|)
  }

  /** Nodes k - 1 down to 0. */
  ghost function Down(nodes: seq<Node>, values: seq<Matrix>, grads: Slots, k: nat): Result<Slots, AutogradError>
    requires Recorded(nodes, values) && Shaped(values, grads) && k <= |nodes|
    decreases k
  {
    if k == 0 then Ok(grads)
    else
      TurnSucceeds(nodes, values, grads, k - 1);
      Down(nodes, values, Turn(nodes, values, grads, k - 1).value, k - 1)
  }

  /** The gradient slots before the loop: one at the loss. */
  ghost function Start(nodes: seq<Node>, loss: nat): (r: Slots)
    requires loss < |nodes|
    ensures |r| == |nodes|
  {
    seq(|nodes|, i requires 0 <= i < |nodes| => if i == loss then Some(D.Scalar(1.0)) else None)
  }

  ghost function Backward(nodes: seq<Node>, values: seq<Matrix>, loss: nat): Result<Slots, AutogradError>
    requires Recorded(nodes, values)
  {
    if loss >= |nodes| then Err(MissingNode)
    else if |nodes[loss].shape| != 0 then Err(BackwardRequiresScalar)
    else
      assert RecordedAt(nodes, values, loss);
      Down(nodes, values, Start(nodes, loss), |nodes|)
  }

  lemma StartShaped(nodes: seq<Node>, values: seq<Matrix>, loss: nat)
    requires Recorded(nodes, values) && loss < |nodes| && nodes[loss].shape == []
    ensures Shaped(values, Start(nodes, loss))
  {
    assert RecordedAt(nodes, values, loss);
  }

  lemma TurnSkips(nodes: seq<Node>, values: seq<Matrix>, grads: Slots, j: nat)
    requires Recorded(nodes, values) && Shaped(values, grads) && j < |nodes| && grads[j].None?
    ensures Turn(nodes, values, grads, j) == Ok(grads)
  {
  }

  /** What a successful turn at a present gradient consists of. */
  lemma TurnUnfold(nodes: seq<Node>, values: seq<Matrix>, grads: Slots, j: nat)
    requires Recorded(nodes, values) && Shaped(values, grads) && j < |nodes| && grads[j].Some?
    requires Turn(nodes, values, grads, j).Ok?
    ensures RecordedAt(nodes, values, j)
    ensures var gs := Pullback(nodes[j].op, Pick(values, nodes[j].parents), values[j], grads[j].value);
      && gs.Ok? && |gs.value| == |nodes[j].parents|
      && (forall p :: 0 <= p < |gs.value| ==> gs.value[p].Valid())
      && Turn(nodes, values, grads, j) == AddAll(NodeShapes(nodes), grads, nodes[j].parents, gs.value, |gs.value|)
  {
    hide Pullback, AddAll;
    assert RecordedAt(nodes, values, j);
  }

  /** When all additions succeed, so do the first k. */
  lemma {:induction false} AddAllPrefix(shapes: seq<seq<nat>>, grads: Slots, parents: seq<nat>, gs: seq<Matrix>,
      k: nat, n: nat)
    requires |grads| == |shapes| && k <= n <= |parents| == |gs|
    requires forall i :: 0 <= i < |grads| && grads[i].Some? ==> grads[i].value.Valid()
    requires forall p :: 0 <= p < |gs| ==> gs[p].Valid()
    requires AddAll(shapes, grads, parents, gs, n).Ok?
    ensures AddAll(shapes, grads, parents, gs, k).Ok?
    decreases n
  {
    hide AddInto;
    if k < n {
      AddAllPrefix(shapes, grads, parents, gs, k, n - 1);
    }
  }

  // ----- what one accumulation does

  lemma SumFlat(a: Matrix, b: Matrix)
    requires a.Valid() && b.Valid() && a.shape == b.shape
    ensures D.Elementwise(a, b, RealAdd).Ok?
    ensures D.Elementwise(a, b, RealAdd).value.shape == a.shape
    ensures forall o :: 0 <= o < |a.flat| ==> D.Elementwise(a, b, RealAdd).value.flat[o] == a.flat[o] + b.flat[o]
  {
    hide ProductTo, CountFits;
    BroadcastSelf(a.shape);
    WithParent(a, b, RealAdd);
    forall o | 0 <= o < |b.flat| ensures D.Spread(b, b.shape, o) == b.flat[o] {
      SpreadSelf(b, o);
    }
  }

  /** A missing gradient counts as zero. */
  ghost function Pairing(g: Option<Matrix>, t: Jet): real {
    match g
    case None => 0.0
    case Some(m) => Dot(m.flat, Tangent(t))
  }

  lemma AddIntoEffect(nodes: seq<Node>, values: seq<Matrix>, grads: Slots, id: nat, g: Matrix, t: Jet)
    requires |nodes| == |values| && Shaped(values, grads) && id < |nodes| && nodes[id].shape == values[id].shape
    requires g.Valid() && g.shape == values[id].shape && t.Valid() && t.shape == g.shape
    ensures var r := AddInto(NodeShapes(nodes), grads, id, g);
      && r.Ok? && Shaped(values, r.value)
      && (forall i :: 0 <= i < |grads| && i != id ==> r.value[i] == grads[i])
      && r.value[id].Some?
      && Pairing(r.value[id], t) == Pairing(grads[id], t) + Dot(g.flat, Tangent(t))
  {
    hide ProductTo, CountFits, Dot;
    if grads[id].Some? {
      var existing := grads[id].value;
      SumFlat(existing, g);
      DotAdd(existing.flat, g.flat, D.Elementwise(existing, g, RealAdd).value.flat, Tangent(t));
    }
  }

  /** Sum over all nodes of gradient paired with tangent. */
  ghost function Weight(grads: Slots, jets: seq<Jet>): int -> real {
    i => if 0 <= i < |grads| && i < |jets| then Pairing(grads[i], jets[i]) else 0.0
  }

  lemma WeightPoint(before: Slots, after: Slots, jets: seq<Jet>, j: nat, id: nat)
    requires id < j <= |before| == |after| == |jets|
    requires forall i :: 0 <= i < |before| && i != id ==> after[i] == before[i]
    ensures Sum(j, Weight(after, jets)) - Sum(j, Weight(before, jets)) ==
            Pairing(after[id], jets[id]) - Pairing(before[id], jets[id])
  {
    hide Pairing;
    SumPoint(j, Weight(after, jets), Weight(before, jets), id);
  }

  /** Adding the contributions of node j raises the total pairing below j by what they pair to. */
  lemma {:induction false} AddAllEffect(nodes: seq<Node>, values: seq<Matrix>, grads: Slots, parents: seq<nat>,
                                        gs: seq<Matrix>, jets: seq<Jet>, j: nat, k: nat)
    requires |nodes| == |values| == |jets| && Shaped(values, grads) && j <= |nodes| && k <= |parents| == |gs|
    requires forall i :: 0 <= i < |nodes| ==>
             nodes[i].shape == values[i].shape && jets[i].Valid() && jets[i].shape == values[i].shape
    requires Below(parents, j)
    requires forall p :: 0 <= p < |gs| ==> gs[p].Valid() && gs[p].shape == jets[parents[p]].shape
    ensures var r := AddAll(NodeShapes(nodes), grads, parents, gs, k);
      && r.Ok? && Shaped(values, r.value)
      && (forall i :: j <= i < |nodes| ==> r.value[i] == grads[i])
      && Sum(j, Weight(r.value, jets)) == Sum(j, Weight(grads, jets)) + PairingTo(gs, Pick(jets, parents), k)
    decreases k
  {
    hide ProductTo, CountFits, Dot, Weight, AddInto;
    if k > 0 {
      AddAllEffect(nodes, values, grads, parents, gs, jets, j, k - 1);
      var before, id := AddAll(NodeShapes(nodes), grads, parents, gs, k - 1).value, parents[k - 1];
      AddIntoEffect(nodes, values, before, id, gs[k - 1], jets[id]);
      WeightPoint(before, AddInto(NodeShapes(nodes), before, id, gs[k - 1]).value, jets, j, id);
    }
  }

  // ----- one turn of the loop

  /** The gradients node j contributes, and what they pair to. */
  lemma TurnPullback(nodes: seq<Node>, values: seq<Matrix>, seeds: seq<seq<real>>, j: nat, u: Matrix)
    requires Recorded(nodes, values) && Seeds(values, seeds) && j < |nodes|
    requires nodes[j].op != Leaf && u.Valid() && u.shape == values[j].shape
    ensures RecordedAt(nodes, values, j)
    ensures var jets := Jets(nodes, values, seeds, |nodes|);
      var gs := Pullback(nodes[j].op, Pick(values, nodes[j].parents), values[j], u);
      && gs.Ok? && |gs.value| == |nodes[j].parents|
      && (forall p :: 0 <= p < |gs.value| ==> Fits(gs.value[p], jets[nodes[j].parents[p]]))
      && Dot(u.flat, Tangent(jets[j])) == PairingTo(gs.value, Pick(jets, nodes[j].parents), |gs.value|)
  {
    hide ProductTo, CountFits, Dot, Pullback, Forward, PairingTo;
    assert RecordedAt(nodes, values, j);
    var node := nodes[j];
    var jets, before := Jets(nodes, values, seeds, |nodes|), Jets(nodes, values, seeds, j);
    JetsPrefix(nodes, values, seeds, j, |nodes|);
    JetsPrefix(nodes, values, seeds, j + 1, |nodes|);
    var ps := Pick(before, node.parents);
    assert Pick(jets, node.parents) == ps;
    assert Primals(ps) == Pick(values, node.parents);
    JetStep(nodes, values, seeds, j);
    LocalAdjoint(node.op, node.shape, ps, jets[j], u);
  }

  lemma {:induction false} JetsPrefix(nodes: seq<Node>, values: seq<Matrix>, seeds: seq<seq<real>>, j: nat, k: nat)
    requires Recorded(nodes, values) && Seeds(values, seeds) && j <= k <= |nodes|
    ensures Jets(nodes, values, seeds, k)[..j] == Jets(nodes, values, seeds, j)
    decreases k
  {
    hide Forward, RecordedAt, ProductTo, CountFits;
    if j < k {
      JetsPrefix(nodes, values, seeds, j, k - 1);
      assert Jets(nodes, values, seeds, k)[..k - 1] == Jets(nodes, values, seeds, k - 1);
    }
  }

  lemma JetStep(nodes: seq<Node>, values: seq<Matrix>, seeds: seq<seq<real>>, j: nat)
    requires Recorded(nodes, values) && Seeds(values, seeds) && j < |nodes| && nodes[j].op != Leaf
    ensures RecordedAt(nodes, values, j)
    ensures Inputs(nodes[j].op, nodes[j].shape, Pick(Jets(nodes, values, seeds, j), nodes[j].parents))
    ensures Forward(DUAL, nodes[j].op, nodes[j].shape, Pick(Jets(nodes, values, seeds, j), nodes[j].parents))
         == Ok(Jets(nodes, values, seeds, j + 1)[j])
  {
    hide ProductTo, CountFits, Forward;
    assert RecordedAt(nodes, values, j);
    var ps := Pick(Jets(nodes, values, seeds, j), nodes[j].parents);
    assert Primals(ps) == Pick(values, nodes[j].parents);
    ForwardPrimal(nodes[j].op, nodes[j].shape, ps, values[j]);
  }

  /** Total pairing below k plus the pairing of the leaves from k on. */
  ghost function Potential(nodes: seq<Node>, grads: Slots, jets: seq<Jet>, k: nat): real {
    Sum(k, Weight(grads, jets)) + Sum(|nodes|, LeafWeight(nodes, grads, jets, k))
  }

  ghost function LeafWeight(nodes: seq<Node>, grads: Slots, jets: seq<Jet>, k: nat): int -> real {
    i => if k <= i < |nodes| && nodes[i].op == Leaf then Weight(grads, jets)(i) else 0.0
  }

  lemma InnerTurn(nodes: seq<Node>, values: seq<Matrix>, seeds: seq<seq<real>>, grads: Slots, j: nat)
    requires Recorded(nodes, values) && Seeds(values, seeds) && Shaped(values, grads) && j < |nodes|
    requires grads[j].Some? && nodes[j].op != Leaf
    ensures var jets := Jets(nodes, values, seeds, |nodes|);
      var r := Turn(nodes, values, grads, j);
      && r.Ok? && Shaped(values, r.value)
      && (forall i :: j <= i < |nodes| ==> r.value[i] == grads[i])
      && Sum(j, Weight(r.value, jets)) == Sum(j, Weight(grads, jets)) + Pairing(grads[j], jets[j])
  {
    hide ProductTo, CountFits, Dot, Pullback, PairingTo, Jets, AddAll, Weight;
    var jets, u, parents := Jets(nodes, values, seeds, |nodes|), grads[j].value, nodes[j].parents;
    TurnPullback(nodes, values, seeds, j, u);
    var gs := Pullback(nodes[j].op, Pick(values, parents), values[j], u).value;
    forall i | 0 <= i < |nodes|
      ensures nodes[i].shape == values[i].shape && jets[i].Valid() && jets[i].shape == values[i].shape
    {
      assert RecordedAt(nodes, values, i);
    }
    forall p | 0 <= p < |gs| ensures gs[p].Valid() && gs[p].shape == jets[parents[p]].shape {
      assert Fits(gs[p], jets[parents[p]]);
    }
    AddAllEffect(nodes, values, grads, parents, gs, jets, j, |gs|);
  }

  /** A turn succeeds, keeps the shapes, leaves later slots alone, and keeps the potential. */
  lemma TurnEffect(nodes: seq<Node>, values: seq<Matrix>, seeds: seq<seq<real>>, grads: Slots, j: nat)
    requires Recorded(nodes, values) && Seeds(values, seeds) && Shaped(values, grads) && j < |nodes|
    ensures var jets := Jets(nodes, values, seeds, |nodes|);
      var r := Turn(nodes, values, grads, j);
      && r.Ok? && Shaped(values, r.value)
      && (forall i :: j <= i < |nodes| ==> r.value[i] == grads[i])
      && Potential(nodes, r.value, jets, j) == Potential(nodes, grads, jets, j + 1)
  {
    hide ProductTo, CountFits, Dot, Pullback, PairingTo, Jets, RecordedAt, Potential;
    var jets := Jets(nodes, values, seeds, |nodes|);
    if grads[j].Some? && nodes[j].op != Leaf {
      InnerTurn(nodes, values, seeds, grads, j);
    } else if grads[j].Some? {
      LeafTurn(nodes, values, grads, j);
    }
    PotentialStep(nodes, grads, Turn(nodes, values, grads, j).value, jets, j);
  }

  lemma LeafTurn(nodes: seq<Node>, values: seq<Matrix>, grads: Slots, j: nat)
    requires Recorded(nodes, values) && Shaped(values, grads) && j < |nodes| && nodes[j].op == Leaf
    ensures Turn(nodes, values, grads, j) == Ok(grads)
  {
    assert RecordedAt(nodes, values, j);
  }

  lemma PotentialStep(nodes: seq<Node>, grads: Slots, next: Slots, jets: seq<Jet>, j: nat)
    requires |nodes| == |grads| == |next| == |jets| && j < |nodes|
    requires forall i :: j <= i < |nodes| ==> next[i] == grads[i]
    requires nodes[j].op == Leaf ==> next == grads
    requires nodes[j].op != Leaf ==>
             Sum(j, Weight(next, jets)) == Sum(j, Weight(grads, jets)) + Pairing(grads[j], jets[j])
    ensures Potential(nodes, next, jets, j) == Potential(nodes, grads, jets, j + 1)
  {
    hide Dot, Pairing;
    var n := |nodes|;
    assert Sum(j + 1, Weight(grads, jets)) == Sum(j, Weight(grads, jets)) + Pairing(grads[j], jets[j]);
    SumPoint(n, LeafWeight(nodes, next, jets, j), LeafWeight(nodes, grads, jets, j + 1), j);
  }

  lemma TurnSucceeds(nodes: seq<Node>, values: seq<Matrix>, grads: Slots, j: nat)
    requires Recorded(nodes, values) && Shaped(values, grads) && j < |nodes|
    ensures Turn(nodes, values, grads, j).Ok? && Shaped(values, Turn(nodes, values, grads, j).value)
  {
    TurnEffect(nodes, values, ZeroSeeds(values), grads, j);
  }

  ghost function ZeroSeeds(values: seq<Matrix>): (r: seq<seq<real>>)
    ensures Seeds(values, r)
  {
    seq(|values|, i requires 0 <= i < |values| => seq(|values[i].flat|, _ => 0.0))
  }

  // ----- the whole sweep

  lemma {:induction false} DownEffect(nodes: seq<Node>, values: seq<Matrix>, seeds: seq<seq<real>>, grads: Slots,
      k: nat)
    requires Recorded(nodes, values) && Seeds(values, seeds) && Shaped(values, grads) && k <= |nodes|
    ensures var jets := Jets(nodes, values, seeds, |nodes|);
      var r := Down(nodes, values, grads, k);
      && r.Ok? && Shaped(values, r.value)
      && (forall i :: k <= i < |nodes| ==> r.value[i] == grads[i])
      && Potential(nodes, r.value, jets, 0) == Potential(nodes, grads, jets, k)
    decreases k
  {
    hide Turn, Potential, Jets;
    if k > 0 {
      TurnEffect(nodes, values, seeds, grads, k - 1);
      DownEffect(nodes, values, seeds, Turn(nodes, values, grads, k - 1).value, k - 1);
    }
  }

  /** The sum over the leaves of gradient paired with tangent; an unreached leaf counts as zero. */
  ghost function LeafSum(nodes: seq<Node>, grads: Slots, jets: seq<Jet>): real {
    Sum(|nodes|, LeafWeight(nodes, grads, jets, 0))
  }

  /** On every recorded tape and for every scalar loss the sweep succeeds with well-shaped gradients. */
  lemma BackwardSucceeds(nodes: seq<Node>, values: seq<Matrix>, loss: nat)
    requires Recorded(nodes, values) && loss < |nodes| && nodes[loss].shape == []
    ensures Backward(nodes, values, loss).Ok? && Shaped(values, Backward(nodes, values, loss).value)
  {
    AdjointIdentity(nodes, values, ZeroSeeds(values), loss);
  }

  /** The adjoint identity, for every tape, every scalar loss and every choice of leaf tangents. */
  lemma AdjointIdentity(nodes: seq<Node>, values: seq<Matrix>, seeds: seq<seq<real>>, loss: nat)
    requires Recorded(nodes, values) && Seeds(values, seeds) && loss < |nodes| && nodes[loss].shape == []
    ensures var jets := Jets(nodes, values, seeds, |nodes|);
      var r := Backward(nodes, values, loss);
      && r.Ok? && Shaped(values, r.value) && |jets[loss].flat| == 1
      && LeafSum(nodes, r.value, jets) == jets[loss].flat[0].d
  {
    hide Jets, Dot, Tangent;
    var jets, start := Jets(nodes, values, seeds, |nodes|), Start(nodes, loss);
    assert RecordedAt(nodes, values, loss);
    DownEffect(nodes, values, seeds, start, |nodes|);
    var n := |nodes|;
    SumPoint(n, Weight(start, jets), i => 0.0, loss);
    SumZero(n, i => 0.0);
    SumZero(n, LeafWeight(nodes, start, jets, n));
    ScalarDot(D.Scalar(1.0), jets[loss]);
  }

  /** The seeds that select one element of one leaf. */
  ghost predicate UnitSeed(seeds: seq<seq<real>>, leaf: nat, e: nat) {
    forall i, x :: 0 <= i < |seeds| && 0 <= x < |seeds[i]| ==> seeds[i][x] == if i == leaf && x == e then 1.0 else 0.0
  }

  /** Every entry of a leaf gradient is the forward-mode derivative of the loss in that entry. */
  lemma GradientIsPartialDerivative(nodes: seq<Node>, values: seq<Matrix>, seeds: seq<seq<real>>, loss: nat,
      leaf: nat, e: nat)
    requires Recorded(nodes, values) && Seeds(values, seeds) && loss < |nodes| && nodes[loss].shape == []
    requires leaf < |nodes| && nodes[leaf].op == Leaf && e < |values[leaf].flat| && UnitSeed(seeds, leaf, e)
    ensures var r, out := Backward(nodes, values, loss), Jets(nodes, values, seeds, |nodes|)[loss];
      && r.Ok? && |r.value| == |nodes| && |out.flat| == 1
      && match r.value[leaf]
         case Some(g) => |g.flat| == |values[leaf].flat| && g.flat[e] == out.flat[0].d
         case None => out.flat[0].d == 0.0
  {
    hide Dot, Tangent, Jets, Backward, RecordedAt, ProductTo, CountFits;
    AdjointIdentity(nodes, values, seeds, loss);
    var jets, grads := Jets(nodes, values, seeds, |nodes|), Backward(nodes, values, loss).value;
    var n, w := |nodes|, LeafWeight(nodes, grads, jets, 0);
    forall i | 0 <= i < n && i != leaf ensures w(i) == 0.0 {
      if nodes[i].op == Leaf {
        LeafJet(nodes, values, seeds, i);
        if grads[i].Some? {
          ZeroDot(grads[i].value.flat, seeds[i]);
        }
        assert Weight(grads, jets)(i) == Pairing(grads[i], jets[i]) == 0.0;
      }
    }
    SumPoint(n, w, i => 0.0, leaf);
    SumZero(n, i => 0.0);
    assert LeafSum(nodes, grads, jets) == w(leaf);
    assert w(leaf) == Weight(grads, jets)(leaf) == Pairing(grads[leaf], jets[leaf]);
    LeafJet(nodes, values, seeds, leaf);
    if grads[leaf].Some? {
      DotUnit(grads[leaf].value.flat, seeds[leaf], e);
    }
  }

  lemma ZeroDot(a: seq<real>, x: seq<real>)
    requires forall i :: 0 <= i < |x| ==> x[i] == 0.0
    ensures Dot(a, x) == 0.0
  {
    SumZero(|a|, i => Times(At(a, i), At(x, i)));
  }

  lemma LeafJet(nodes: seq<Node>, values: seq<Matrix>, seeds: seq<seq<real>>, i: nat)
    requires Recorded(nodes, values) && Seeds(values, seeds) && i < |nodes| && nodes[i].op == Leaf
    ensures Tangent(Jets(nodes, values, seeds, |nodes|)[i]) == seeds[i]
  {
    hide ProductTo, CountFits;
    JetsPrefix(nodes, values, seeds, i + 1, |nodes|);
    assert RecordedAt(nodes, values, i);
    assert Jets(nodes, values, seeds, i + 1)[i] == Seeded(values[i], seeds[i]);
  }
}

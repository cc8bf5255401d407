/** The autograd tape object: recording methods append a node and its value, `Backward` runs the
    reverse sweep over gradient slots. The class invariant says that every node holds what its
    operation computes from earlier nodes, so the theorems of Sweep hold of every tape that any
    run of these methods can build. */
module Tape {
  import opened Wrappers
  import opened Shapes
  import opened Rules
  import opened Replay
  import opened Autograd
  import K = Tensors
  import D = Dense
  import S = Sweep

  datatype AutogradValue = AutogradValue(id: nat, tapeId: nat, tensor: RealTensor)

  function Ids(args: seq<AutogradValue>): (r: seq<nat>)
    ensures |r| == |args|
  {
    seq(|args|, i requires 0 <= i < |args| => args[i].id)
  }

  type Recording = Result<AutogradValue, AutogradError>

  lemma RecordedAppend(nodes: seq<Node>, values: seq<Matrix>, node: Node, value: Matrix)
    requires Recorded(nodes, values) && value.Valid() && node.shape == value.shape
    requires |node.parents| == Arity(node.op) && Below(node.parents, |nodes|)
    requires (forall p :: 0 <= p < |node.parents| ==> values[node.parents[p]].Valid())
    requires node.op != Leaf ==> Forward(REAL, node.op, node.shape, Pick(values, node.parents)) == Ok(value)
    ensures Recorded(nodes + [node], values + [value])
  {
    hide Forward, ProductTo, CountFits;
    var ns, vs := nodes + [node], values + [value];
    forall i | 0 <= i < |ns| ensures RecordedAt(ns, vs, i) {
      if i < |nodes| {
        assert RecordedAt(nodes, values, i);
        assert Pick(vs, ns[i].parents) == Pick(values, ns[i].parents);
      } else {
        assert Pick(vs, node.parents) == Pick(values, node.parents);
      }
    }
  }

  function ShapesOf(nodes: seq<Node>): (r: seq<seq<nat>>)
    ensures r == S.NodeShapes(nodes)
  {
    seq(|nodes|, i requires 0 <= i < |nodes| => nodes[i].shape)
  }

  function PickTensors(values: seq<RealTensor>, parents: seq<nat>): (r: seq<RealTensor>)
    requires Below(parents, |values|)
    ensures |r| == |parents| && forall p :: 0 <= p < |parents| ==> r[p] == values[parents[p]]
  {
    seq(|parents|, p requires 0 <= p < |parents| => values[parents[p]])
  }

  /** Accumulate the contributions of one node into its parents, first to last. */
  method AccumulateAll(gradients: AutogradGradients, parents: seq<nat>, gs: seq<RealTensor>, ghost ms: seq<Matrix>)
    returns (r: Result<(), AutogradError>)
    requires gradients.Valid() && |parents| == |gs| == |ms|
    requires forall p :: 0 <= p < |gs| ==> StandsFor(gs[p], ms[p])
    requires forall p :: 0 <= p < |ms| ==> ms[p].Valid()
    requires S.AddAll(gradients.expectedShapes, gradients.Slots(), parents, ms, |ms|).Ok?
    modifies gradients`gradients
    ensures gradients.Valid() && r.Ok?
    ensures S.AddAll(gradients.expectedShapes, old(gradients.Slots()), parents, ms, |ms|) == Ok(gradients.Slots())
  {
    hide ProductTo, CountFits, K.Logical, K.WellFormed, K.Contiguous, S.AddInto;
    ghost var before := gradients.Slots();
    for p := 0 to |gs|
      invariant gradients.Valid()
      invariant S.AddAll(gradients.expectedShapes, before, parents, ms, p) == Ok(gradients.Slots())
    {
      S.AddAllPrefix(gradients.expectedShapes, before, parents, ms, p + 1, |ms|);
      var added := gradients.Accumulate(parents[p], gs[p]);
      assert added.Ok?;
    }
    r := Ok(());
  }

  class AutogradTape {
    const id: nat
    var nodes: seq<Node>
    var values: seq<RealTensor>

    ghost predicate Valid()
      reads this
    {
      AllWellFormed(values) && Recorded(nodes, Logicals(values))
    }

    /** The recorded values as matrices. */
    ghost function Values(): (r: seq<Matrix>)
      requires Valid()
      reads this
      ensures Recorded(nodes, r)
    {
      Logicals(values)
    }

    /** Why these arguments cannot be used on this tape, if they cannot. */
    function Misuse(args: seq<AutogradValue>): Option<AutogradError>
      reads this
    {
      if exists i :: 0 <= i < |args| && args[i].tapeId != id then Some(ForeignTapeValue)
      else if exists i :: 0 <= i < |args| && args[i].id >= |values| then Some(MissingNode)
      else None
    }

    /** The matrix recorded for a value of this tape. */
    ghost function Operand(v: AutogradValue): (r: Matrix)
      requires Valid()
      reads this
      ensures r.Valid()
    {
      if v.id < |values| then K.Logical(values[v.id]) else D.Scalar(0.0)
    }

    /** Since the tape held `nodes0` and `values0`, `r` records the outcome: an error left it alone,
        a matrix was appended as one node. */
    ghost predicate Appends(nodes0: seq<Node>, values0: seq<RealTensor>, op: Op, args: seq<AutogradValue>,
                            outcome: D.TensorResult<real>, r: Recording)
      requires Valid() && AllWellFormed(values0)
      reads this
    {
      match outcome
      case Err(error) => r == Err(Rules.Tensor(error)) && nodes == nodes0 && values == values0
      case Ok(m) =>
        && nodes == nodes0 + [Node(op, Ids(args), m.shape)]
        && Values() == Logicals(values0) + [m]
        && r.Ok? && r.value.id == |nodes0| && r.value.tapeId == id && StandsFor(r.value.tensor, m)
    }

    /** The outcome of an operation on these arguments: misuse is reported and changes nothing. */
    ghost predicate Reports(nodes0: seq<Node>, values0: seq<RealTensor>, fault: Option<AutogradError>, op: Op,
                             args: seq<AutogradValue>, outcome: D.TensorResult<real>, r: Recording)
      requires Valid() && AllWellFormed(values0)
      reads this
    {
      match fault
      case Some(error) => r == Err(error) && nodes == nodes0 && values == values0
      case None => Appends(nodes0, values0, op, args, outcome, r)
    }

    constructor (tapeId: nat)
      ensures Valid() && id == tapeId && nodes == [] && values == []
    {
      id := tapeId;
      nodes := [];
      values := [];
    }

    method Record(op: Op, args: seq<AutogradValue>, tensor: RealTensor) returns (v: AutogradValue)
      requires Valid() && K.WellFormed(tensor) && |args| == Arity(op) && Below(Ids(args), |values|)
      requires op != Leaf ==>
        Inputs(op, tensor.shape, Pick(Values(), Ids(args))) &&
        Forward(REAL, op, tensor.shape, Pick(Values(), Ids(args))) == Ok(K.Logical(tensor))
      modifies this`nodes, this`values
      ensures Valid()
      ensures Appends(old(nodes), old(values), op, args, Ok(K.Logical(tensor)), Ok(v))
    {
      hide Forward, ProductTo, CountFits, K.Logical, K.WellFormed, K.Contiguous;
      var saved := K.Materialize(tensor);
      var own := K.Materialize(saved);
      v := AutogradValue(|nodes|, id, own);
      ghost var before := Values();
      var node := Node(op, Ids(args), saved.shape);
      assert saved.shape == tensor.shape by {
        assert K.Logical(saved).shape == K.Logical(tensor).shape;
      }
      forall p | 0 <= p < |node.parents| ensures before[node.parents[p]].Valid() {
        assert RecordedAt(nodes, before, node.parents[p]);
      }
      RecordedAppend(nodes, before, node, K.Logical(saved));
      values := values + [saved];
      nodes := nodes + [node];
      assert Logicals(values) == before + [K.Logical(saved)];
    }

    method NewLeaf(tensor: RealTensor) returns (r: Recording)
      requires Valid() && K.WellFormed(tensor)
      modifies this`nodes, this`values
      ensures Valid()
      ensures tensor.view ==> r == Err(Unsupported(View)) && nodes == old(nodes) && values == old(values)
      ensures !tensor.view ==> Appends(old(nodes), old(values), Leaf, [], Ok(K.Logical(tensor)), r)
    {
      if tensor.view {
        return Err(Unsupported(View));
      }
      var v := Record(Leaf, [], tensor);
      r := Ok(v);
    }

    /** `ensure_member` on every argument, then the lookups. */
    method Check(args: seq<AutogradValue>) returns (fault: Option<AutogradError>)
      requires Valid()
      ensures fault == Misuse(args)
      ensures fault.None? ==> Below(Ids(args), |values|)
    {
      for i := 0 to |args|
        invariant forall j :: 0 <= j < i ==> args[j].tapeId == id
      {
        if args[i].tapeId != id {
          return Some(ForeignTapeValue);
        }
      }
      for i := 0 to |args|
        invariant forall j :: 0 <= j < i ==> args[j].id < |values|
      {
        if args[i].id >= |values| {
          return Some(MissingNode);
        }
      }
      fault := None;
    }

    /** Append a computed result, or report its error. */
    method Finish(op: Op, args: seq<AutogradValue>, computed: K.KernelResult<real>, ghost outcome: D.TensorResult<real>)
      returns (r: Recording)
      requires Valid() && op != Leaf && |args| == Arity(op) && Below(Ids(args), |values|)
      requires match outcome
        case Err(error) => computed == Err(error)
        case Ok(m) => computed.Ok? && K.WellFormed(computed.value) && K.Logical(computed.value) == m &&
                      Inputs(op, m.shape, Pick(Values(), Ids(args))) &&
                      Forward(REAL, op, m.shape, Pick(Values(), Ids(args))) == outcome
      modifies this`nodes, this`values
      ensures Valid()
      ensures Appends(old(nodes), old(values), op, args, outcome, r)
    {
      hide Forward, ProductTo, CountFits, K.Logical, K.WellFormed, Inputs;
      if computed.Err? {
        return Err(Rules.Tensor(computed.error));
      }
      var v := Record(op, args, computed.value);
      r := Ok(v);
    }

    lemma Operands(args: seq<AutogradValue>, op: Op)
      requires Valid() && Below(Ids(args), |values|) && |args| == Arity(op)
      ensures var ps := Pick(Values(), Ids(args));
        forall i :: 0 <= i < |args| ==> args[i].id < |values| && ps[i] == Operand(args[i])
    {
      forall i | 0 <= i < |args| ensures args[i].id < |values| {
        assert Ids(args)[i] == args[i].id;
      }
    }

    /** The two-operand elementwise operations. */
    method Binary(lhs: AutogradValue, rhs: AutogradValue, op: Op) returns (r: Recording)
      requires Valid() && (op == Add || op == Sub || op == Mul || op == Div)
      modifies this`nodes, this`values
      ensures Valid()
      ensures Reports(old(nodes), old(values), old(Misuse([lhs, rhs])), op, [lhs, rhs],
                      ElementwiseOutcome(op, old(Operand(lhs)), old(Operand(rhs))), r)
    {
      hide ProductTo, CountFits, K.Logical, K.WellFormed, D.Elementwise, D.Divide;
      var args := [lhs, rhs];
      var fault := Check(args);
      if fault.Some? {
        return Err(fault.value);
      }
      Operands(args, op);
      assert lhs == args[0] && rhs == args[1];
      var a, b := values[lhs.id], values[rhs.id];
      ghost var outcome := ElementwiseOutcome(op, K.Logical(a), K.Logical(b));
      var computed: K.KernelResult<real>;
      match op {
        case Add => computed := K.Elementwise(a, b, RealAdd);
        case Sub => computed := K.Elementwise(a, b, RealSub);
        case Mul => computed := K.Elementwise(a, b, RealMul);
        case Div => computed := K.Divide(REAL, a, b);
      }
      r := Finish(op, args, computed, outcome);
    }

    method Neg(value: AutogradValue) returns (r: Recording)
      requires Valid()
      modifies this`nodes, this`values
      ensures Valid()
      ensures Reports(old(nodes), old(values), old(Misuse([value])), Op.Neg, [value],
              Ok(D.Map(old(Operand(value)), RealNeg)), r)
    {
      hide ProductTo, CountFits, K.Logical, K.WellFormed;
      var args := [value];
      var fault := Check(args);
      if fault.Some? {
        return Err(fault.value);
      }
      Operands(args, Op.Neg);
      assert value == args[0];
      var a := values[value.id];
      var t := K.MapElements(a, RealNeg);
      r := Finish(Op.Neg, args, Ok(t), Ok(D.Map(K.Logical(a), RealNeg)));
    }

    method Relu(value: AutogradValue) returns (r: Recording)
      requires Valid()
      modifies this`nodes, this`values
      ensures Valid()
      ensures Reports(old(nodes), old(values), old(Misuse([value])), Op.Relu, [value],
              Ok(D.Map(old(Operand(value)), RealRelu)), r)
    {
      hide ProductTo, CountFits, K.Logical, K.WellFormed;
      var args := [value];
      var fault := Check(args);
      if fault.Some? {
        return Err(fault.value);
      }
      Operands(args, Op.Relu);
      assert value == args[0];
      var a := values[value.id];
      var t := K.MapElements(a, RealRelu);
      r := Finish(Op.Relu, args, Ok(t), Ok(D.Map(K.Logical(a), RealRelu)));
    }

    method Scala(value: AutogradValue, factor: real) returns (r: Recording)
      requires Valid()
      modifies this`nodes, this`values
      ensures Valid()
      ensures Reports(old(nodes), old(values), old(Misuse([value])), Op.Scala(factor), [value],
              Ok(D.Scala(REAL, old(Operand(value)), factor)), r)
    {
      hide ProductTo, CountFits, K.Logical, K.WellFormed;
      var args := [value];
      var fault := Check(args);
      if fault.Some? {
        return Err(fault.value);
      }
      Operands(args, Op.Scala(factor));
      assert value == args[0];
      var a := values[value.id];
      var t := ScaleTensor(a, factor);
      assert Scaled(K.Logical(a), factor) == D.Scala(REAL, K.Logical(a), factor);
      r := Finish(Op.Scala(factor), args, Ok(t), Ok(D.Scala(REAL, K.Logical(a), factor)));
    }

    method Forma(value: AutogradValue, shape: seq<int>) returns (r: Recording)
      requires Valid() && D.FitsI64(shape)
      modifies this`nodes, this`values
      ensures Valid()
      ensures Reports(old(nodes), old(values), old(Misuse([value])), Op.Forma, [value],
              D.Forma(old(Operand(value)), shape), r)
    {
      hide ProductTo, CountFits, K.Logical, K.WellFormed;
      var args := [value];
      var fault := Check(args);
      if fault.Some? {
        return Err(fault.value);
      }
      Operands(args, Op.Forma);
      assert value == args[0];
      var a := values[value.id];
      var computed := K.Forma(a, shape);
      assert D.NonNegative(shape) ==> ToNats(ToNats(shape)) == ToNats(shape);
      r := Finish(Op.Forma, args, computed, D.Forma(K.Logical(a), shape));
    }

    method Permute(value: AutogradValue, axes: seq<int>) returns (r: Recording)
      requires Valid()
      modifies this`nodes, this`values
      ensures Valid()
      ensures Reports(old(nodes), old(values), old(Misuse([value])), Op.Permute(axes), [value],
              D.Permute(old(Operand(value)), axes), r)
    {
      hide ProductTo, CountFits, K.Logical, K.WellFormed, D.Permute;
      var args := [value];
      var fault := Check(args);
      if fault.Some? {
        return Err(fault.value);
      }
      Operands(args, Op.Permute(axes));
      assert value == args[0];
      var a := values[value.id];
      var computed := K.Permute(a, axes);
      r := Finish(Op.Permute(axes), args, computed, D.Permute(K.Logical(a), axes));
    }

    method Sectio(value: AutogradValue, start: int, end: int) returns (r: Recording)
      requires Valid()
      modifies this`nodes, this`values
      ensures Valid()
      ensures Reports(old(nodes), old(values), old(Misuse([value])), Op.Sectio(start), [value],
              D.Sectio(old(Operand(value)), start, end), r)
    {
      hide ProductTo, CountFits, K.Logical, K.WellFormed, D.Sectio;
      var args := [value];
      var fault := Check(args);
      if fault.Some? {
        return Err(fault.value);
      }
      Operands(args, Op.Sectio(start));
      assert value == args[0];
      var a := values[value.id];
      var computed := K.Sectio(a, start, end);
      r := Finish(Op.Sectio(start), args, computed, D.Sectio(K.Logical(a), start, end));
    }

    method Summa(value: AutogradValue) returns (r: Recording)
      requires Valid()
      modifies this`nodes, this`values
      ensures Valid()
      ensures Reports(old(nodes), old(values), old(Misuse([value])), Op.Summa, [value],
              Ok(D.Scalar(D.Summa(REAL, old(Operand(value))))), r)
    {
      hide ProductTo, CountFits, K.Logical, K.WellFormed;
      var args := [value];
      var fault := Check(args);
      if fault.Some? {
        return Err(fault.value);
      }
      Operands(args, Op.Summa);
      assert value == args[0];
      var a := values[value.id];
      var sum := K.Summa(REAL, a);
      assert D.Scalar(sum).Valid();
      var t := K.FromContiguous([sum], []);
      r := Finish(Op.Summa, args, Ok(t), Ok(D.Scalar(sum)));
    }

    method Media(value: AutogradValue) returns (r: Recording)
      requires Valid()
      modifies this`nodes, this`values
      ensures Valid()
      ensures Reports(old(nodes), old(values), old(Misuse([value])), Op.Media, [value],
              Lifted(D.Media(REAL, old(Operand(value)))), r)
    {
      hide ProductTo, CountFits, K.Logical, K.WellFormed, D.Media;
      var args := [value];
      var fault := Check(args);
      if fault.Some? {
        return Err(fault.value);
      }
      Operands(args, Op.Media);
      assert value == args[0];
      var a := values[value.id];
      var mean := K.Media(REAL, a);
      if mean.Err? {
        return Err(Rules.Tensor(mean.error));
      }
      assert D.Scalar(mean.value).Valid();
      var t := K.FromContiguous([mean.value], []);
      r := Finish(Op.Media, args, Ok(t), Ok(D.Scalar(mean.value)));
    }

    method Matmul(lhs: AutogradValue, rhs: AutogradValue) returns (r: Recording)
      requires Valid()
      modifies this`nodes, this`values
      ensures Valid()
      ensures Reports(old(nodes), old(values), old(Misuse([lhs, rhs])), Op.Matmul, [lhs, rhs],
                      D.Matmul(REAL, old(Operand(lhs)), old(Operand(rhs))), r)
    {
      hide ProductTo, CountFits, K.Logical, K.WellFormed, D.Matmul;
      var args := [lhs, rhs];
      var fault := Check(args);
      if fault.Some? {
        return Err(fault.value);
      }
      Operands(args, Op.Matmul);
      assert lhs == args[0] && rhs == args[1];
      var a, b := values[lhs.id], values[rhs.id];
      var computed := K.Matmul(REAL, a, b);
      r := Finish(Op.Matmul, args, computed, D.Matmul(REAL, K.Logical(a), K.Logical(b)));
    }

    lemma NodeFacts(j: nat)
      requires Valid() && j < |nodes|
      ensures RecordedAt(nodes, Values(), j)
      ensures |values| == |nodes| && |nodes[j].parents| == Arity(nodes[j].op) && Below(nodes[j].parents, j)
      ensures K.WellFormed(values[j])
    {
      assert RecordedAt(nodes, Values(), j);
    }

    /** One node of the reverse loop: pull its gradient back and accumulate it into the parents. */
    method BackwardNode(j: nat, gradients: AutogradGradients) returns (r: Result<(), AutogradError>)
      requires Valid() && gradients.Valid() && j < |nodes|
      requires gradients.expectedShapes == S.NodeShapes(nodes) && S.Shaped(Values(), gradients.Slots())
      modifies gradients`gradients
      ensures gradients.Valid() && r.Ok?
      ensures S.Turn(nodes, Values(), old(gradients.Slots()), j) == Ok(gradients.Slots())
    {
      hide ProductTo, CountFits, K.Logical, K.WellFormed, Pullback, RecordedAt, S.AddAll, S.Turn;
      ghost var before := gradients.Slots();
      S.TurnSucceeds(nodes, Values(), before, j);
      if gradients.gradients[j].None? {
        S.TurnSkips(nodes, Values(), before, j);
        return Ok(());
      }
      var upstream, node := gradients.gradients[j].value, nodes[j];
      NodeFacts(j);
      S.TurnUnfold(nodes, Values(), before, j);
      var ps := PickTensors(values, node.parents);
      assert Logicals(ps) == Pick(Values(), node.parents);
      var contributions := Contributions(node.op, ps, values[j], upstream);
      ghost var pulled := Pullback(node.op, Pick(Values(), node.parents), Values()[j], before[j].value);
      assert pulled.Ok?;
      r := AccumulateAll(gradients, node.parents, contributions.value, pulled.value);
    }

    /** Reverse-mode differentiation. On a scalar of this tape it always succeeds, and for every
        choice of leaf tangents the leaf gradients pair with them to the forward-mode tangent of the
        loss. */
    method Backward(loss: AutogradValue) returns (r: Result<AutogradGradients, AutogradError>)
      requires Valid()
      ensures loss.tapeId != id ==> r == Err(ForeignTapeValue)
      ensures loss.tapeId == id && loss.id >= |nodes| ==> r == Err(MissingNode)
      ensures loss.tapeId == id && loss.id < |nodes| && nodes[loss.id].shape != [] ==> r == Err(BackwardRequiresScalar)
      ensures loss.tapeId == id && loss.id < |nodes| && nodes[loss.id].shape == [] ==>
        && r.Ok? && fresh(r.value) && r.value.Valid()
        && S.Backward(nodes, Values(), loss.id) == Ok(r.value.Slots())
        && S.Shaped(Values(), r.value.Slots())
        && forall seeds {:trigger Seeds(Values(), seeds)} | Seeds(Values(), seeds) ::
             var jets := Jets(nodes, Values(), seeds, |nodes|);
             |jets[loss.id].flat| == 1 && S.LeafSum(nodes, r.value.Slots(), jets) == jets[loss.id].flat[0].d
    {
      hide ProductTo, CountFits, K.Logical, K.WellFormed, Pullback, RecordedAt, Jets, S.LeafSum, S.Turn;
      if loss.tapeId != id {
        return Err(ForeignTapeValue);
      }
      if loss.id >= |nodes| {
        return Err(MissingNode);
      }
      if nodes[loss.id].shape != [] {
        return Err(BackwardRequiresScalar);
      }
      var n := |nodes|;
      var gradients := new AutogradGradients(ShapesOf(nodes));
      assert gradients.expectedShapes == S.NodeShapes(nodes);
      ghost var V := Values();
      assert D.Scalar(1.0).Valid();
      var one := K.FromContiguous([1.0], []);
      var seeded := gradients.Accumulate(loss.id, one);
      ghost var start := S.Start(nodes, loss.id);
      assert gradients.Slots() == start;
      NodeFacts(loss.id);
      S.StartShaped(nodes, V, loss.id);
      var j := n;
      while j > 0
        invariant 0 <= j <= n && gradients.Valid() && fresh(gradients)
        invariant gradients.expectedShapes == S.NodeShapes(nodes)
        invariant S.Shaped(V, gradients.Slots())
        invariant S.Down(nodes, V, start, n) == S.Down(nodes, V, gradients.Slots(), j)
      {
        j := j - 1;
        S.TurnSucceeds(nodes, V, gradients.Slots(), j);
        var turned := BackwardNode(j, gradients);
      }
      r := Ok(gradients);
      forall seeds | Seeds(V, seeds)
        ensures var jets := Jets(nodes, V, seeds, |nodes|);
          |jets[loss.id].flat| == 1 && S.LeafSum(nodes, gradients.Slots(), jets) == jets[loss.id].flat[0].d
      {
        S.AdjointIdentity(nodes, V, seeds, loss.id);
      }
    }
  }

  ghost function ElementwiseOutcome(op: Op, a: Matrix, b: Matrix): (r: D.TensorResult<real>)
    requires a.Valid() && b.Valid()
  {
    match op
    case Add => D.Elementwise(a, b, RealAdd)
    case Sub => D.Elementwise(a, b, RealSub)
    case Mul => D.Elementwise(a, b, RealMul)
    case _ => D.Divide(REAL, a, b)
  }
}

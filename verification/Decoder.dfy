/** The rows the decoder computes, layer by layer, as functions of the rows below, and what each of them
    depends on. Scalar arithmetic and the row kernels are parameters; only their result lengths are
    assumed. */
module Decoder {
  import opened Wrappers

  const HIDDEN: nat := 960
  const HEADS: nat := 15
  const KV_HEADS: nat := 5
  const HEAD_DIM: nat := 64
  const KV_SPAN: nat := 320
  const GROUP: nat := 3
  const FFN: nat := 2560
  const VOCAB: nat := 49_152

  /** Scalar and row kernels on an element type whose arithmetic is not interpreted. */
  datatype Ops<!F> = Ops(
    zero: F,
    scale: F,
    add: (F, F) -> F,
    mul: (F, F) -> F,
    gate: (F, F) -> F,
    round: F -> F,
    softmax: seq<F> -> seq<F>,
    normalize: (seq<F>, seq<F>) -> seq<F>,
    project: (seq<F>, seq<F>, nat) -> seq<F>,
    rotate: (seq<F>, nat) -> seq<F>)

  /** The kernels return rows of the documented lengths. */
  ghost predicate Lawful<F(!new)>(ops: Ops<F>) {
    && (forall s :: |ops.softmax(s)| == |s|)
    && (forall x, w :: |ops.normalize(x, w)| == |x|)
    && (forall w, x, out :: |ops.project(w, x, out)| == out)
    && (forall x, pos :: |ops.rotate(x, pos)| == |x|)
  }

  datatype LayerWeights<F> = LayerWeights(
    attnNorm: seq<F>,
    attnQ: seq<F>,
    attnK: seq<F>,
    attnV: seq<F>,
    attnOutput: seq<F>,
    ffnNorm: seq<F>,
    ffnGate: seq<F>,
    ffnUp: seq<F>,
    ffnDown: seq<F>)

  predicate Sized<F>(w: LayerWeights<F>) {
    && |w.attnNorm| == HIDDEN
    && |w.attnQ| == HIDDEN * HIDDEN
    && |w.attnK| == HIDDEN * KV_SPAN
    && |w.attnV| == HIDDEN * KV_SPAN
    && |w.attnOutput| == HIDDEN * HIDDEN
    && |w.ffnNorm| == HIDDEN
    && |w.ffnGate| == HIDDEN * FFN
    && |w.ffnUp| == HIDDEN * FFN
    && |w.ffnDown| == FFN * HIDDEN
  }

  /** The materialized oracle: any number of layers of the pinned sizes. */
  datatype Oracle<!F> = Oracle(ops: Ops<F>, embedding: seq<F>, layers: seq<LayerWeights<F>>, outputNorm: seq<F>)

  ghost predicate Built<F(!new)>(o: Oracle<F>) {
    && Lawful(o.ops)
    && |o.embedding| == HIDDEN * VOCAB
    && |o.outputNorm| == HIDDEN
    && forall l :: 0 <= l < |o.layers| ==> Sized(o.layers[l])
  }

  datatype OracleError = Op(name: string) | EmptyTokens | TokenOutOfRange(token: int)

  type RowResult<F> = Result<seq<F>, OracleError>

  // ----- row kernels with their shape checks

  function RmsNorm<F>(ops: Ops<F>, x: seq<F>, w: seq<F>): RowResult<F> {
    if |x| != |w| then Err(Op("rms_norm")) else Ok(ops.normalize(x, w))
  }

  function DenseRow<F>(ops: Ops<F>, w: seq<F>, x: seq<F>, inputs: nat, outputs: nat): RowResult<F> {
    if |x| != inputs || |w| != inputs * outputs then Err(Op("dense")) else Ok(ops.project(w, x, outputs))
  }

  function RopeNorm<F>(ops: Ops<F>, x: seq<F>, pos: nat): RowResult<F> {
    if |x| != HEAD_DIM then Err(Op("rope_norm")) else Ok(ops.rotate(x, pos % 0x1_0000_0000))
  }

  function Zip<F>(f: (F, F) -> F, a: seq<F>, b: seq<F>): (r: seq<F>)
    requires |a| == |b|
    ensures |r| == |a|
  {
    seq(|a|, i requires 0 <= i < |a| => f(a[i], b[i]))
  }

  function Swiglu<F>(ops: Ops<F>, gate: seq<F>, up: seq<F>): RowResult<F> {
    if |gate| != |up| then Err(Op("swiglu")) else Ok(Zip(ops.gate, gate, up))
  }

  function ResidualAdd<F>(ops: Ops<F>, a: seq<F>, b: seq<F>): RowResult<F> {
    if |a| != |b| then Err(Op("residual_add")) else Ok(Zip(ops.add, a, b))
  }

  function Rounded<F>(ops: Ops<F>, x: seq<F>): (r: seq<F>)
    ensures |r| == |x|
  {
    seq(|x|, i requires 0 <= i < |x| => ops.round(x[i]))
  }

  // ----- what one row computes

  /** Every head rotated for this position. */
  ghost function Rotated<F(!new)>(ops: Ops<F>, x: seq<F>, heads: nat, pos: nat): (r: seq<F>)
    requires Lawful(ops) && |x| == heads * HEAD_DIM
    ensures |r| == heads * HEAD_DIM
    decreases heads
  {
    if heads == 0 then []
    else
      Rotated(ops, x[..(heads - 1) * HEAD_DIM], heads - 1, pos) +
      ops.rotate(x[(heads - 1) * HEAD_DIM..], pos % 0x1_0000_0000)
  }

  ghost predicate RowOf<F>(h: seq<F>) {
    |h| == HIDDEN
  }

  ghost function Query<F(!new)>(ops: Ops<F>, w: LayerWeights<F>, h: seq<F>, pos: nat): (r: seq<F>)
    requires Lawful(ops)
    ensures |r| == HIDDEN
  {
    Rotated(ops, ops.project(w.attnQ, ops.normalize(h, w.attnNorm), HIDDEN), HEADS, pos)
  }

  ghost function Key<F(!new)>(ops: Ops<F>, w: LayerWeights<F>, h: seq<F>, pos: nat): (r: seq<F>)
    requires Lawful(ops)
    ensures |r| == KV_SPAN
  {
    Rounded(ops, Rotated(ops, ops.project(w.attnK, ops.normalize(h, w.attnNorm), KV_SPAN), KV_HEADS, pos))
  }

  ghost function Value<F(!new)>(ops: Ops<F>, w: LayerWeights<F>, h: seq<F>): (r: seq<F>)
    requires Lawful(ops)
    ensures |r| == KV_SPAN
  {
    Rounded(ops, ops.project(w.attnV, ops.normalize(h, w.attnNorm), KV_SPAN))
  }

  /** The keys of the first n rows, one after another. */
  ghost function Keys<F(!new)>(ops: Ops<F>, w: LayerWeights<F>, hs: seq<seq<F>>, n: nat): (r: seq<F>)
    requires Lawful(ops) && n <= |hs|
    ensures |r| == n * KV_SPAN
    decreases n
  {
    if n == 0 then [] else Keys(ops, w, hs, n - 1) + Key(ops, w, hs[n - 1], n - 1)
  }

  ghost function Values<F(!new)>(ops: Ops<F>, w: LayerWeights<F>, hs: seq<seq<F>>, n: nat): (r: seq<F>)
    requires Lawful(ops) && n <= |hs|
    ensures |r| == n * KV_SPAN
    decreases n
  {
    if n == 0 then [] else Values(ops, w, hs, n - 1) + Value(ops, w, hs[n - 1])
  }

  // ----- attention of one query row over the keys and values up to its position

  /** The first k products of query head `head` with key row j. */
  function DotTo<F>(ops: Ops<F>, q: seq<F>, keys: seq<F>, head: nat, j: nat, k: nat): F
    requires |q| == HIDDEN && head < HEADS && (j + 1) * KV_SPAN <= |keys| && k <= HEAD_DIM
    decreases k
  {
    if k == 0 then ops.zero
    else ops.add(DotTo(ops, q, keys, head, j, k - 1),
                 ops.mul(q[head * HEAD_DIM + k - 1], keys[j * KV_SPAN + head / GROUP * HEAD_DIM + k - 1]))
  }

  function Score<F>(ops: Ops<F>, q: seq<F>, keys: seq<F>, head: nat, j: nat): F
    requires |q| == HIDDEN && head < HEADS && (j + 1) * KV_SPAN <= |keys|
  {
    ops.mul(DotTo(ops, q, keys, head, j, HEAD_DIM), ops.scale)
  }

  ghost function Probabilities<F(!new)>(ops: Ops<F>, q: seq<F>, keys: seq<F>, head: nat, n: nat): (r: seq<F>)
    requires Lawful(ops) && |q| == HIDDEN && head < HEADS && n * KV_SPAN <= |keys|
    ensures |r| == n
  {
    ops.softmax(seq(n, j requires 0 <= j < n => Score(ops, q, keys, head, j)))
  }

  /** The first m weighted values in column d of the head. */
  function MixTo<F>(ops: Ops<F>, probs: seq<F>, values: seq<F>, head: nat, d: nat, m: nat): F
    requires m <= |probs| && m * KV_SPAN <= |values| && head < HEADS && d < HEAD_DIM
    decreases m
  {
    if m == 0 then ops.zero
    else ops.add(MixTo(ops, probs, values, head, d, m - 1),
                 ops.mul(probs[m - 1], values[(m - 1) * KV_SPAN + head / GROUP * HEAD_DIM + d]))
  }

  /** Context row of a query that sees n key and value rows. */
  ghost function Attend<F(!new)>(ops: Ops<F>, q: seq<F>, keys: seq<F>, values: seq<F>, n: nat): (r: seq<F>)
    requires Lawful(ops) && |q| == HIDDEN && n * KV_SPAN <= |keys| && n * KV_SPAN <= |values|
    ensures |r| == HIDDEN
  {
    seq(HIDDEN, c requires 0 <= c < HIDDEN =>
      MixTo(ops, Probabilities(ops, q, keys, c / HEAD_DIM, n), values, c / HEAD_DIM, c % HEAD_DIM, n))
  }

  // ----- a layer, and the whole stack, on rows

  /** What follows attention in a layer: output projection, residuals and the feed-forward part. */
  ghost function Close<F(!new)>(ops: Ops<F>, w: LayerWeights<F>, h: seq<F>, ctx: seq<F>): (r: seq<F>)
    requires Lawful(ops) && RowOf(h)
    ensures RowOf(r)
  {
    var h2 := Zip(ops.add, h, ops.project(w.attnOutput, ctx, HIDDEN));
    var f := ops.normalize(h2, w.ffnNorm);
    var hh := Zip(ops.gate, ops.project(w.ffnGate, f, FFN), ops.project(w.ffnUp, f, FFN));
    Zip(ops.add, h2, ops.project(w.ffnDown, hh, HIDDEN))
  }

  /** Row t of a layer's output: it sees rows 0 to t. */
  ghost function LayerRow<F(!new)>(ops: Ops<F>, w: LayerWeights<F>, hs: seq<seq<F>>, t: nat): (r: seq<F>)
    requires Lawful(ops) && t < |hs| && RowOf(hs[t])
    ensures RowOf(r)
  {
    Close(ops, w, hs[t],
        Attend(ops, Query(ops, w, hs[t], t), Keys(ops, w, hs, t + 1), Values(ops, w, hs, t + 1), t + 1))
  }

  ghost predicate Rows<F>(hs: seq<seq<F>>) {
    forall t :: 0 <= t < |hs| ==> RowOf(hs[t])
  }

  ghost function LayerRows<F(!new)>(ops: Ops<F>, w: LayerWeights<F>, hs: seq<seq<F>>): (r: seq<seq<F>>)
    requires Lawful(ops) && Rows(hs)
    ensures |r| == |hs| && Rows(r)
  {
    seq(|hs|, t requires 0 <= t < |hs| => LayerRow(ops, w, hs, t))
  }

  /** The rows after the first l layers. */
  ghost function Stack<F(!new)>(ops: Ops<F>, layers: seq<LayerWeights<F>>, hs: seq<seq<F>>, l: nat): (r: seq<seq<F>>)
    requires Lawful(ops) && Rows(hs) && l <= |layers|
    ensures |r| == |hs| && Rows(r)
    decreases l
  {
    if l == 0 then hs else LayerRows(ops, layers[l - 1], Stack(ops, layers, hs, l - 1))
  }

  predicate InVocab(token: int) {
    0 <= token < VOCAB
  }

  predicate AllInVocab(tokens: seq<int>) {
    forall i :: 0 <= i < |tokens| ==> InVocab(tokens[i])
  }

  function EmbedRow<F>(embedding: seq<F>, token: int): (r: seq<F>)
    requires |embedding| == HIDDEN * VOCAB && InVocab(token)
    ensures RowOf(r)
  {
    embedding[token * HIDDEN..(token + 1) * HIDDEN]
  }

  ghost function Embedded<F>(embedding: seq<F>, tokens: seq<int>): (r: seq<seq<F>>)
    requires |embedding| == HIDDEN * VOCAB && AllInVocab(tokens)
    ensures |r| == |tokens| && Rows(r)
  {
    seq(|tokens|, i requires 0 <= i < |tokens| => EmbedRow(embedding, tokens[i]))
  }

  /** The logits after a token sequence, as recomputing the whole sequence defines them. */
  ghost function Logits<F(!new)>(o: Oracle<F>, tokens: seq<int>): (r: seq<F>)
    requires Built(o) && AllInVocab(tokens) && |tokens| > 0
    ensures |r| == VOCAB
  {
    var rows := Stack(o.ops, o.layers, Embedded(o.embedding, tokens), |o.layers|);
    o.ops.project(o.embedding, o.ops.normalize(rows[|tokens| - 1], o.outputNorm), VOCAB)
  }

  // ----- causality

  /** Attention reads only the first n rows of both buffers. */
  lemma {:induction false} DotToPrefix<F>(ops: Ops<F>, q: seq<F>, a: seq<F>, b: seq<F>, head: nat, j: nat, n: nat,
      k: nat)
    requires |q| == HIDDEN && head < HEADS && j < n && n * KV_SPAN <= |a| && n * KV_SPAN <= |b| && k <= HEAD_DIM
    requires a[..n * KV_SPAN] == b[..n * KV_SPAN]
    ensures DotTo(ops, q, a, head, j, k) == DotTo(ops, q, b, head, j, k)
    decreases k
  {
    if k > 0 {
      DotToPrefix(ops, q, a, b, head, j, n, k - 1);
      var at := j * KV_SPAN + head / GROUP * HEAD_DIM + k - 1;
      assert a[..n * KV_SPAN][at] == b[..n * KV_SPAN][at];
    }
  }

  lemma {:induction false} MixToPrefix<F>(ops: Ops<F>, probs: seq<F>, a: seq<F>, b: seq<F>, head: nat, d: nat,
      n: nat, m: nat)
    requires m <= n && m <= |probs| && n * KV_SPAN <= |a| && n * KV_SPAN <= |b| && head < HEADS && d < HEAD_DIM
    requires a[..n * KV_SPAN] == b[..n * KV_SPAN]
    ensures MixTo(ops, probs, a, head, d, m) == MixTo(ops, probs, b, head, d, m)
    decreases m
  {
    if m > 0 {
      MixToPrefix(ops, probs, a, b, head, d, n, m - 1);
      var at := (m - 1) * KV_SPAN + head / GROUP * HEAD_DIM + d;
      assert a[..n * KV_SPAN][at] == b[..n * KV_SPAN][at];
    }
  }

  lemma AttendPrefix<F(!new)>(ops: Ops<F>, q: seq<F>, ka: seq<F>, kb: seq<F>, va: seq<F>, vb: seq<F>, n: nat)
    requires Lawful(ops) && |q| == HIDDEN && n * KV_SPAN <= |ka| && n * KV_SPAN <= |kb| && n * KV_SPAN <= |va| &&
             n * KV_SPAN <= |vb|
    requires ka[..n * KV_SPAN] == kb[..n * KV_SPAN] && va[..n * KV_SPAN] == vb[..n * KV_SPAN]
    ensures Attend(ops, q, ka, va, n) == Attend(ops, q, kb, vb, n)
  {
    forall c | 0 <= c < HIDDEN
      ensures Attend(ops, q, ka, va, n)[c] == Attend(ops, q, kb, vb, n)[c]
    {
      var head := c / HEAD_DIM;
      forall j | 0 <= j < n ensures Score(ops, q, ka, head, j) == Score(ops, q, kb, head, j) {
        DotToPrefix(ops, q, ka, kb, head, j, n, HEAD_DIM);
      }
      assert seq(n, j requires 0 <= j < n => Score(ops, q, ka, head, j)) ==
          seq(n, j requires 0 <= j < n => Score(ops, q, kb, head, j));
      MixToPrefix(ops, Probabilities(ops, q, ka, head, n), va, vb, head, c % HEAD_DIM, n, n);
    }
  }

  /** Keys and values of the first n rows depend on those rows alone. */
  lemma {:induction false} CachePrefix<F(!new)>(ops: Ops<F>, w: LayerWeights<F>, a: seq<seq<F>>, b: seq<seq<F>>, n: nat)
    requires Lawful(ops) && n <= |a| && n <= |b| && a[..n] == b[..n]
    ensures Keys(ops, w, a, n) == Keys(ops, w, b, n) && Values(ops, w, a, n) == Values(ops, w, b, n)
    decreases n
  {
    if n > 0 {
      assert a[..n - 1] == a[..n][..n - 1] == b[..n][..n - 1] == b[..n - 1];
      assert a[n - 1] == a[..n][n - 1] == b[..n][n - 1] == b[n - 1];
      CachePrefix(ops, w, a, b, n - 1);
    }
  }

  /** Causality: no later token changes an earlier row, at any depth. */
  lemma {:induction false} StackIsCausal<F(!new)>(ops: Ops<F>, layers: seq<LayerWeights<F>>, hs: seq<seq<F>>, n: nat,
      l: nat)
    requires Lawful(ops) && Rows(hs) && n <= |hs| && l <= |layers|
    ensures Rows(hs[..n])
    ensures Stack(ops, layers, hs, l)[..n] == Stack(ops, layers, hs[..n], l)
    decreases l
  {
    hide Attend, Close, Query, Keys, Values;
    if l > 0 {
      StackIsCausal(ops, layers, hs, n, l - 1);
      var whole, part, w := Stack(ops, layers, hs, l - 1), Stack(ops, layers, hs[..n], l - 1), layers[l - 1];
      forall t | 0 <= t < n ensures LayerRow(ops, w, whole, t) == LayerRow(ops, w, part, t) {
        assert whole[..n][t] == part[t];
        assert whole[..t + 1] == whole[..n][..t + 1] == part[..t + 1];
        CachePrefix(ops, w, whole, part, t + 1);
      }
    }
  }
}

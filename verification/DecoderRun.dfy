/** The loops of the decoder oracle: the batch layer over flat buffers, and the incremental run with
    its per-layer key and value caches. Both are proved against the row functions of Decoder. */
module DecoderRun {
  import opened Wrappers
  import opened Decoder

  // ----- flat buffers of rows

  lemma RowBounds(t: nat, n: nat, width: nat)
    requires t < n
    ensures 0 <= t * width <= (t + 1) * width <= n * width && (t + 1) * width == t * width + width
  {
    Distribute(t, 1, width);
    Distribute(t + 1, n - t - 1, width);
  }

  lemma Distribute(a: nat, b: nat, c: nat)
    ensures (a + b) * c == a * c + b * c && 0 <= a * c && 0 <= b * c
  {
  }

  /** Row t of a flat buffer of n rows. */
  function Slice<F>(flat: seq<F>, n: nat, t: nat, width: nat): (r: seq<F>)
    requires t < n && |flat| == n * width
    ensures |r| == width
  {
    RowBounds(t, n, width);
    flat[t * width..(t + 1) * width]
  }

  /** Appending a row keeps the earlier rows and adds this one. */
  lemma SliceAppend<F>(flat: seq<F>, n: nat, row: seq<F>, width: nat)
    requires |flat| == n * width && |row| == width
    ensures |flat + row| == (n + 1) * width
    ensures forall t :: 0 <= t < n ==> Slice(flat + row, n + 1, t, width) == Slice(flat, n, t, width)
    ensures Slice(flat + row, n + 1, n, width) == row
  {
    RowBounds(n, n + 1, width);
    forall t | 0 <= t < n ensures Slice(flat + row, n + 1, t, width) == Slice(flat, n, t, width) {
      RowBounds(t, n, width);
    }
  }

  /** The rows of a flat hidden state. */
  ghost function RowsOf<F>(flat: seq<F>, n: nat): (r: seq<seq<F>>)
    requires |flat| == n * HIDDEN
    ensures |r| == n && Rows(r)
  {
    seq(n, t requires 0 <= t < n => Slice(flat, n, t, HIDDEN))
  }

  /** One of the per-row loops of `forward_layer`. */
  method EachRow<F>(flat: seq<F>, n: nat, width: nat, outWidth: nat, op: seq<F> -> RowResult<F>)
    returns (r: RowResult<F>)
    requires |flat| == n * width
    requires forall x :: |x| == width && op(x).Ok? ==> |op(x).value| == outWidth
    ensures r.Ok? <==> forall t :: 0 <= t < n ==> op(Slice(flat, n, t, width)).Ok?
    ensures r.Ok? ==> |r.value| == n * outWidth
    ensures r.Ok? ==> forall t :: 0 <= t < n ==> Ok(Slice(r.value, n, t, outWidth)) == op(Slice(flat, n, t, width))
  {
    var out: seq<F> := [];
    for t := 0 to n
      invariant |out| == t * outWidth
      invariant forall s :: 0 <= s < t ==> Ok(Slice(out, t, s, outWidth)) == op(Slice(flat, n, s, width))
    {
      var applied := op(Slice(flat, n, t, width));
      if applied.Err? {
        return Err(applied.error);
      }
      var row := applied.value;
      SliceAppend(out, t, row, outWidth);
      out := out + row;
    }
    r := Ok(out);
  }

  /** `rope_all_heads`. */
  method RopeAllHeads<F(!new)>(ops: Ops<F>, x: seq<F>, heads: nat, pos: nat) returns (out: seq<F>)
    requires Lawful(ops) && |x| == heads * HEAD_DIM
    ensures out == Rotated(ops, x, heads, pos)
  {
    out := [];
    for h := 0 to heads
      invariant out == Rotated(ops, x[..h * HEAD_DIM], h, pos)
    {
      var row := x[h * HEAD_DIM..(h + 1) * HEAD_DIM];
      assert x[..(h + 1) * HEAD_DIM][..h * HEAD_DIM] == x[..h * HEAD_DIM];
      assert x[..(h + 1) * HEAD_DIM][h * HEAD_DIM..] == row;
      out := out + RopeNorm(ops, row, pos).value;
    }
    assert x[..heads * HEAD_DIM] == x;
  }

  /** Rotate every row of a flat buffer for its position. */
  method RotateRows<F(!new)>(ops: Ops<F>, flat: seq<F>, n: nat, heads: nat) returns (out: seq<F>)
    requires Lawful(ops) && |flat| == n * (heads * HEAD_DIM)
    ensures |out| == n * (heads * HEAD_DIM)
    ensures forall t :: 0 <= t < n ==>
      Slice(out, n, t, heads * HEAD_DIM) == Rotated(ops, Slice(flat, n, t, heads * HEAD_DIM), heads, t)
  {
    var width := heads * HEAD_DIM;
    out := [];
    for t := 0 to n
      invariant |out| == t * width
      invariant forall s :: 0 <= s < t ==> Slice(out, t, s, width) == Rotated(ops, Slice(flat, n, s, width), heads, s)
    {
      var row := RopeAllHeads(ops, Slice(flat, n, t, width), heads, t);
      SliceAppend(out, t, row, width);
      out := out + row;
    }
  }

  // ----- attention

  /** The scores of one head of one query row that sees n rows. */
  method HeadScores<F(!new)>(ops: Ops<F>, q: seq<F>, keys: seq<F>, head: nat, n: nat) returns (scores: seq<F>)
    requires |q| == HIDDEN && head < HEADS && n * KV_SPAN <= |keys|
    ensures |scores| == n && forall i :: 0 <= i < n ==> scores[i] == Score(ops, q, keys, head, i)
  {
    scores := [];
    for j := 0 to n
      invariant |scores| == j && forall i :: 0 <= i < j ==> scores[i] == Score(ops, q, keys, head, i)
    {
      var dot := ops.zero;
      for i := 0 to HEAD_DIM
        invariant dot == DotTo(ops, q, keys, head, j, i)
      {
        dot := ops.add(dot, ops.mul(q[head * HEAD_DIM + i], keys[j * KV_SPAN + head / GROUP * HEAD_DIM + i]));
      }
      scores := scores + [ops.mul(dot, ops.scale)];
    }
  }

  /** Scores, softmax and weighted values of one head of one query row that sees n rows. */
  method HeadContext<F(!new)>(ops: Ops<F>, q: seq<F>, keys: seq<F>, values: seq<F>, head: nat, n: nat)
    returns (r: seq<F>)
    requires Lawful(ops) && |q| == HIDDEN && head < HEADS && n * KV_SPAN <= |keys| && n * KV_SPAN <= |values|
    ensures |r| == HEAD_DIM
    ensures forall d :: 0 <= d < HEAD_DIM ==>
            r[d] == MixTo(ops, Probabilities(ops, q, keys, head, n), values, head, d, n)
  {
    var scores := HeadScores(ops, q, keys, head, n);
    var probs := ops.softmax(scores);
    assert scores == seq(n, j requires 0 <= j < n => Score(ops, q, keys, head, j));
    r := [];
    for d := 0 to HEAD_DIM
      invariant |r| == d && forall e :: 0 <= e < d ==> r[e] == MixTo(ops, probs, values, head, e, n)
    {
      var acc := ops.zero;
      for j := 0 to n
        invariant acc == MixTo(ops, probs, values, head, d, j)
      {
        acc := ops.add(acc, ops.mul(probs[j], values[j * KV_SPAN + head / GROUP * HEAD_DIM + d]));
      }
      r := r + [acc];
    }
  }

  method RowContext<F(!new)>(ops: Ops<F>, q: seq<F>, keys: seq<F>, values: seq<F>, n: nat) returns (r: seq<F>)
    requires Lawful(ops) && |q| == HIDDEN && n * KV_SPAN <= |keys| && n * KV_SPAN <= |values|
    ensures r == Attend(ops, q, keys, values, n)
  {
    r := [];
    for head := 0 to HEADS
      invariant |r| == head * HEAD_DIM
      invariant forall c :: 0 <= c < |r| ==> r[c] == Attend(ops, q, keys, values, n)[c]
    {
      var part := HeadContext(ops, q, keys, values, head, n);
      r := r + part;
    }
  }

  /** `attention_gqa`: query row i sits at position nKv - nQ + i and sees the rows up to it. */
  method AttentionGqa<F(!new)>(ops: Ops<F>, q: seq<F>, keys: seq<F>, values: seq<F>, nQ: nat, nKv: nat)
    returns (r: RowResult<F>)
    requires Lawful(ops)
    ensures r.Ok? <==> nQ <= nKv && |q| == nQ * HIDDEN && |keys| == nKv * KV_SPAN && |values| == nKv * KV_SPAN
    ensures r.Ok? ==> |r.value| == nQ * HIDDEN && forall i :: 0 <= i < nQ ==>
                        Slice(r.value, nQ, i, HIDDEN) ==
                            Attend(ops, Slice(q, nQ, i, HIDDEN), keys, values, nKv - nQ + i + 1)
  {
    if nQ > nKv || |q| != nQ * HIDDEN || |keys| != nKv * KV_SPAN || |values| != nKv * KV_SPAN {
      return Err(Op("attention_gqa"));
    }
    hide Attend;
    var ctx: seq<F> := [];
    for i := 0 to nQ
      invariant |ctx| == i * HIDDEN
      invariant forall s :: 0 <= s < i ==>
        Slice(ctx, i, s, HIDDEN) == Attend(ops, Slice(q, nQ, s, HIDDEN), keys, values, nKv - nQ + s + 1)
    {
      var row := RowContext(ops, Slice(q, nQ, i, HIDDEN), keys, values, nKv - nQ + i + 1);
      SliceAppend(ctx, i, row, HIDDEN);
      ctx := ctx + row;
    }
    r := Ok(ctx);
  }

  // ----- the batch layer

  lemma {:induction false} KeysFromRows<F(!new)>(ops: Ops<F>, w: LayerWeights<F>, hs: seq<seq<F>>, keys: seq<F>,
      n: nat, m: nat)
    requires Lawful(ops) && |hs| == n && |keys| == n * KV_SPAN && m <= n
    requires forall t :: 0 <= t < n ==> Slice(keys, n, t, KV_SPAN) == Key(ops, w, hs[t], t)
    ensures m * KV_SPAN <= |keys| && keys[..m * KV_SPAN] == Keys(ops, w, hs, m)
    decreases m
  {
    hide Key;
    if m > 0 {
      KeysFromRows(ops, w, hs, keys, n, m - 1);
      assert keys[..m * KV_SPAN] == keys[..(m - 1) * KV_SPAN] + Slice(keys, n, m - 1, KV_SPAN);
    }
  }

  lemma {:induction false} ValuesFromRows<F(!new)>(ops: Ops<F>, w: LayerWeights<F>, hs: seq<seq<F>>, values: seq<F>,
      n: nat, m: nat)
    requires Lawful(ops) && |hs| == n && |values| == n * KV_SPAN && m <= n
    requires forall t :: 0 <= t < n ==> Slice(values, n, t, KV_SPAN) == Value(ops, w, hs[t])
    ensures m * KV_SPAN <= |values| && values[..m * KV_SPAN] == Values(ops, w, hs, m)
    decreases m
  {
    hide Value;
    if m > 0 {
      ValuesFromRows(ops, w, hs, values, n, m - 1);
      assert values[..m * KV_SPAN] == values[..(m - 1) * KV_SPAN] + Slice(values, n, m - 1, KV_SPAN);
    }
  }

  lemma RoundedSlice<F>(ops: Ops<F>, flat: seq<F>, n: nat, t: nat, width: nat)
    requires t < n && |flat| == n * width
    ensures Slice(Rounded(ops, flat), n, t, width) == Rounded(ops, Slice(flat, n, t, width))
  {
    RowBounds(t, n, width);
  }

  lemma ZipSlice<F>(f: (F, F) -> F, a: seq<F>, b: seq<F>, n: nat, t: nat, width: nat)
    requires t < n && |a| == |b| == n * width
    ensures Slice(Zip(f, a, b), n, t, width) == Zip(f, Slice(a, n, t, width), Slice(b, n, t, width))
  {
    RowBounds(t, n, width);
  }

  /** Query, key and value buffers of the batch layer: norm, projections, rotation, rounding. */
  method ProjectRows<F(!new)>(ops: Ops<F>, w: LayerWeights<F>, h: seq<F>, n: nat)
    returns (q: seq<F>, k: seq<F>, v: seq<F>)
    requires Lawful(ops) && Sized(w) && |h| == n * HIDDEN
    ensures |q| == n * HIDDEN && |k| == n * KV_SPAN && |v| == n * KV_SPAN
    ensures forall t :: 0 <= t < n ==>
      var row := Slice(h, n, t, HIDDEN);
      && Slice(q, n, t, HIDDEN) == Query(ops, w, row, t)
      && Slice(k, n, t, KV_SPAN) == Key(ops, w, row, t)
      && Slice(v, n, t, KV_SPAN) == Value(ops, w, row)
  {
    hide Rotated;
    var a := EachRow(h, n, HIDDEN, HIDDEN, x => RmsNorm(ops, x, w.attnNorm));
    var q0 := EachRow(a.value, n, HIDDEN, HIDDEN, x => DenseRow(ops, w.attnQ, x, HIDDEN, HIDDEN));
    var k0 := EachRow(a.value, n, HIDDEN, KV_SPAN, x => DenseRow(ops, w.attnK, x, HIDDEN, KV_SPAN));
    var v0 := EachRow(a.value, n, HIDDEN, KV_SPAN, x => DenseRow(ops, w.attnV, x, HIDDEN, KV_SPAN));
    q := RotateRows(ops, q0.value, n, HEADS);
    var k1 := RotateRows(ops, k0.value, n, KV_HEADS);
    k := Rounded(ops, k1);
    v := Rounded(ops, v0.value);
    forall t | 0 <= t < n
      ensures var row := Slice(h, n, t, HIDDEN);
        Slice(q, n, t, HIDDEN) == Query(ops, w, row, t) && Slice(k, n, t, KV_SPAN) == Key(ops, w, row, t) &&
        Slice(v, n, t, KV_SPAN) == Value(ops, w, row)
    {
      RoundedSlice(ops, k1, n, t, KV_SPAN);
      RoundedSlice(ops, v0.value, n, t, KV_SPAN);
    }
  }

  function GatedRow<F>(ops: Ops<F>, w: LayerWeights<F>, f: seq<F>): RowResult<F> {
    var gate :- DenseRow(ops, w.ffnGate, f, HIDDEN, FFN);
    var up :- DenseRow(ops, w.ffnUp, f, HIDDEN, FFN);
    Swiglu(ops, gate, up)
  }

  /** The second half of the batch layer, from the context rows to the new hidden state. */
  method CloseRows<F(!new)>(ops: Ops<F>, w: LayerWeights<F>, h: seq<F>, ctx: seq<F>, n: nat) returns (out: seq<F>)
    requires Lawful(ops) && Sized(w) && |h| == |ctx| == n * HIDDEN
    ensures |out| == n * HIDDEN
    ensures forall t :: 0 <= t < n ==>
            Slice(out, n, t, HIDDEN) == Close(ops, w, Slice(h, n, t, HIDDEN), Slice(ctx, n, t, HIDDEN))
  {
    var o := EachRow(ctx, n, HIDDEN, HIDDEN, x => DenseRow(ops, w.attnOutput, x, HIDDEN, HIDDEN));
    var h2 := ResidualAdd(ops, h, o.value);
    var f := EachRow(h2.value, n, HIDDEN, HIDDEN, x => RmsNorm(ops, x, w.ffnNorm));
    var hh := EachRow(f.value, n, HIDDEN, FFN, x => GatedRow(ops, w, x));
    var down := EachRow(hh.value, n, FFN, HIDDEN, x => DenseRow(ops, w.ffnDown, x, FFN, HIDDEN));
    out := ResidualAdd(ops, h2.value, down.value).value;
    forall t | 0 <= t < n
      ensures Slice(out, n, t, HIDDEN) == Close(ops, w, Slice(h, n, t, HIDDEN), Slice(ctx, n, t, HIDDEN))
    {
      ZipSlice(ops.add, h, o.value, n, t, HIDDEN);
      ZipSlice(ops.add, h2.value, down.value, n, t, HIDDEN);
    }
  }

  /** `forward_layer`: one decoder layer over all rows at once. */
  method ForwardLayer<F(!new)>(ops: Ops<F>, w: LayerWeights<F>, h: seq<F>, n: nat) returns (out: seq<F>)
    requires Lawful(ops) && Sized(w) && |h| == n * HIDDEN
    ensures |out| == n * HIDDEN && RowsOf(out, n) == LayerRows(ops, w, RowsOf(h, n))
  {
    hide Query, Key, Value, Close, Attend;
    var q, k, v := ProjectRows(ops, w, h, n);
    var ctx := AttentionGqa(ops, q, k, v, n, n);
    out := CloseRows(ops, w, h, ctx.value, n);
    var hs := RowsOf(h, n);
    forall t | 0 <= t < n ensures RowsOf(out, n)[t] == LayerRow(ops, w, hs, t) {
      KeysFromRows(ops, w, hs, k, n, t + 1);
      ValuesFromRows(ops, w, hs, v, n, t + 1);
      AttendPrefix(ops, Query(ops, w, hs[t], t), k, Keys(ops, w, hs, t + 1), v, Values(ops, w, hs, t + 1), t + 1);
    }
  }
}

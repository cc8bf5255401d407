/** The two entry points of the decoder oracle, and their agreement: recomputing a whole token
    sequence, and pushing its tokens one by one. */
module DecoderOracle {
  import opened Wrappers
  import opened Decoder
  import opened DecoderRun

  /** The error names the first token outside the vocabulary. */
  ghost predicate FirstFault<F>(tokens: seq<int>, r: RowResult<F>) {
    exists i :: 0 <= i < |tokens| && !InVocab(tokens[i]) && AllInVocab(tokens[..i]) &&
        r == Err(TokenOutOfRange(tokens[i]))
  }

  lemma PrefixInVocab(tokens: seq<int>, n: nat)
    requires n <= |tokens| && AllInVocab(tokens[..n])
    ensures forall i :: 0 <= i < n ==> InVocab(tokens[i])
  {
    forall i | 0 <= i < n ensures InVocab(tokens[i]) {
      assert tokens[..n][i] == tokens[i];
    }
  }

  lemma FirstFaultUnique<F>(tokens: seq<int>, a: RowResult<F>, b: RowResult<F>)
    requires FirstFault(tokens, a) && FirstFault(tokens, b)
    ensures a == b
  {
    var i :| 0 <= i < |tokens| && !InVocab(tokens[i]) && AllInVocab(tokens[..i]) &&
        a == Err(TokenOutOfRange(tokens[i]));
    var j :| 0 <= j < |tokens| && !InVocab(tokens[j]) && AllInVocab(tokens[..j]) &&
        b == Err(TokenOutOfRange(tokens[j]));
    PrefixInVocab(tokens, i);
    PrefixInVocab(tokens, j);
  }

  /** The check of `forward_one`: where the first token outside the vocabulary stands. */
  method FirstOutside(tokens: seq<int>) returns (at: Option<nat>)
    ensures at.None? <==> AllInVocab(tokens)
    ensures at.Some? ==> at.value < |tokens| && !InVocab(tokens[at.value]) && AllInVocab(tokens[..at.value])
  {
    for i := 0 to |tokens|
      invariant AllInVocab(tokens[..i])
    {
      if !InVocab(tokens[i]) {
        return Some(i);
      }
      assert tokens[..i + 1] == tokens[..i] + [tokens[i]];
    }
    assert tokens[..|tokens|] == tokens;
    at := None;
  }

  /** `forward_one`: the logits after `tokens`, recomputed from nothing. */
  method ForwardOne<F(!new)>(o: Oracle<F>, tokens: seq<int>) returns (r: RowResult<F>)
    requires Built(o)
    ensures |tokens| == 0 ==> r == Err(EmptyTokens)
    ensures |tokens| > 0 && !AllInVocab(tokens) ==> FirstFault(tokens, r)
    ensures |tokens| > 0 && AllInVocab(tokens) ==> r == Ok(Logits(o, tokens))
  {
    if |tokens| == 0 {
      return Err(EmptyTokens);
    }
    var outside := FirstOutside(tokens);
    if outside.Some? {
      return Err(TokenOutOfRange(tokens[outside.value]));
    }
    hide FirstFault, Embedded, Stack, RowsOf, AllInVocab;
    var n := |tokens|;
    var h := EmbedRows(o.embedding, tokens);
    h := ForwardLayers(o, h, n);
    var last := LastRow(h, n);
    var normed := RmsNorm(o.ops, last, o.outputNorm).value;
    r := DenseRow(o.ops, o.embedding, normed, HIDDEN, VOCAB);
  }

  method LastRow<F>(h: seq<F>, n: nat) returns (last: seq<F>)
    requires n > 0 && |h| == n * HIDDEN
    ensures |RowsOf(h, n)| == n && last == RowsOf(h, n)[n - 1] && |last| == HIDDEN
  {
    last := Slice(h, n, n - 1, HIDDEN);
  }

  method ForwardLayers<F(!new)>(o: Oracle<F>, h: seq<F>, n: nat) returns (out: seq<F>)
    requires Built(o) && |h| == n * HIDDEN
    ensures |out| == n * HIDDEN && RowsOf(out, n) == Stack(o.ops, o.layers, RowsOf(h, n), |o.layers|)
  {
    hide LayerRows, Lawful;
    out := h;
    for l := 0 to |o.layers|
      invariant |out| == n * HIDDEN
      invariant RowsOf(out, n) == Stack(o.ops, o.layers, RowsOf(h, n), l)
    {
      out := ForwardLayer(o.ops, o.layers[l], out, n);
    }
  }

  method EmbedRows<F>(embedding: seq<F>, tokens: seq<int>) returns (h: seq<F>)
    requires |embedding| == HIDDEN * VOCAB && AllInVocab(tokens)
    ensures |h| == |tokens| * HIDDEN && RowsOf(h, |tokens|) == Embedded(embedding, tokens)
  {
    h := [];
    for i := 0 to |tokens|
      invariant |h| == i * HIDDEN
      invariant forall t :: 0 <= t < i ==> Slice(h, i, t, HIDDEN) == EmbedRow(embedding, tokens[t])
    {
      var row := EmbedRow(embedding, tokens[i]);
      SliceAppend(h, i, row, HIDDEN);
      h := h + row;
    }
  }

  /** The rows entering layer l, as recomputing the whole sequence defines them. */
  ghost function Entering<F(!new)>(o: Oracle<F>, tokens: seq<int>, l: nat): (r: seq<seq<F>>)
    requires Built(o) && AllInVocab(tokens) && l <= |o.layers|
    ensures |r| == |tokens| && Rows(r)
  {
    Stack(o.ops, o.layers, Embedded(o.embedding, tokens), l)
  }

  /** k and v are the key and value rows the batch pass computes in layer l. */
  ghost predicate Holds<F(!new)>(o: Oracle<F>, tokens: seq<int>, l: nat, k: seq<F>, v: seq<F>)
    requires Built(o) && AllInVocab(tokens) && l < |o.layers|
  {
    && k == Keys(o.ops, o.layers[l], Entering(o, tokens, l), |tokens|)
    && v == Values(o.ops, o.layers[l], Entering(o, tokens, l), |tokens|)
  }

  /** The cache grew at its end only. */
  ghost predicate Extends<F>(before: seq<F>, after: seq<F>) {
    before <= after
  }

  lemma AppendInVocab(tokens: seq<int>, token: int)
    requires AllInVocab(tokens) && InVocab(token)
    ensures AllInVocab(tokens + [token])
  {
  }

  /** Caches for a sequence become caches for one more token by appending that token's rows. */
  lemma HoldsExtends<F(!new)>(o: Oracle<F>, tokens: seq<int>, token: int, l: nat, k: seq<F>, v: seq<F>)
    requires Built(o) && AllInVocab(tokens) && InVocab(token) && l < |o.layers| && Holds(o, tokens, l, k, v)
    ensures AllInVocab(tokens + [token])
    ensures var h := Entering(o, tokens + [token], l)[|tokens|];
      Holds(o, tokens + [token], l, k + Key(o.ops, o.layers[l], h, |tokens|), v + Value(o.ops, o.layers[l], h))
  {
    hide Key, Value, Stack, LayerRows;
    AppendInVocab(tokens, token);
    var ops, w, n := o.ops, o.layers[l], |tokens|;
    var next, before := Entering(o, tokens + [token], l), Entering(o, tokens, l);
    var rows := Embedded(o.embedding, tokens + [token]);
    assert rows[..n] == Embedded(o.embedding, tokens);
    StackIsCausal(ops, o.layers, rows, n, l);
    CachePrefix(ops, w, next, before, n);
  }

  /** An incremental run over an oracle, with one key and one value cache per layer. */
  class ForwardRun<F(!new)> {
    const oracle: Oracle<F>
    var n: nat
    var hLast: seq<F>
    var kCache: seq<seq<F>>
    var vCache: seq<seq<F>>
    ghost var tokens: seq<int>

    /** Every cache holds the key and value rows the batch pass computes for its layer. */
    ghost predicate Valid()
      reads this
    {
      && Built(oracle)
      && AllInVocab(tokens) && n == |tokens|
      && |kCache| == |vCache| == |oracle.layers|
      && (forall l :: 0 <= l < |oracle.layers| ==> Holds(oracle, tokens, l, kCache[l], vCache[l]))
      && (n > 0 ==> hLast == Entering(oracle, tokens, |oracle.layers|)[n - 1])
    }

    /** The run before any token. */
    constructor (o: Oracle<F>)
      requires Built(o)
      ensures Valid() && tokens == [] && oracle == o
    {
      oracle := o;
      n := 0;
      hLast := seq(HIDDEN, _ => o.ops.zero);
      kCache := seq(|o.layers|, _ => []);
      vCache := seq(|o.layers|, _ => []);
      tokens := [];
    }

    /** One layer of `push_token`, for the row h entering layer l at position n. */
    method PushLayer(l: nat, h: seq<F>, ghost token: int) returns (out: seq<F>)
      requires Built(oracle) && l < |oracle.layers| && |kCache| == |vCache| == |oracle.layers|
      requires AllInVocab(tokens) && InVocab(token) && n == |tokens| && AllInVocab(tokens + [token])
      requires Holds(oracle, tokens, l, kCache[l], vCache[l])
      requires h == Entering(oracle, tokens + [token], l)[n]
      modifies this`kCache, this`vCache
      ensures |kCache| == |vCache| == |oracle.layers|
      ensures forall i :: 0 <= i < |kCache| && i != l ==> kCache[i] == old(kCache[i]) && vCache[i] == old(vCache[i])
      ensures Extends(old(kCache[l]), kCache[l]) && Extends(old(vCache[l]), vCache[l])
      ensures Holds(oracle, tokens + [token], l, kCache[l], vCache[l])
      ensures out == Entering(oracle, tokens + [token], l + 1)[n]
    {
      hide Attend, Rotated, Keys, Values, Embedded;
      var ops, w := oracle.ops, oracle.layers[l];
      ghost var next := Entering(oracle, tokens + [token], l);
      HoldsExtends(oracle, tokens, token, l, kCache[l], vCache[l]);

      var a := RmsNorm(ops, h, w.attnNorm).value;
      var q := DenseRow(ops, w.attnQ, a, HIDDEN, HIDDEN).value;
      var k := DenseRow(ops, w.attnK, a, HIDDEN, KV_SPAN).value;
      var v := DenseRow(ops, w.attnV, a, HIDDEN, KV_SPAN).value;
      var qRot := RopeAllHeads(ops, q, HEADS, n);
      var kRot := RopeAllHeads(ops, k, KV_HEADS, n);
      kCache := kCache[l := kCache[l] + Rounded(ops, kRot)];
      vCache := vCache[l := vCache[l] + Rounded(ops, v)];
      assert Holds(oracle, tokens + [token], l, kCache[l], vCache[l]);

      var ctx := AttentionGqa(ops, qRot, kCache[l], vCache[l], 1, n + 1);
      assert Slice(qRot, 1, 0, HIDDEN) == qRot && Slice(ctx.value, 1, 0, HIDDEN) == ctx.value;
      assert qRot == Query(ops, w, h, n);
      out := PushClose(w, h, ctx.value);
      assert out == LayerRow(ops, w, next, n);
    }

    /** What follows attention, for one row. */
    method PushClose(w: LayerWeights<F>, h: seq<F>, ctx: seq<F>) returns (out: seq<F>)
      requires Lawful(oracle.ops) && Sized(w) && RowOf(h) && RowOf(ctx)
      ensures out == Close(oracle.ops, w, h, ctx)
    {
      var ops := oracle.ops;
      var o := DenseRow(ops, w.attnOutput, ctx, HIDDEN, HIDDEN).value;
      var h2 := ResidualAdd(ops, h, o).value;
      var f := RmsNorm(ops, h2, w.ffnNorm).value;
      var gate := DenseRow(ops, w.ffnGate, f, HIDDEN, FFN).value;
      var up := DenseRow(ops, w.ffnUp, f, HIDDEN, FFN).value;
      var hh := Swiglu(ops, gate, up).value;
      var down := DenseRow(ops, w.ffnDown, hh, FFN, HIDDEN).value;
      out := ResidualAdd(ops, h2, down).value;
    }

    /** The layer loop of `push_token`. */
    method PushThrough(embedded: seq<F>, ghost token: int) returns (h: seq<F>)
      requires Valid() && InVocab(token) && AllInVocab(tokens + [token])
      requires embedded == Entering(oracle, tokens + [token], 0)[n]
      modifies this`kCache, this`vCache
      ensures |kCache| == |vCache| == |oracle.layers|
      ensures h == Entering(oracle, tokens + [token], |oracle.layers|)[n]
      ensures forall i :: 0 <= i < |kCache| ==> Holds(oracle, tokens + [token], i, kCache[i], vCache[i])
      ensures forall i :: 0 <= i < |kCache| ==> Extends(old(kCache[i]), kCache[i]) && Extends(old(vCache[i]), vCache[i])
    {
      hide Holds, Entering, Built, Extends;
      h := embedded;
      for l := 0 to |oracle.layers|
        invariant |kCache| == |vCache| == |oracle.layers| && tokens == old(tokens) && n == |tokens|
        invariant h == Entering(oracle, tokens + [token], l)[n]
        invariant forall i :: 0 <= i < l ==> Holds(oracle, tokens + [token], i, kCache[i], vCache[i])
        invariant forall i :: 0 <= i < l ==> Extends(old(kCache[i]), kCache[i]) && Extends(old(vCache[i]), vCache[i])
        invariant forall i :: l <= i < |kCache| ==> kCache[i] == old(kCache[i]) && vCache[i] == old(vCache[i])
      {
        h := PushLayer(l, h, token);
      }
    }

    /** `push_token`: a token outside the vocabulary is refused and changes nothing; any other grows
        every cache, whose earlier rows stay as they were. */
    method PushToken(token: int) returns (r: Result<(), OracleError>)
      requires Valid()
      modifies this
      ensures Valid()
      ensures !InVocab(token) ==>
          r == Err(TokenOutOfRange(token)) && tokens == old(tokens) && kCache == old(kCache) && vCache == old(vCache)
      ensures InVocab(token) ==> r.Ok? && tokens == old(tokens) + [token]
      ensures forall l :: 0 <= l < |kCache| ==> Extends(old(kCache[l]), kCache[l]) && Extends(old(vCache[l]), vCache[l])
    {
      hide Holds, Entering, Extends, AllInVocab, EmbedRow;
      ExtendSelves(kCache, vCache);
      if !InVocab(token) {
        return Err(TokenOutOfRange(token));
      }
      var embedded := EmbedRow(oracle.embedding, token);
      hide Built;
      AppendInVocab(tokens, token);
      FirstEntering(oracle, tokens, token);
      var h := PushThrough(embedded, token);
      n := n + 1;
      hLast := h;
      tokens := tokens + [token];
      r := Ok(());
    }

    /** `position_logits`. */
    method PositionLogits() returns (r: RowResult<F>)
      requires Valid()
      ensures n == 0 ==> r == Err(EmptyTokens)
      ensures n > 0 ==> r == Ok(Logits(oracle, tokens))
    {
      if n == 0 {
        return Err(EmptyTokens);
      }
      hide Stack, Embedded;
      var normed := RmsNorm(oracle.ops, hLast, oracle.outputNorm).value;
      r := DenseRow(oracle.ops, oracle.embedding, normed, HIDDEN, VOCAB);
    }
  }

  lemma ExtendSelves<F>(ks: seq<seq<F>>, vs: seq<seq<F>>)
    requires |ks| == |vs|
    ensures forall l :: 0 <= l < |ks| ==> Extends(ks[l], ks[l]) && Extends(vs[l], vs[l])
  {
  }

  lemma FirstEntering<F(!new)>(o: Oracle<F>, tokens: seq<int>, token: int)
    requires Built(o) && AllInVocab(tokens) && InVocab(token)
    ensures AllInVocab(tokens + [token])
    ensures Entering(o, tokens + [token], 0)[|tokens|] == EmbedRow(o.embedding, token)
  {
  }

  /** Pushing the tokens one by one and reading the logits is recomputing the sequence: both succeed
      together and return the same row or the same error, for any number of layers and any scalar
      arithmetic. */
  method IncrementalEqualsBatch<F(!new)>(o: Oracle<F>, tokens: seq<int>)
    returns (incremental: RowResult<F>, batch: RowResult<F>)
    requires Built(o)
    ensures incremental.Ok? <==> |tokens| > 0 && AllInVocab(tokens)
    ensures incremental == batch
  {
    hide Logits, Built;
    batch := ForwardOne(o, tokens);
    if |tokens| == 0 {
      incremental := Err(EmptyTokens);
      return;
    }
    var run := new ForwardRun(o);
    incremental := PushAll(run, tokens);
    if incremental.Ok? {
      incremental := run.PositionLogits();
    } else {
      FirstFaultUnique(tokens, incremental, batch);
    }
  }

  /** Push a sequence onto an empty run, stopping at the first refused token. */
  method PushAll<F(!new)>(run: ForwardRun<F>, tokens: seq<int>) returns (r: RowResult<F>)
    requires run.Valid() && run.tokens == []
    modifies run
    ensures run.Valid()
    ensures AllInVocab(tokens) ==> r.Ok? && run.tokens == tokens
    ensures !AllInVocab(tokens) ==> FirstFault(tokens, r)
  {
    hide Holds, Entering, Built, InVocab;
    for i := 0 to |tokens|
      invariant run.Valid() && run.tokens == tokens[..i]
    {
      var pushed := run.PushToken(tokens[i]);
      if pushed.Err? {
        return Err(pushed.error);
      }
      assert tokens[..i + 1] == tokens[..i] + [tokens[i]];
    }
    assert tokens[..|tokens|] == tokens;
    r := Ok([]);
  }
}

/** What attention and the rest of a layer compute: which entries of the caches meet which entries of the
    query, as sums over the reals and, for any element type, as the entry that a single weight selects. */
module DecoderMeaning {
  import opened Wrappers
  import opened Sums
  import opened Decoder

  /** The first column of the keys and values that query column `c` meets: three query heads of 64 columns
      share one head of the caches. */
  function Shared(c: nat): nat {
    c / 64 / 3 * 64
  }

  // ----- over the reals

  ghost predicate OverReals(ops: Ops<real>) {
    && ops.zero == 0.0
    && (forall x, y :: ops.add(x, y) == x + y)
    && (forall x, y :: ops.mul(x, y) == Times(x, y))
  }

  /** Inner product of the 64 columns of query head `head` with the shared columns of key row j. */
  ghost function Inner(q: seq<real>, keys: seq<real>, head: nat, j: nat): real {
    Sum(64, i => Times(At(q, head * 64 + i), At(keys, j * 320 + head / 3 * 64 + i)))
  }

  lemma {:induction false} DotIsSum(ops: Ops<real>, q: seq<real>, keys: seq<real>, head: nat, j: nat, k: nat)
    requires OverReals(ops) && |q| == HIDDEN && head < HEADS && (j + 1) * KV_SPAN <= |keys| && k <= HEAD_DIM
    ensures DotTo(ops, q, keys, head, j, k)
         == Sum(k, i => Times(At(q, head * 64 + i), At(keys, j * 320 + head / 3 * 64 + i)))
    decreases k
  {
    hide Times;
    var f := i => Times(At(q, head * 64 + i), At(keys, j * 320 + head / 3 * 64 + i));
    if k > 0 {
      DotIsSum(ops, q, keys, head, j, k - 1);
      assert f(k - 1) == Times(q[head * 64 + k - 1], keys[j * 320 + head / 3 * 64 + k - 1]);
    }
  }

  /** The scaled inner products of a query head with the first n key rows. */
  ghost function Scores(ops: Ops<real>, q: seq<real>, keys: seq<real>, head: nat, n: nat): (r: seq<real>)
    ensures |r| == n && forall j :: 0 <= j < n ==> r[j] == Times(Inner(q, keys, head, j), ops.scale)
  {
    seq(n, j requires 0 <= j < n => Times(Inner(q, keys, head, j), ops.scale))
  }

  /** One column of the first m value rows, weighted and added up. */
  ghost function Weighted(weights: seq<real>, values: seq<real>, column: nat, m: nat): real {
    Sum(m, j => Times(At(weights, j), At(values, j * 320 + column)))
  }

  lemma {:induction false} MixIsSum(ops: Ops<real>, probs: seq<real>, values: seq<real>, head: nat, d: nat, m: nat)
    requires OverReals(ops) && m <= |probs| && m * KV_SPAN <= |values| && head < HEADS && d < HEAD_DIM
    ensures MixTo(ops, probs, values, head, d, m) == Weighted(probs, values, head / 3 * 64 + d, m)
    decreases m
  {
    hide Times;
    var column := head / 3 * 64 + d;
    var f := j => Times(At(probs, j), At(values, j * 320 + column));
    if m > 0 {
      MixIsSum(ops, probs, values, head, d, m - 1);
      assert f(m - 1) == Times(probs[m - 1], values[(m - 1) * 320 + column]);
    }
  }

  lemma ScoresAre<F(!new)>(ops: Ops<F>, q: seq<F>, keys: seq<F>, head: nat, n: nat, scores: seq<F>)
    requires Lawful(ops) && |q| == HIDDEN && head < HEADS && n * KV_SPAN <= |keys| && |scores| == n
    requires forall j :: 0 <= j < n ==> scores[j] == Score(ops, q, keys, head, j)
    ensures Probabilities(ops, q, keys, head, n) == ops.softmax(scores)
  {
    assert seq(n, j requires 0 <= j < n => Score(ops, q, keys, head, j)) == scores;
  }

  /** Over the reals, column c of the context is the sum over the rows seen of weight times value, the
      weights being the softmax of the scaled inner products. */
  lemma AttendIsWeightedSum(ops: Ops<real>, q: seq<real>, keys: seq<real>, values: seq<real>, n: nat, c: nat)
    requires Lawful(ops) && OverReals(ops) && |q| == HIDDEN && c < HIDDEN
    requires n * KV_SPAN <= |keys| && n * KV_SPAN <= |values|
    ensures Attend(ops, q, keys, values, n)[c] ==
              Weighted(ops.softmax(Scores(ops, q, keys, c / 64, n)), values, Shared(c) + c % 64, n)
  {
    hide Times, Sum, Weighted;
    var head := c / 64;
    var scores := Scores(ops, q, keys, head, n);
    forall j | 0 <= j < n ensures Score(ops, q, keys, head, j) == scores[j] {
      DotIsSum(ops, q, keys, head, j, 64);
    }
    ScoresAre(ops, q, keys, head, n, scores);
    MixIsSum(ops, ops.softmax(scores), values, head, c % 64, n);
  }

  // ----- over any elements with a zero and a one

  ghost predicate Units<F(!new)>(ops: Ops<F>, one: F) {
    && (forall x :: ops.add(ops.zero, x) == x && ops.add(x, ops.zero) == x)
    && (forall x :: ops.mul(one, x) == x && ops.mul(ops.zero, x) == ops.zero)
  }

  /** One at `at` and zero elsewhere. */
  function OneHot<F>(ops: Ops<F>, one: F, n: nat, at: nat): (r: seq<F>)
    ensures |r| == n
  {
    seq(n, i => if i == at then one else ops.zero)
  }

  lemma {:induction false} MixSelects<F(!new)>(ops: Ops<F>, one: F, values: seq<F>, head: nat, d: nat, n: nat, j: nat,
      m: nat)
    requires Units(ops, one) && m <= n && n * KV_SPAN <= |values| && head < HEADS && d < HEAD_DIM && j < n
    ensures MixTo(ops, OneHot(ops, one, n, j), values, head, d, m)
         == if j < m then values[j * 320 + head / 3 * 64 + d] else ops.zero
    decreases m
  {
    if m > 0 {
      MixSelects(ops, one, values, head, d, n, j, m - 1);
    }
  }

  /** If the weights are one at row j and zero elsewhere, every column of the context is its column of the
      shared head in value row j. */
  lemma AttendSelects<F(!new)>(ops: Ops<F>, one: F, q: seq<F>, keys: seq<F>, values: seq<F>, n: nat, j: nat, c: nat)
    requires Lawful(ops) && Units(ops, one) && |q| == HIDDEN && j < n && c < HIDDEN
    requires n * KV_SPAN <= |keys| && n * KV_SPAN <= |values|
    requires forall s :: |s| == n ==> ops.softmax(s) == OneHot(ops, one, n, j)
    ensures Attend(ops, q, keys, values, n)[c] == values[j * 320 + c / 64 / 3 * 64 + c % 64]
  {
    MixSelects(ops, one, values, c / 64, c % 64, n, j, n);
  }

  lemma HeadColumn(head: nat, d: nat)
    requires d < 64
    ensures (head * 64 + d) / 64 == head && (head * 64 + d) % 64 == d
  {
  }

  lemma {:induction false} DotSelects<F(!new)>(ops: Ops<F>, one: F, keys: seq<F>, head: nat, j: nat, col: nat, k: nat)
    requires Units(ops, one) && head < HEADS && (j + 1) * KV_SPAN <= |keys| && k <= HEAD_DIM && col < HIDDEN
    ensures DotTo(ops, OneHot(ops, one, HIDDEN, col), keys, head, j, k)
         == if head * 64 <= col < head * 64 + k then keys[j * 320 + head / 3 * 64 + col % 64] else ops.zero
    decreases k
  {
    if k > 0 {
      DotSelects(ops, one, keys, head, j, col, k - 1);
      HeadColumn(head, k - 1);
      OneTerm(ops, one, keys, head, j, col, k);
    }
  }

  lemma OneTerm<F(!new)>(ops: Ops<F>, one: F, keys: seq<F>, head: nat, j: nat, col: nat, k: nat)
    requires Units(ops, one) && head < HEADS && (j + 1) * KV_SPAN <= |keys| && 0 < k <= HEAD_DIM && col < HIDDEN
    ensures var q := OneHot(ops, one, HIDDEN, col);
            DotTo(ops, q, keys, head, j, k) ==
              if col == head * 64 + (k - 1) then ops.add(DotTo(ops, q, keys, head, j, k - 1),
                                                         keys[j * 320 + head / 3 * 64 + (k - 1)])
              else DotTo(ops, q, keys, head, j, k - 1)
  {
    var at := head * 64 + (k - 1);
    assert OneHot(ops, one, HIDDEN, col)[at] == if col == at then one else ops.zero;
  }

  /** A query row that is one in a single column scores the matching key entry times the scale in the head of
      that column, and zero times the scale in every other head. */
  lemma ScoreSelects<F(!new)>(ops: Ops<F>, one: F, keys: seq<F>, head: nat, j: nat, col: nat)
    requires Units(ops, one) && head < HEADS && (j + 1) * KV_SPAN <= |keys| && col < HIDDEN
    ensures Score(ops, OneHot(ops, one, HIDDEN, col), keys, head, j)
         == ops.mul(if head == col / 64 then keys[j * 320 + col / 64 / 3 * 64 + col % 64] else ops.zero, ops.scale)
  {
    DotSelects(ops, one, keys, head, j, col, 64);
  }

  // ----- grouping

  lemma {:induction false} DotShares<F>(ops: Ops<F>, q: seq<F>, keys: seq<F>, a: nat, b: nat, j: nat, k: nat)
    requires |q| == HIDDEN && a < HEADS && b < HEADS && (j + 1) * KV_SPAN <= |keys| && k <= HEAD_DIM
    requires a / 3 == b / 3 && q[a * 64..(a + 1) * 64] == q[b * 64..(b + 1) * 64]
    ensures DotTo(ops, q, keys, a, j, k) == DotTo(ops, q, keys, b, j, k)
    decreases k
  {
    if k > 0 {
      DotShares(ops, q, keys, a, b, j, k - 1);
      assert q[a * 64..(a + 1) * 64][k - 1] == q[b * 64..(b + 1) * 64][k - 1];
    }
  }

  lemma {:induction false} MixShares<F>(ops: Ops<F>, probs: seq<F>, values: seq<F>, a: nat, b: nat, d: nat, m: nat)
    requires m <= |probs| && m * KV_SPAN <= |values| && a < HEADS && b < HEADS && a / 3 == b / 3 && d < HEAD_DIM
    ensures MixTo(ops, probs, values, a, d, m) == MixTo(ops, probs, values, b, d, m)
    decreases m
  {
    if m > 0 {
      MixShares(ops, probs, values, a, b, d, m - 1);
    }
  }

  lemma HeadsShare<F(!new)>(ops: Ops<F>, q: seq<F>, keys: seq<F>, values: seq<F>, n: nat, x: nat, y: nat, d: nat)
    requires Lawful(ops) && |q| == HIDDEN && n * KV_SPAN <= |keys| && n * KV_SPAN <= |values|
    requires x < HEADS && y < HEADS && x / 3 == y / 3 && d < 64 && q[x * 64..(x + 1) * 64] == q[y * 64..(y + 1) * 64]
    ensures MixTo(ops, Probabilities(ops, q, keys, x, n), values, x, d, n)
         == MixTo(ops, Probabilities(ops, q, keys, y, n), values, y, d, n)
  {
    hide MixTo, DotTo, Probabilities;
    var scores := seq(n, j requires 0 <= j < n => Score(ops, q, keys, y, j));
    forall j | 0 <= j < n ensures Score(ops, q, keys, x, j) == Score(ops, q, keys, y, j) {
      DotShares(ops, q, keys, x, y, j, 64);
    }
    ScoresAre(ops, q, keys, x, n, scores);
    ScoresAre(ops, q, keys, y, n, scores);
    MixShares(ops, Probabilities(ops, q, keys, x, n), values, x, y, d, n);
  }

  lemma AttendAt<F(!new)>(ops: Ops<F>, q: seq<F>, keys: seq<F>, values: seq<F>, n: nat, head: nat, d: nat)
    requires Lawful(ops) && |q| == HIDDEN && n * KV_SPAN <= |keys| && n * KV_SPAN <= |values|
    requires head < HEADS && d < 64
    ensures Attend(ops, q, keys, values, n)[head * 64 + d]
         == MixTo(ops, Probabilities(ops, q, keys, head, n), values, head, d, n)
  {
    hide MixTo, Probabilities;
    HeadColumn(head, d);
  }

  /** The query heads 3g, 3g + 1 and 3g + 2 use one head of the caches: with equal query parts they have equal
      context. */
  lemma TriplesShare<F(!new)>(ops: Ops<F>, q: seq<F>, keys: seq<F>, values: seq<F>, n: nat, g: nat, a: nat, b: nat,
      d: nat)
    requires Lawful(ops) && |q| == HIDDEN && n * KV_SPAN <= |keys| && n * KV_SPAN <= |values|
    requires g < 5 && a < 3 && b < 3 && d < 64
    requires var x, y := 3 * g + a, 3 * g + b; q[x * 64..(x + 1) * 64] == q[y * 64..(y + 1) * 64]
    ensures Attend(ops, q, keys, values, n)[(3 * g + a) * 64 + d] ==
            Attend(ops, q, keys, values, n)[(3 * g + b) * 64 + d]
  {
    hide Attend, Probabilities, MixTo;
    HeadsShare(ops, q, keys, values, n, 3 * g + a, 3 * g + b, d);
    AttendAt(ops, q, keys, values, n, 3 * g + a, d);
    AttendAt(ops, q, keys, values, n, 3 * g + b, d);
  }

  // ----- what the query and the caches hold

  /** Every head is rotated on its own, for the position of its row. */
  lemma {:induction false} RotatedHead<F(!new)>(ops: Ops<F>, x: seq<F>, heads: nat, pos: nat, h: nat)
    requires Lawful(ops) && |x| == heads * 64 && h < heads
    ensures Rotated(ops, x, heads, pos)[h * 64..(h + 1) * 64] ==
            ops.rotate(x[h * 64..(h + 1) * 64], pos % 0x1_0000_0000)
    decreases heads
  {
    var front := x[..(heads - 1) * 64];
    var before := Rotated(ops, front, heads - 1, pos);
    if h < heads - 1 {
      RotatedHead(ops, front, heads - 1, pos, h);
      assert front[h * 64..(h + 1) * 64] == x[h * 64..(h + 1) * 64];
      assert Rotated(ops, x, heads, pos)[h * 64..(h + 1) * 64] == before[h * 64..(h + 1) * 64];
    } else {
      var last := ops.rotate(x[h * 64..], pos % 0x1_0000_0000);
      assert x[h * 64..] == x[h * 64..(h + 1) * 64];
      assert Rotated(ops, x, heads, pos) == before + last;
    }
  }

  lemma QueryHead<F(!new)>(ops: Ops<F>, w: LayerWeights<F>, h: seq<F>, pos: nat, head: nat)
    requires Lawful(ops) && head < 15
    ensures var projected := ops.project(w.attnQ, ops.normalize(h, w.attnNorm), 960);
            Query(ops, w, h, pos)[head * 64..(head + 1) * 64] ==
              ops.rotate(projected[head * 64..(head + 1) * 64], pos % 0x1_0000_0000)
  {
    RotatedHead(ops, ops.project(w.attnQ, ops.normalize(h, w.attnNorm), 960), 15, pos, head);
  }

  /** Row j of the cached keys: the projection of the normalized row j, each head rotated for position j, and
      then rounded. */
  lemma {:induction false} KeysHold<F(!new)>(ops: Ops<F>, w: LayerWeights<F>, hs: seq<seq<F>>, n: nat, j: nat,
      head: nat,
      d: nat)
    requires Lawful(ops) && j < n <= |hs| && head < 5 && d < 64
    ensures var projected := ops.project(w.attnK, ops.normalize(hs[j], w.attnNorm), 320);
            Keys(ops, w, hs, n)[j * 320 + head * 64 + d] ==
              ops.round(ops.rotate(projected[head * 64..(head + 1) * 64], j % 0x1_0000_0000)[d])
    decreases n
  {
    hide Rotated;
    if j < n - 1 {
      KeysHold(ops, w, hs, n - 1, j, head, d);
    } else {
      var projected := ops.project(w.attnK, ops.normalize(hs[j], w.attnNorm), 320);
      RotatedHead(ops, projected, 5, j, head);
      var rotated := Rotated(ops, projected, 5, j);
      assert rotated[head * 64..(head + 1) * 64][d] == rotated[head * 64 + d];
    }
  }

  /** Row j of the cached values: the rounded projection of the normalized row j, not rotated. */
  lemma {:induction false} ValuesHold<F(!new)>(ops: Ops<F>, w: LayerWeights<F>, hs: seq<seq<F>>, n: nat, j: nat, e: nat)
    requires Lawful(ops) && j < n <= |hs| && e < 320
    ensures Values(ops, w, hs, n)[j * 320 + e] ==
              ops.round(ops.project(w.attnV, ops.normalize(hs[j], w.attnNorm), 320)[e])
    decreases n
  {
    if j < n - 1 {
      ValuesHold(ops, w, hs, n - 1, j, e);
    }
  }

  // ----- the rest of a layer

  /** The output projection with these weights gives nothing but zeros. */
  ghost predicate Silent<F(!new)>(ops: Ops<F>, w: seq<F>) {
    forall x, i :: 0 <= i < HIDDEN && |ops.project(w, x, HIDDEN)| == HIDDEN ==> ops.project(w, x, HIDDEN)[i] == ops.zero
  }

  lemma AddsNothing<F(!new)>(ops: Ops<F>, one: F, h: seq<F>, w: seq<F>, x: seq<F>)
    requires Lawful(ops) && Units(ops, one) && RowOf(h) && Silent(ops, w)
    ensures Zip(ops.add, h, ops.project(w, x, HIDDEN)) == h
  {
    var o := ops.project(w, x, HIDDEN);
    forall i | 0 <= i < HIDDEN ensures Zip(ops.add, h, o)[i] == h[i] {
      assert o[i] == ops.zero;
    }
  }

  /** The first residual: when the feed-forward part adds nothing, the row is the input plus the projected
      context. */
  lemma CloseAddsContext<F(!new)>(ops: Ops<F>, one: F, w: LayerWeights<F>, h: seq<F>, ctx: seq<F>, i: nat)
    requires Lawful(ops) && Units(ops, one) && RowOf(h) && i < 960 && Silent(ops, w.ffnDown)
    ensures Close(ops, w, h, ctx)[i] == ops.add(h[i], ops.project(w.attnOutput, ctx, 960)[i])
  {
    var h2 := Zip(ops.add, h, ops.project(w.attnOutput, ctx, HIDDEN));
    var f := ops.normalize(h2, w.ffnNorm);
    AddsNothing(ops, one, h2, w.ffnDown, Zip(ops.gate, ops.project(w.ffnGate, f, FFN), ops.project(w.ffnUp, f, FFN)));
  }

  /** The second: when attention adds nothing, it is the input plus the feed-forward part of the normalized
      input, where the gate projection is the first argument of the gate. */
  lemma CloseAddsFeedForward<F(!new)>(ops: Ops<F>, one: F, w: LayerWeights<F>, h: seq<F>, ctx: seq<F>, hidden: seq<F>,
      i: nat)
    requires Lawful(ops) && Units(ops, one) && RowOf(h) && i < 960 && Silent(ops, w.attnOutput) && |hidden| == 2560
    requires var f := ops.normalize(h, w.ffnNorm);
             forall e :: 0 <= e < 2560 ==>
               hidden[e] == ops.gate(ops.project(w.ffnGate, f, 2560)[e], ops.project(w.ffnUp, f, 2560)[e])
    ensures Close(ops, w, h, ctx)[i] == ops.add(h[i], ops.project(w.ffnDown, hidden, 960)[i])
  {
    AddsNothing(ops, one, h, w.attnOutput, ctx);
    var f := ops.normalize(h, w.ffnNorm);
    assert hidden == Zip(ops.gate, ops.project(w.ffnGate, f, FFN), ops.project(w.ffnUp, f, FFN));
  }

  /** With both silent the row comes out unchanged. */
  lemma CloseKeepsRow<F(!new)>(ops: Ops<F>, one: F, w: LayerWeights<F>, h: seq<F>, ctx: seq<F>)
    requires Lawful(ops) && Units(ops, one) && RowOf(h) && Silent(ops, w.attnOutput) && Silent(ops, w.ffnDown)
    ensures Close(ops, w, h, ctx) == h
  {
    AddsNothing(ops, one, h, w.attnOutput, ctx);
    var f := ops.normalize(h, w.ffnNorm);
    AddsNothing(ops, one, h, w.ffnDown, Zip(ops.gate, ops.project(w.ffnGate, f, FFN), ops.project(w.ffnUp, f, FFN)));
  }

  // ----- the whole stack

  /** The first layer is applied first. */
  lemma {:induction false} StackFromFront<F(!new)>(ops: Ops<F>, layers: seq<LayerWeights<F>>, hs: seq<seq<F>>, l: nat)
    requires Lawful(ops) && Rows(hs) && 0 < l <= |layers|
    ensures Stack(ops, layers, hs, l) == Stack(ops, layers[1..], LayerRows(ops, layers[0], hs), l - 1)
    decreases l
  {
    hide LayerRow, LayerRows;
    if l > 1 {
      StackFromFront(ops, layers, hs, l - 1);
      assert layers[1..][l - 2] == layers[l - 1];
    } else {
      assert Stack(ops, layers, hs, 0) == hs;
    }
  }

  lemma {:induction false} StackKeepsRows<F(!new)>(ops: Ops<F>, one: F, layers: seq<LayerWeights<F>>, hs: seq<seq<F>>,
      l: nat)
    requires Lawful(ops) && Units(ops, one) && Rows(hs) && l <= |layers|
    requires forall i :: 0 <= i < |layers| ==> Silent(ops, layers[i].attnOutput) && Silent(ops, layers[i].ffnDown)
    ensures Stack(ops, layers, hs, l) == hs
    decreases l
  {
    hide Attend, Close, Query, Keys, Values, Silent, Units;
    if l > 0 {
      StackKeepsRows(ops, one, layers, hs, l - 1);
      var w := layers[l - 1];
      forall t | 0 <= t < |hs| ensures LayerRow(ops, w, hs, t) == hs[t] {
        CloseKeepsRow(ops, one, w, hs[t],
          Attend(ops, Query(ops, w, hs[t], t), Keys(ops, w, hs, t + 1), Values(ops, w, hs, t + 1), t + 1));
      }
    }
  }

  /** When no layer adds anything, the logits are the tied projection of the normalized embedding row of the
      last token. */
  lemma LogitsOfLastToken<F(!new)>(o: Oracle<F>, one: F, tokens: seq<int>)
    requires Built(o) && Units(o.ops, one) && AllInVocab(tokens) && |tokens| > 0
    requires forall i :: 0 <= i < |o.layers| ==>
               Silent(o.ops, o.layers[i].attnOutput) && Silent(o.ops, o.layers[i].ffnDown)
    ensures var last := tokens[|tokens| - 1];
            var row := seq(960, c requires 0 <= c < 960 && 0 <= last < 49_152 => o.embedding[last * 960 + c]);
            Logits(o, tokens) == o.ops.project(o.embedding, o.ops.normalize(row, o.outputNorm), 49_152)
  {
    hide Silent, Units, Stack;
    StackKeepsRows(o.ops, one, o.layers, Embedded(o.embedding, tokens), |o.layers|);
    var last := tokens[|tokens| - 1];
    var row := seq(960, c requires 0 <= c < 960 && 0 <= last < 49_152 => o.embedding[last * 960 + c]);
    assert EmbedRow(o.embedding, last) == row;
  }
}

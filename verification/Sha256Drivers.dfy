/** The two drivers of the block function: one fed piece by piece, one given the whole message. */
module Sha256Drivers {
  import opened Bytes
  import opened Sha256

  method Absorb(state: array<Word>, block: Block, ghost done: seq<Byte>)
    requires state.Length == 8 && |done| % 64 == 0 && state[..] == Fold(INITIAL, done)
    modifies state
    ensures state[..] == Fold(INITIAL, done + block)
  {
    hide Fold, Compress;
    var w := new Word[64](_ => 0);
    FoldBlock(INITIAL, done, block);
    CompressBlock(state, w, block);
  }

  method Copy(buf: array<Byte>, at: nat, data: seq<Byte>)
    requires at + |data| <= buf.Length
    modifies buf
    ensures buf[..] == old(buf[..at]) + data + old(buf[at + |data|..])
  {
    forall i | 0 <= i < |data| {
      buf[at + i] := data[i];
    }
  }

  lemma WrappedLength(n: nat, k: nat)
    ensures (n % TWO64 + k) % TWO64 == (n + k) % TWO64
  {
    var q := n / TWO64;
    assert n + k == q * TWO64 + (n % TWO64 + k);
    WholeTurns(q, n % TWO64 + k);
  }

  lemma {:induction false} WholeTurns(q: nat, r: nat)
    ensures (q * TWO64 + r) % TWO64 == r % TWO64
    decreases q
  {
    if q > 0 {
      WholeTurns(q - 1, r);
      assert q * TWO64 + r == (q - 1) * TWO64 + r + TWO64;
      OneTurn((q - 1) * TWO64 + r);
    }
  }

  lemma OneTurn(n: nat)
    ensures (n + TWO64) % TWO64 == n % TWO64
  {
  }

  /** The bit count of the padding, as a `u64`. */
  function BitCount(bytes: nat): (n: nat)
    ensures n < TWO64
  {
    bytes * 8 % TWO64
  }

  lemma WrappedBits(n: nat)
    ensures BitCount(n % TWO64) == BitCount(n)
  {
    var q := n / TWO64;
    assert n * 8 == (q * 8) * TWO64 + n % TWO64 * 8;
    WholeTurns(q * 8, n % TWO64 * 8);
  }

  /** The 0x80 byte, zeros until 56 bytes of a block are filled, and the length, after a part of a block. */
  method Tail(part: seq<Byte>, bitLength: nat) returns (tail: seq<Byte>)
    requires |part| < 64 && bitLength < TWO64
    ensures tail == part + ([0x80] + Zeros(ZeroCount(|part|)) + Be(bitLength, 8))
    ensures |tail| == |part| + 9 + ZeroCount(|part|)
  {
    hide Be, ZeroCount;
    tail := part + [0x80];
    ghost var zeros := 0;
    while |tail| % 64 != 56
      invariant zeros <= ZeroCount(|part|) && tail == part + [0x80] + Zeros(zeros)
      decreases ZeroCount(|part|) - zeros
    {
      ZeroCountLeast(|part|, zeros);
      tail := tail + [0];
      zeros := zeros + 1;
    }
    ZeroCountLeast(|part|, zeros);
    tail := tail + Be(bitLength, 8);
  }

  /** All blocks of a tail, in order. */
  method AbsorbTail(state: array<Word>, tail: seq<Byte>, ghost done: seq<Byte>)
    requires state.Length == 8 && |done| % 64 == 0 && |tail| % 64 == 0 && state[..] == Fold(INITIAL, done)
    modifies state
    ensures state[..] == Fold(INITIAL, done + tail)
  {
    hide Fold;
    var i := 0;
    assert done + tail[..0] == done;
    while i + 64 <= |tail|
      invariant 0 <= i <= |tail| && i % 64 == 0
      invariant state[..] == Fold(INITIAL, done + tail[..i])
    {
      Absorb(state, tail[i..i + 64], done + tail[..i]);
      assert done + tail[..i] + tail[i..i + 64] == done + tail[..i + 64];
      i := i + 64;
    }
    assert tail[..i] == tail;
  }

  method WriteOut(state: array<Word>) returns (out: seq<Byte>)
    requires state.Length == 8
    ensures out == Output(state[..]) && |out| == 32
  {
    hide ToBe;
    out := [];
    var i := 0;
    while i < 8
      invariant 0 <= i <= 8 && out == Output(state[..i])
    {
      assert state[..i + 1][..i] == state[..i];
      out := out + ToBe(state[i]);
      i := i + 1;
    }
    assert state[..8] == state[..];
  }

  /** What a driver appends to the part of a block it is left with is the padding of the message. */
  lemma TailIsPadding(n: nat, part: nat)
    requires n % 64 == part
    ensures [0x80] + Zeros(ZeroCount(part)) + Be(BitCount(n), 8) == Padding(n)
    ensures (part + |Padding(n)|) % 64 == 0
  {
    hide Be;
    assert ZeroCount(n) == ZeroCount(part);
    ZeroCountLeast(part, 0);
  }

  lemma SplitFed(fed: seq<Byte>, part: nat, kept: seq<Byte>, padding: seq<Byte>)
    requires part <= |fed| && kept == fed[|fed| - part..]
    ensures fed[..|fed| - part] + (kept + padding) == fed + padding
  {
  }

  /** The blocks done and the tail together are the padded message. */
  lemma TailEnds(fed: seq<Byte>, part: seq<Byte>, tail: seq<Byte>)
    requires |part| == |fed| % 64 && part == fed[|fed| - |part|..]
    requires tail == part + ([0x80] + Zeros(ZeroCount(|part|)) + Be(BitCount(|fed|), 8))
    ensures |tail| % 64 == 0 && Digest(fed) == Output(Fold(INITIAL, fed[..|fed| - |part|] + tail))
  {
    hide Fold, Output, Be, ZeroCount, Padding, Zeros, BitCount;
    TailIsPadding(|fed|, |part|);
    SplitFed(fed, |part|, part, Padding(|fed|));
  }

  lemma FrontOf(front: seq<Byte>, s: seq<Byte>, n: nat)
    requires n <= |s|
    ensures front + s[..n] + s[n..] == front + s
  {
  }

  /** The streaming hasher. `fed` is everything given to it so far. */
  class Streaming {
    const state: array<Word>
    const buf: array<Byte>
    var bufLen: nat
    var totalLen: nat
    ghost var fed: seq<Byte>

    ghost predicate Valid()
      reads this, state, buf
    {
      && state.Length == 8 && buf.Length == 64
      && bufLen == |fed| % 64
      && totalLen == |fed| % TWO64
      && buf[..bufLen] == fed[|fed| - bufLen..]
      && state[..] == Fold(INITIAL, fed[..|fed| - bufLen])
    }

    constructor ()
      ensures Valid() && fed == [] && fresh(state) && fresh(buf)
    {
      state := new Word[8](i requires 0 <= i < 8 => INITIAL[i]);
      buf := new Byte[64](_ => 0);
      bufLen, totalLen := 0, 0;
      fed := [];
      new;
      assert state[..] == INITIAL;
    }

    /** What is held while a piece is being taken in: the blocks done, then the part in the buffer. */
    ghost predicate Holds(done: seq<Byte>)
      reads this, state, buf
    {
      && state.Length == 8 && buf.Length == 64 && bufLen < 64
      && |done| % 64 == 0 && state[..] == Fold(INITIAL, done)
      && fed == done + buf[..bufLen]
    }

    lemma HoldsIsValid(done: seq<Byte>)
      requires Holds(done) && totalLen == |fed| % TWO64
      ensures Valid()
    {
      hide Fold;
      assert fed[|fed| - bufLen..] == buf[..bufLen];
      assert fed[..|fed| - bufLen] == done;
    }

    /** Fill the buffer up from the front of the piece, and absorb it when it is full. */
    method TopUp(data: seq<Byte>, ghost before: seq<Byte>) returns (rest: seq<Byte>, ghost done: seq<Byte>)
      requires Holds(before) && bufLen > 0
      modifies this`bufLen, this`fed, state, buf
      ensures Holds(done) && fed + rest == old(fed) + data
      ensures bufLen > 0 ==> rest == []
    {
      hide Fold;
      var take := if 64 - bufLen < |data| then 64 - bufLen else |data|;
      ghost var had := buf[..bufLen];
      Copy(buf, bufLen, data[..take]);
      assert buf[..bufLen + take] == had + data[..take];
      bufLen := bufLen + take;
      rest := data[take..];
      done := before;
      fed := fed + data[..take];
      assert data == data[..take] + rest;
      assert fed == done + buf[..bufLen];
      if bufLen == 64 {
        assert buf[..64] == buf[..];
        Absorb(state, buf[..], done);
        done := done + buf[..];
        bufLen := 0;
      }
    }

    /** Whole blocks straight from the piece, then the remainder into the empty buffer. */
    method Drain(data: seq<Byte>, ghost before: seq<Byte>) returns (ghost done: seq<Byte>)
      requires Holds(before) && (bufLen > 0 ==> data == [])
      modifies this`bufLen, this`fed, state, buf
      ensures Holds(done) && fed == old(fed) + data
    {
      hide Fold;
      var rest := data;
      done := before;
      while |rest| >= 64
        invariant Holds(done) && (bufLen > 0 ==> rest == [])
        invariant fed + rest == old(fed) + data
      {
        assert fed == done;
        FrontOf(fed, rest, 64);
        Absorb(state, rest[..64], done);
        done := done + rest[..64];
        fed := done;
        rest := rest[64..];
      }
      if rest != [] {
        Copy(buf, 0, rest);
        bufLen := |rest|;
        fed := fed + rest;
        assert buf[..bufLen] == rest;
      }
    }

    method Update(data: seq<Byte>)
      requires Valid()
      modifies this, state, buf
      ensures Valid() && fed == old(fed) + data
    {
      hide Fold;
      WrappedLength(|fed|, |data|);
      totalLen := (totalLen + |data|) % TWO64;
      var rest := data;
      ghost var done := fed[..|fed| - bufLen];
      assert fed == done + buf[..bufLen];
      if bufLen > 0 {
        rest, done := TopUp(data, done);
      }
      done := Drain(rest, done);
      HoldsIsValid(done);
    }

    /** Consumes the hasher. */
    method Finalize() returns (out: seq<Byte>)
      requires Valid()
      modifies state
      ensures out == Digest(old(fed))
    {
      hide Fold, Output, Be, ZeroCount, Padding, Zeros, Digest, BitCount;
      ghost var done := fed[..|fed| - bufLen];
      WrappedBits(|fed|);
      var tail := Tail(buf[..bufLen], BitCount(totalLen));
      TailEnds(fed, buf[..bufLen], tail);
      AbsorbTail(state, tail, done);
      out := WriteOut(state);
    }
  }

  function Flatten(pieces: seq<seq<Byte>>): seq<Byte> {
    if pieces == [] then [] else Flatten(pieces[..|pieces| - 1]) + pieces[|pieces| - 1]
  }

  /** However a message is cut into pieces, streaming them gives its digest. */
  method DigestPieces(pieces: seq<seq<Byte>>) returns (out: seq<Byte>)
    ensures out == Digest(Flatten(pieces))
  {
    hide Digest;
    var hasher := new Streaming();
    var i := 0;
    while i < |pieces|
      invariant 0 <= i <= |pieces|
      invariant hasher.Valid() && fresh(hasher) && fresh(hasher.state) && fresh(hasher.buf)
      invariant hasher.fed == Flatten(pieces[..i])
    {
      assert pieces[..i + 1][..i] == pieces[..i];
      hasher.Update(pieces[i]);
      i := i + 1;
    }
    assert pieces[..i] == pieces;
    out := hasher.Finalize();
  }

  /** `gguf::sha256`: the whole blocks straight from the message, then one or two blocks of tail in a
      buffer of 128 bytes; one schedule array serves all blocks. */
  method OneShot(data: seq<Byte>) returns (out: seq<Byte>)
    ensures out == Digest(data)
  {
    hide Fold, Compress, Output, Be, ZeroCount, Zeros, Padding, Digest, BitCount;
    var h := new Word[8](i requires 0 <= i < 8 => INITIAL[i]);
    var w := new Word[64](_ => 0);
    assert h[..] == INITIAL;
    FoldEmpty();
    var at := Chunks(h, w, data, []);
    assert [] + data[..at] == data[..at];
    var tail := TailInPlace(data[at..], BitCount(|data|));
    TailEnds(data, data[at..], tail);
    var end := Chunks(h, w, tail, data[..at]);
    assert tail[..end] == tail;
    out := WriteOut(h);
  }

  /** `chunks_exact(64)`: every whole block of `data`, in order; what is left over starts at `at`. */
  method Chunks(h: array<Word>, w: array<Word>, data: seq<Byte>, ghost done: seq<Byte>) returns (at: nat)
    requires h.Length == 8 && w.Length == 64 && h != w && |done| % 64 == 0 && h[..] == Fold(INITIAL, done)
    modifies h, w
    ensures at <= |data| < at + 64 && at % 64 == 0
    ensures h[..] == Fold(INITIAL, done + data[..at])
  {
    hide Fold, Compress;
    at := 0;
    assert done + data[..0] == done;
    while at + 64 <= |data|
      invariant at <= |data| && at % 64 == 0
      invariant h[..] == Fold(INITIAL, done + data[..at])
    {
      FoldBlock(INITIAL, done + data[..at], data[at..at + 64]);
      assert done + data[..at] + data[at..at + 64] == done + data[..at + 64];
      CompressBlock(h, w, data[at..at + 64]);
      at := at + 64;
    }
  }

  lemma FoldEmpty()
    ensures Fold(INITIAL, []) == INITIAL
  {
  }

  lemma OneMore(before: seq<Byte>, after: seq<Byte>, n: nat, b: Byte)
    requires n < |before| && after == before[n := b]
    ensures after[..n + 1] == before[..n] + [b]
  {
  }

  /** Zero bytes from `n` on, until 56 bytes of a block are filled. */
  method PadInPlace(buf: array<Byte>, length: nat) returns (n: nat)
    requires buf.Length == 128 && length < 64
    modifies buf
    ensures n == length + 1 + ZeroCount(length) && n <= 120
    ensures buf[..n] == old(buf[..length + 1]) + Zeros(ZeroCount(length))
  {
    hide ZeroCount;
    ghost var filled, zeros := buf[..length + 1], 0;
    ZeroCountLeast(length, 0);
    n := length + 1;
    assert filled + Zeros(0) == filled;
    while n % 64 != 56
      invariant n == length + 1 + zeros && zeros <= ZeroCount(length) && buf[..n] == filled + Zeros(zeros)
      decreases ZeroCount(length) - zeros
    {
      ZeroCountLeast(length, zeros);
      ghost var before := buf[..];
      buf[n] := 0;
      OneMore(before, buf[..], n, 0);
      assert buf[..n + 1] == buf[..][..n + 1] && before[..n] == filled + Zeros(zeros);
      assert Zeros(zeros) + [0] == Zeros(zeros + 1);
      n := n + 1;
      zeros := zeros + 1;
    }
    ZeroCountLeast(length, zeros);
  }

  /** The tail written into a buffer of 128 zero bytes and cut off at its length. */
  method TailInPlace(rem: seq<Byte>, bitLength: nat) returns (tail: seq<Byte>)
    requires |rem| < 64 && bitLength < TWO64
    ensures tail == rem + ([0x80] + Zeros(ZeroCount(|rem|)) + Be(bitLength, 8))
    ensures |tail| == |rem| + 9 + ZeroCount(|rem|)
  {
    hide Be, ZeroCount, Zeros;
    var buf := new Byte[128](_ => 0);
    Copy(buf, 0, rem);
    ghost var before := buf[..];
    buf[|rem|] := 0x80;
    OneMore(before, buf[..], |rem|, 0x80);
    assert before[..|rem|] == rem;
    var n := PadInPlace(buf, |rem|);
    Copy(buf, n, Be(bitLength, 8));
    tail := buf[..n + 8];
    Regroup(rem, [0x80], Zeros(ZeroCount(|rem|)), Be(bitLength, 8));
  }

  lemma Regroup(a: seq<Byte>, b: seq<Byte>, c: seq<Byte>, d: seq<Byte>)
    ensures a + b + c + d == a + (b + c + d)
  {
  }
}

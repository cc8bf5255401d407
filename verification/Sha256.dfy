/** SHA-256 (FIPS 180-4): the digest as a fold over the blocks of the padded message, and the block
    function computed in place. */
module Sha256 {
  import opened Bytes

  type Word = bv32

  const INITIAL: seq<Word> := [
    0x6a09e667, 0xbb67ae85, 0x3c6ef372, 0xa54ff53a, 0x510e527f, 0x9b05688c, 0x1f83d9ab, 0x5be0cd19]

  // ----- FIPS 180-4, sections 3.2 and 4.1.2

  /** Addition modulo 2^32. */
  function Add(x: Word, y: Word): Word { x + y }

  function Ch(x: Word, y: Word, z: Word): Word { (x & y) ^ (!x & z) }

  function Maj(x: Word, y: Word, z: Word): Word { (x & y) ^ (x & z) ^ (y & z) }

  function BigSigma0(x: Word): Word { x.RotateRight(2) ^ x.RotateRight(13) ^ x.RotateRight(22) }

  function BigSigma1(x: Word): Word { x.RotateRight(6) ^ x.RotateRight(11) ^ x.RotateRight(25) }

  function SmallSigma0(x: Word): Word { x.RotateRight(7) ^ x.RotateRight(18) ^ (x >> 3) }

  function SmallSigma1(x: Word): Word { x.RotateRight(17) ^ x.RotateRight(19) ^ (x >> 10) }

  // ----- section 6.2.2: one block

  function FromBe(a: Byte, b: Byte, c: Byte, d: Byte): Word {
    ((a as Word) << 24) | ((b as Word) << 16) | ((c as Word) << 8) | (d as Word)
  }

  type Block = b: seq<Byte> | |b| == 64 witness seq(64, _ => 0)

  /** The message schedule, its terms summed in the order of the code. */
  function Schedule(block: Block, t: nat): Word
    requires t < 64
    decreases t
  {
    if t < 16 then FromBe(block[4 * t], block[4 * t + 1], block[4 * t + 2], block[4 * t + 3])
    else
      Add(Add(Add(Schedule(block, t - 16), SmallSigma0(Schedule(block, t - 15))), Schedule(block, t - 7)),
          SmallSigma1(Schedule(block, t - 2)))
  }

  /** The constants of section 4.2.2; both drivers have the same table. */
  function RoundKey(t: nat): Word
    requires t < 64
  {
    (match t / 8
     case 0 => [0x428a2f98, 0x71374491, 0xb5c0fbcf, 0xe9b5dba5,
                0x3956c25b, 0x59f111f1, 0x923f82a4, 0xab1c5ed5]
     case 1 => [0xd807aa98, 0x12835b01, 0x243185be, 0x550c7dc3,
                0x72be5d74, 0x80deb1fe, 0x9bdc06a7, 0xc19bf174]
     case 2 => [0xe49b69c1, 0xefbe4786, 0x0fc19dc6, 0x240ca1cc,
                0x2de92c6f, 0x4a7484aa, 0x5cb0a9dc, 0x76f988da]
     case 3 => [0x983e5152, 0xa831c66d, 0xb00327c8, 0xbf597fc7,
                0xc6e00bf3, 0xd5a79147, 0x06ca6351, 0x14292967]
     case 4 => [0x27b70a85, 0x2e1b2138, 0x4d2c6dfc, 0x53380d13,
                0x650a7354, 0x766a0abb, 0x81c2c92e, 0x92722c85]
     case 5 => [0xa2bfe8a1, 0xa81a664b, 0xc24b8b70, 0xc76c51a3,
                0xd192e819, 0xd6990624, 0xf40e3585, 0x106aa070]
     case 6 => [0x19a4c116, 0x1e376c08, 0x2748774c, 0x34b0bcb5,
                0x391c0cb3, 0x4ed8aa4a, 0x5b9cca4f, 0x682e6ff3]
     case _ => [0x748f82ee, 0x78a5636f, 0x84c87814, 0x8cc70208,
                0x90befffa, 0xa4506ceb, 0xbef9a3f7, 0xc67178f2])[t % 8]
  }

  datatype Vars = Vars(a: Word, b: Word, c: Word, d: Word, e: Word, f: Word, g: Word, h: Word)

  type Hash = h: seq<Word> | |h| == 8 witness seq(8, _ => 0)

  function Load(h: Hash): Vars {
    Vars(h[0], h[1], h[2], h[3], h[4], h[5], h[6], h[7])
  }

  function Round(v: Vars, k: Word, w: Word): Vars {
    var t1 := Add(Add(Add(Add(v.h, BigSigma1(v.e)), Ch(v.e, v.f, v.g)), k), w);
    var t2 := Add(BigSigma0(v.a), Maj(v.a, v.b, v.c));
    Vars(Add(t1, t2), v.a, v.b, v.c, Add(v.d, t1), v.e, v.f, v.g)
  }

  /** The working variables before round t. */
  function Rounds(h: Hash, block: Block, t: nat): Vars
    requires t <= 64
    decreases t
  {
    if t == 0 then Load(h) else Round(Rounds(h, block, t - 1), RoundKey(t - 1), Schedule(block, t - 1))
  }

  function AddTo(v: Vars, h: Hash): Hash {
    [Add(h[0], v.a), Add(h[1], v.b), Add(h[2], v.c), Add(h[3], v.d),
     Add(h[4], v.e), Add(h[5], v.f), Add(h[6], v.g), Add(h[7], v.h)]
  }

  function Compress(h: Hash, block: Block): Hash {
    AddTo(Rounds(h, block, 64), h)
  }

  // ----- whole messages

  /** The hash after the whole blocks of a message; a part of a block at the end is not looked at. */
  function Fold(h: Hash, message: seq<Byte>): (r: Hash)
    decreases |message|
  {
    if |message| < 64 then h else Fold(Compress(h, message[..64]), message[64..])
  }

  function Zeros(n: nat): (s: seq<Byte>) {
    seq(n, _ => 0)
  }

  /** The fewest zero bytes after which, with the one bit before them, 8 bytes of a block are left. */
  function ZeroCount(length: nat): (n: nat)
    ensures n < 64
  {
    (55 - length) % 64
  }

  /** No fewer zeros leave 8 bytes of a block, and the padded message is whole blocks. */
  lemma ZeroCountLeast(length: nat, zeros: nat)
    requires zeros <= ZeroCount(length)
    ensures (length + 1 + zeros) % 64 == 56 <==> zeros == ZeroCount(length)
    ensures (length + 9 + ZeroCount(length)) % 64 == 0
  {
  }

  /** Section 5.1.1: a one bit, zero bits and the bit length. The drivers keep the byte count in a 64-bit
      word, so the bit length wraps. */
  function Padding(length: nat): (s: seq<Byte>)
    ensures |s| == ZeroCount(length) + 9
  {
    [0x80] + Zeros(ZeroCount(length)) + BitLength(length)
  }

  function BitLength(length: nat): (s: seq<Byte>)
    ensures |s| == 8
  {
    Be(length * 8 % TWO64, 8)
  }

  function ToBe(w: Word): (s: seq<Byte>)
    ensures |s| == 4
  {
    [(w >> 24) as bv8 as int, ((w >> 16) & 0xff) as bv8 as int, ((w >> 8) & 0xff) as bv8 as int,
        (w & 0xff) as bv8 as int]
  }

  function Output(h: seq<Word>): (s: seq<Byte>)
    ensures |s| == 4 * |h|
  {
    if h == [] then [] else Output(h[..|h| - 1]) + ToBe(h[|h| - 1])
  }

  /** The SHA-256 digest. */
  function Digest(message: seq<Byte>): (d: seq<Byte>)
    ensures |d| == 32
  {
    Output(Fold(INITIAL, message + Padding(|message|)))
  }

  // ----- about the fold

  lemma {:induction false} FoldAppend(h: Hash, a: seq<Byte>, b: seq<Byte>)
    requires |a| % 64 == 0
    ensures Fold(h, a + b) == Fold(Fold(h, a), b)
    decreases |a|
  {
    hide Compress;
    if a == [] {
      assert a + b == b;
    } else {
      assert (a + b)[..64] == a[..64] && (a + b)[64..] == a[64..] + b;
      FoldAppend(Compress(h, a[..64]), a[64..], b);
    }
  }

  /** One more block is one more compression. */
  lemma FoldBlock(h: Hash, a: seq<Byte>, block: Block)
    requires |a| % 64 == 0
    ensures Fold(h, a + block) == Compress(Fold(h, a), block)
  {
    hide Compress;
    FoldAppend(h, a, block);
    assert block[..64] == block;
  }

  lemma BitLengthDetermines(m: nat, n: nat)
    requires m * 8 < TWO64 && n * 8 < TWO64 && BitLength(m) == BitLength(n)
    ensures m == n
  {
    hide Be, Pow256;
    WordWidths();
    assert m * 8 % TWO64 == m * 8 && n * 8 % TWO64 == n * 8;
    BeDetermines(m * 8, n * 8, 8);
  }

  /** Padding keeps messages apart as long as their bit lengths fit 64 bits. */
  lemma PaddingInjective(m: seq<Byte>, n: seq<Byte>)
    requires |m| * 8 < TWO64 && |n| * 8 < TWO64
    requires m + Padding(|m|) == n + Padding(|n|)
    ensures m == n
  {
    hide BitLength;
    LastEight(m);
    LastEight(n);
    BitLengthDetermines(|m|, |n|);
    SplitsOnce(m, n, Padding(|m|), Padding(|n|));
  }

  lemma LastEight(m: seq<Byte>)
    ensures var p := m + Padding(|m|); p[|p| - 8..] == BitLength(|m|)
  {
    hide BitLength, ZeroCount;
  }

  // ----- compression in place

  method FillSchedule(w: array<Word>, block: Block)
    requires w.Length == 64
    modifies w
    ensures forall t :: 0 <= t < 64 ==> w[t] == Schedule(block, t)
  {
    hide FromBe, SmallSigma0, SmallSigma1, Add;
    var i := 0;
    while i < 16
      invariant 0 <= i <= 16
      invariant forall t :: 0 <= t < i ==> w[t] == Schedule(block, t)
    {
      w[i] := FromBe(block[4 * i], block[4 * i + 1], block[4 * i + 2], block[4 * i + 3]);
      i := i + 1;
    }
    while i < 64
      invariant 16 <= i <= 64
      invariant forall t :: 0 <= t < i ==> w[t] == Schedule(block, t)
    {
      var s0 := SmallSigma0(w[i - 15]);
      var s1 := SmallSigma1(w[i - 2]);
      w[i] := Add(Add(Add(w[i - 16], s0), w[i - 7]), s1);
      i := i + 1;
    }
  }

  method RunRounds(h: Hash, w: array<Word>, block: Block) returns (v: Vars)
    requires w.Length == 64 && forall t :: 0 <= t < 64 ==> w[t] == Schedule(block, t)
    ensures v == Rounds(h, block, 64)
  {
    hide Schedule, BigSigma0, BigSigma1, RoundKey, Ch, Maj, Add;
    var a, b, c, d, e, f, g, hh := h[0], h[1], h[2], h[3], h[4], h[5], h[6], h[7];
    var i := 0;
    while i < 64
      invariant 0 <= i <= 64
      invariant Vars(a, b, c, d, e, f, g, hh) == Rounds(h, block, i)
    {
      ghost var before := Vars(a, b, c, d, e, f, g, hh);
      var t1 := Add(Add(Add(Add(hh, BigSigma1(e)), Ch(e, f, g)), RoundKey(i)), w[i]);
      var t2 := Add(BigSigma0(a), Maj(a, b, c));
      hh := g;
      g := f;
      f := e;
      e := Add(d, t1);
      d := c;
      c := b;
      b := a;
      a := Add(t1, t2);
      i := i + 1;
      assert Vars(a, b, c, d, e, f, g, hh) == Round(before, RoundKey(i - 1), w[i - 1]);
    }
    v := Vars(a, b, c, d, e, f, g, hh);
  }

  /** `compress`: one block into the state `h`; the schedule array may hold anything before. */
  method CompressBlock(h: array<Word>, w: array<Word>, block: Block)
    requires h.Length == 8 && w.Length == 64 && h != w
    modifies h, w
    ensures h[..] == Compress(old(h[..]), block)
  {
    hide Rounds, Schedule, Add;
    FillSchedule(w, block);
    var v := RunRounds(h[..], w, block);
    AddInto(h, v);
  }

  lemma EightWords(s: seq<Word>)
    requires |s| == 8
    ensures s == [s[0], s[1], s[2], s[3], s[4], s[5], s[6], s[7]]
  {
  }

  method AddInto(h: array<Word>, v: Vars)
    requires h.Length == 8
    modifies h
    ensures h[..] == AddTo(v, old(h[..]))
  {
    hide Add;
    h[0] := Add(h[0], v.a);
    h[1] := Add(h[1], v.b);
    h[2] := Add(h[2], v.c);
    h[3] := Add(h[3], v.d);
    h[4] := Add(h[4], v.e);
    h[5] := Add(h[5], v.f);
    h[6] := Add(h[6], v.g);
    h[7] := Add(h[7], v.h);
    EightWords(h[..]);
  }
}

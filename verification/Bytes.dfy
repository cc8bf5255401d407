/** Bytes, fixed-width integers in both byte orders, and encoders written as what they put in front of
    the bytes that follow. */
module Bytes {
  import opened Wrappers

  const TWO32: nat := 0x1_0000_0000
  const TWO64: nat := 0x1_0000_0000_0000_0000

  type Byte = n: nat | n < 256
  type U32 = n: nat | n < 0x1_0000_0000
  type U64 = n: nat | n < 0x1_0000_0000_0000_0000

  /** The bytes of a string, whose length a machine word can hold. */
  type Str = s: seq<Byte> | |s| < 0x1_0000_0000_0000_0000

  function Pow256(width: nat): (p: nat)
    ensures p > 0
    decreases width
  {
    if width == 0 then 1 else 256 * Pow256(width - 1)
  }

  lemma WordWidths()
    ensures Pow256(4) == TWO32 && Pow256(8) == TWO64
  {
    assert Pow256(2) == 256 * 256;
    assert Pow256(4) == 256 * (256 * Pow256(2));
    assert Pow256(6) == 256 * (256 * Pow256(4));
    assert Pow256(8) == 256 * (256 * Pow256(6));
  }

  /** `to_le_bytes`. */
  function Le(n: nat, width: nat): (s: seq<Byte>)
    ensures |s| == width
    decreases width
  {
    if width == 0 then [] else [n % 256] + Le(n / 256, width - 1)
  }

  /** `to_be_bytes`. */
  function Be(n: nat, width: nat): (s: seq<Byte>)
    ensures |s| == width
    decreases width
  {
    if width == 0 then [] else Be(n / 256, width - 1) + [n % 256]
  }

  lemma {:induction false} LeDetermines(m: nat, n: nat, width: nat)
    requires m < Pow256(width) && n < Pow256(width) && Le(m, width) == Le(n, width)
    ensures m == n
    decreases width
  {
    if width > 0 {
      assert Le(m, width)[0] == Le(n, width)[0];
      assert Le(m, width)[1..] == Le(m / 256, width - 1) && Le(n, width)[1..] == Le(n / 256, width - 1);
      LeDetermines(m / 256, n / 256, width - 1);
    }
  }

  lemma {:induction false} BeDetermines(m: nat, n: nat, width: nat)
    requires m < Pow256(width) && n < Pow256(width) && Be(m, width) == Be(n, width)
    ensures m == n
    decreases width
  {
    if width > 0 {
      assert Be(m, width)[width - 1] == Be(n, width)[width - 1];
      assert Be(m, width)[..width - 1] == Be(m / 256, width - 1) && Be(n, width)[..width - 1] == Be(n / 256, width - 1);
      BeDetermines(m / 256, n / 256, width - 1);
    }
  }

  /** Two equal streams split at the same place have equal halves. */
  lemma SplitsOnce<T>(a: seq<T>, b: seq<T>, r: seq<T>, s: seq<T>)
    requires |a| == |b| && a + r == b + s
    ensures a == b && r == s
  {
    assert a == (a + r)[..|a|] && b == (b + s)[..|b|];
    assert r == (a + r)[|a|..] && s == (b + s)[|b|..];
  }

  function PutU64(n: U64, rest: seq<Byte>): seq<Byte> {
    Le(n, 8) + rest
  }

  function PutU32(n: U32, rest: seq<Byte>): seq<Byte> {
    Le(n, 4) + rest
  }

  function PutBool(b: bool, rest: seq<Byte>): seq<Byte> {
    [if b then 1 else 0] + rest
  }

  /** The length first, then the bytes. */
  function PutStr(s: Str, rest: seq<Byte>): seq<Byte> {
    PutU64(|s|, s + rest)
  }

  // Each encoding is read back in one way only, whatever bytes come after it.

  lemma ReadU64(m: U64, n: U64, r: seq<Byte>, s: seq<Byte>)
    requires PutU64(m, r) == PutU64(n, s)
    ensures m == n && r == s
  {
    SplitsOnce(Le(m, 8), Le(n, 8), r, s);
    WordWidths();
    LeDetermines(m, n, 8);
  }

  lemma ReadU32(m: U32, n: U32, r: seq<Byte>, s: seq<Byte>)
    requires PutU32(m, r) == PutU32(n, s)
    ensures m == n && r == s
  {
    SplitsOnce(Le(m, 4), Le(n, 4), r, s);
    WordWidths();
    LeDetermines(m, n, 4);
  }

  lemma ReadBool(a: bool, b: bool, r: seq<Byte>, s: seq<Byte>)
    requires PutBool(a, r) == PutBool(b, s)
    ensures a == b && r == s
  {
    SplitsOnce([if a then 1 else 0], [if b then 1 else 0], r, s);
    assert [if a then 1 else 0][0] == [if b then 1 else 0][0];
  }

  lemma ReadTag(a: Byte, b: Byte, r: seq<Byte>, s: seq<Byte>)
    requires [a] + r == [b] + s
    ensures a == b && r == s
  {
    SplitsOnce([a], [b], r, s);
    assert [a][0] == [b][0];
  }

  lemma ReadStr(a: Str, b: Str, r: seq<Byte>, s: seq<Byte>)
    requires PutStr(a, r) == PutStr(b, s)
    ensures a == b && r == s
  {
    ReadU64(|a|, |b|, a + r, b + s);
    SplitsOnce(a, b, r, s);
  }

  /** An encoder whose values are read back in one way only, whatever follows them. */
  ghost predicate Readable<T(!new)>(put: (T, seq<Byte>) -> seq<Byte>) {
    forall x: T, y: T, r: seq<Byte>, s: seq<Byte> :: put(x, r) == put(y, s) ==> x == y && r == s
  }

  /** A flag, then the value if there is one. */
  function PutOption<T>(o: Option<T>, put: (T, seq<Byte>) -> seq<Byte>, rest: seq<Byte>): seq<Byte> {
    if o.Some? then [1] + put(o.value, rest) else [0] + rest
  }

  lemma ReadOption<T(!new)>(a: Option<T>, b: Option<T>, put: (T, seq<Byte>) -> seq<Byte>, r: seq<Byte>, s: seq<Byte>)
    requires Readable(put) && PutOption(a, put, r) == PutOption(b, put, s)
    ensures a == b && r == s
  {
    ReadTag(if a.Some? then 1 else 0, if b.Some? then 1 else 0,
            if a.Some? then put(a.value, r) else r, if b.Some? then put(b.value, s) else s);
  }

  /** The elements one after the other; how many there are is not part of it. */
  function PutAll<T>(xs: seq<T>, put: (T, seq<Byte>) -> seq<Byte>, rest: seq<Byte>): seq<Byte> {
    if xs == [] then rest else put(xs[0], PutAll(xs[1..], put, rest))
  }

  lemma {:induction false} ReadAll<T(!new)>(xs: seq<T>, ys: seq<T>, put: (T, seq<Byte>) -> seq<Byte>, r: seq<Byte>,
      s: seq<Byte>)
    requires Readable(put) && |xs| == |ys| && PutAll(xs, put, r) == PutAll(ys, put, s)
    ensures xs == ys && r == s
  {
    if xs != [] {
      assert xs[0] == ys[0] && PutAll(xs[1..], put, r) == PutAll(ys[1..], put, s);
      ReadAll(xs[1..], ys[1..], put, r, s);
      assert xs == [xs[0]] + xs[1..] && ys == [ys[0]] + ys[1..];
    }
  }

  /** The count first, then the elements. */
  function PutList<T>(xs: seq<T>, put: (T, seq<Byte>) -> seq<Byte>, rest: seq<Byte>): seq<Byte>
    requires |xs| < TWO64
  {
    PutU64(|xs|, PutAll(xs, put, rest))
  }

  lemma ReadList<T(!new)>(xs: seq<T>, ys: seq<T>, put: (T, seq<Byte>) -> seq<Byte>, r: seq<Byte>, s: seq<Byte>)
    requires |xs| < TWO64 && |ys| < TWO64
    requires Readable(put) && PutList(xs, put, r) == PutList(ys, put, s)
    ensures xs == ys && r == s
  {
    ReadU64(|xs|, |ys|, PutAll(xs, put, r), PutAll(ys, put, s));
    ReadAll(xs, ys, put, r, s);
  }

  lemma WordsReadable()
    ensures Readable(PutU64) && Readable(PutU32) && Readable(PutBool) && Readable(PutStr)
  {
    forall x, y, r, s | PutU64(x, r) == PutU64(y, s) ensures x == y && r == s { ReadU64(x, y, r, s); }
    forall x, y, r, s | PutU32(x, r) == PutU32(y, s) ensures x == y && r == s { ReadU32(x, y, r, s); }
    forall x, y, r, s | PutBool(x, r) == PutBool(y, s) ensures x == y && r == s { ReadBool(x, y, r, s); }
    forall x, y, r, s | PutStr(x, r) == PutStr(y, s) ensures x == y && r == s { ReadStr(x, y, r, s); }
  }

  // Appending to the output vector. `rest` is what the caller is still to append.

  lemma Appended(out: seq<Byte>, a: seq<Byte>, rest: seq<Byte>)
    ensures (out + a) + rest == out + (a + rest)
  {
  }

  method PushU64(out: seq<Byte>, v: U64, ghost rest: seq<Byte>) returns (r: seq<Byte>)
    ensures r + rest == out + PutU64(v, rest)
  {
    r := out + Le(v, 8);
    Appended(out, Le(v, 8), rest);
  }

  method PushU32(out: seq<Byte>, v: U32, ghost rest: seq<Byte>) returns (r: seq<Byte>)
    ensures r + rest == out + PutU32(v, rest)
  {
    r := out + Le(v, 4);
    Appended(out, Le(v, 4), rest);
  }

  method PushBool(out: seq<Byte>, v: bool, ghost rest: seq<Byte>) returns (r: seq<Byte>)
    ensures r + rest == out + PutBool(v, rest)
  {
    r := out + [if v then 1 else 0];
    Appended(out, [if v then 1 else 0], rest);
  }

  method PushStr(out: seq<Byte>, s: Str, ghost rest: seq<Byte>) returns (r: seq<Byte>)
    ensures r + rest == out + PutStr(s, rest)
  {
    r := PushU64(out, |s|, s + rest);
    Appended(r, s, rest);
    r := r + s;
  }

  method PushByte(out: seq<Byte>, b: Byte, ghost rest: seq<Byte>) returns (r: seq<Byte>)
    ensures r + rest == out + ([b] + rest)
  {
    r := out + [b];
    Appended(out, [b], rest);
  }
}

/** Where the constants of SHA-256 come from: sections 4.2.2 and 5.3.3 of FIPS 180-4. */
module Sha256Constants {
  import opened Sha256
  import opened Shapes

  // ----- the primes

  predicate IsPrime(n: nat) {
    n >= 2 && forall d :: 2 <= d < n ==> n % d != 0
  }

  /** The least prime that divides n, for the numbers below 18 * 18 that are not prime. */
  function LeastDivisor(n: nat): nat {
    if n % 2 == 0 then 2 else if n % 3 == 0 then 3 else if n % 5 == 0 then 5 else if n % 7 == 0 then 7
    else if n % 11 == 0 then 11 else if n % 13 == 0 then 13 else if n % 17 == 0 then 17 else n
  }

  lemma DividedBy(n: nat, p: nat)
    requires p == 2 || p == 3 || p == 5 || p == 7 || p == 11 || p == 13 || p == 17
    requires n % p == 0
    ensures LeastDivisor(n) < 18 && n % LeastDivisor(n) == 0
  {
  }

  lemma LeastOfSmall(d: nat)
    requires 2 <= d < 18
    ensures var p := LeastDivisor(d);
            (p == 2 || p == 3 || p == 5 || p == 7 || p == 11 || p == 13 || p == 17) && d % p == 0
  {
    if d % 2 != 0 && d % 3 != 0 {
      assert d == 5 || d == 7 || d == 11 || d == 13 || d == 17;
    }
  }

  /** A divisor below 18 has a prime factor below 18. */
  lemma SmallFactor(n: nat, d: nat)
    requires 2 <= d < 18 && n % d == 0
    ensures LeastDivisor(n) < 18 && n % LeastDivisor(n) == 0
  {
    hide LeastDivisor;
    LeastOfSmall(d);
    var p, e := LeastDivisor(d), n / d;
    var q := d / p;
    assert d == q * p && n == e * d;
    Regroup(e, q, p);
    DivModUnique(n, p, e * q, 0);
    DividedBy(n, p);
  }

  lemma Regroup(a: nat, b: nat, c: nat)
    ensures a * (b * c) == a * b * c
  {
  }

  lemma PrimeBySieve(n: nat)
    requires 2 <= n < 324
    ensures IsPrime(n) <==> LeastDivisor(n) == n
  {
    if LeastDivisor(n) == n {
      forall d | 2 <= d < n ensures n % d != 0 {
        if n % d == 0 {
          NoDivisor(n, d);
        }
      }
    } else {
      assert n % LeastDivisor(n) == 0 && 2 <= LeastDivisor(n);
      assert LeastDivisor(n) < n;
    }
  }

  lemma NoDivisor(n: nat, d: nat)
    requires 2 <= d < n < 324 && n % d == 0
    ensures LeastDivisor(n) != n
  {
    if d < 18 {
      SmallFactor(n, d);
    } else {
      var e := n / d;
      SmallQuotient(n, d, e);
      SmallFactor(n, e);
    }
  }

  lemma AtLeast324(d: nat, e: nat)
    requires d >= 18 && e >= 18
    ensures d * e >= 18 * 18
  {
    MulMono(d, 18, e);
  }

  lemma SmallQuotient(n: nat, d: nat, e: nat)
    requires 18 <= d < n < 324 && n == d * e
    ensures 2 <= e < 18 && n % e == 0
  {
    if e >= 18 {
      AtLeast324(d, e);
    }
    DivModUnique(n, e, d, 0);
  }

  /** The next prime after n, as long as it is below 18 * 18. */
  function NextPrime(n: nat): nat
    decreases 324 - n
  {
    if n >= 323 || LeastDivisor(n + 1) == n + 1 then n + 1 else NextPrime(n + 1)
  }

  lemma {:induction false} NextPrimeMeans(n: nat)
    requires n >= 1 && NextPrime(n) < 324
    ensures n < NextPrime(n) && IsPrime(NextPrime(n)) && forall m :: n < m < NextPrime(n) ==> !IsPrime(m)
    decreases 324 - n
  {
    hide IsPrime, LeastDivisor;
    PrimeBySieve(n + 1);
    if LeastDivisor(n + 1) != n + 1 {
      NextPrimeMeans(n + 1);
    }
  }

  /** The t-th prime, for the first 64 of them. */
  function Prime(t: nat): nat {
    if t == 0 then 2 else NextPrime(Prime(t - 1))
  }

  /** The search goes over an odd number that is no prime, */
  lemma Skip(n: nat)
    requires n % 2 == 1 && 1 < n < 320 && LeastDivisor(n + 2) != n + 2
    ensures NextPrime(n) == NextPrime(n + 2)
  {
    hide LeastDivisor;
    EvenIsNone(n + 1);
    OneOn(n);
    OneOn(n + 1);
  }

  /** and ends at one that is. */
  lemma Hit(n: nat)
    requires n % 2 == 1 && 1 < n < 320 && LeastDivisor(n + 2) == n + 2
    ensures NextPrime(n) == n + 2
  {
    hide LeastDivisor;
    EvenIsNone(n + 1);
    OneOn(n);
  }

  lemma OneOn(n: nat)
    requires n < 323
    ensures NextPrime(n) == if LeastDivisor(n + 1) == n + 1 then n + 1 else NextPrime(n + 1)
  {
    hide LeastDivisor;
  }

  lemma EvenIsNone(n: nat)
    requires n % 2 == 0 && n > 2
    ensures LeastDivisor(n) == 2
  {
  }

  lemma NextFrom0()
    ensures NextPrime(2) == 3 && NextPrime(3) == 5 && NextPrime(5) == 7
  {
    assert NextPrime(2) == 3;
    hide NextPrime;
    Hit(3);
    Hit(5);
  }

  lemma NextFrom4()
    ensures NextPrime(7) == 11 && NextPrime(11) == 13 && NextPrime(13) == 17 && NextPrime(17) == 19
  {
    hide NextPrime;
    Skip(7); Hit(9);
    Hit(11);
    Skip(13); Hit(15);
    Hit(17);
  }

  lemma NextFrom8()
    ensures NextPrime(19) == 23 && NextPrime(23) == 29 && NextPrime(29) == 31 && NextPrime(31) == 37
  {
    hide NextPrime;
    Skip(19); Hit(21);
    Skip(23); Skip(25); Hit(27);
    Hit(29);
    Skip(31); Skip(33); Hit(35);
  }

  lemma NextFrom12()
    ensures NextPrime(37) == 41 && NextPrime(41) == 43 && NextPrime(43) == 47 && NextPrime(47) == 53
  {
    hide NextPrime;
    Skip(37); Hit(39);
    Hit(41);
    Skip(43); Hit(45);
    Skip(47); Skip(49); Hit(51);
  }

  lemma NextFrom16()
    ensures NextPrime(53) == 59 && NextPrime(59) == 61 && NextPrime(61) == 67 && NextPrime(67) == 71
  {
    hide NextPrime;
    Skip(53); Skip(55); Hit(57);
    Hit(59);
    Skip(61); Skip(63); Hit(65);
    Skip(67); Hit(69);
  }

  lemma NextFrom20()
    ensures NextPrime(71) == 73 && NextPrime(73) == 79 && NextPrime(79) == 83 && NextPrime(83) == 89
  {
    hide NextPrime;
    Hit(71);
    Skip(73); Skip(75); Hit(77);
    Skip(79); Hit(81);
    Skip(83); Skip(85); Hit(87);
  }

  lemma NextFrom24()
    ensures NextPrime(89) == 97 && NextPrime(97) == 101 && NextPrime(101) == 103 && NextPrime(103) == 107
  {
    hide NextPrime;
    Skip(89); Skip(91); Skip(93); Hit(95);
    Skip(97); Hit(99);
    Hit(101);
    Skip(103); Hit(105);
  }

  lemma NextFrom28()
    ensures NextPrime(107) == 109 && NextPrime(109) == 113 && NextPrime(113) == 127 && NextPrime(127) == 131
  {
    hide NextPrime;
    Hit(107);
    Skip(109); Hit(111);
    Skip(113); Skip(115); Skip(117); Skip(119); Skip(121); Skip(123); Hit(125);
    Skip(127); Hit(129);
  }

  lemma NextFrom32()
    ensures NextPrime(131) == 137 && NextPrime(137) == 139 && NextPrime(139) == 149 && NextPrime(149) == 151
  {
    hide NextPrime;
    Skip(131); Skip(133); Hit(135);
    Hit(137);
    Skip(139); Skip(141); Skip(143); Skip(145); Hit(147);
    Hit(149);
  }

  lemma NextFrom36()
    ensures NextPrime(151) == 157 && NextPrime(157) == 163 && NextPrime(163) == 167 && NextPrime(167) == 173
  {
    hide NextPrime;
    Skip(151); Skip(153); Hit(155);
    Skip(157); Skip(159); Hit(161);
    Skip(163); Hit(165);
    Skip(167); Skip(169); Hit(171);
  }

  lemma NextFrom40()
    ensures NextPrime(173) == 179 && NextPrime(179) == 181 && NextPrime(181) == 191 && NextPrime(191) == 193
  {
    hide NextPrime;
    Skip(173); Skip(175); Hit(177);
    Hit(179);
    Skip(181); Skip(183); Skip(185); Skip(187); Hit(189);
    Hit(191);
  }

  lemma NextFrom44()
    ensures NextPrime(193) == 197 && NextPrime(197) == 199 && NextPrime(199) == 211 && NextPrime(211) == 223
  {
    hide NextPrime;
    Skip(193); Hit(195);
    Hit(197);
    Skip(199); Skip(201); Skip(203); Skip(205); Skip(207); Hit(209);
    Skip(211); Skip(213); Skip(215); Skip(217); Skip(219); Hit(221);
  }

  lemma NextFrom48()
    ensures NextPrime(223) == 227 && NextPrime(227) == 229 && NextPrime(229) == 233 && NextPrime(233) == 239
  {
    hide NextPrime;
    Skip(223); Hit(225);
    Hit(227);
    Skip(229); Hit(231);
    Skip(233); Skip(235); Hit(237);
  }

  lemma NextFrom52()
    ensures NextPrime(239) == 241 && NextPrime(241) == 251 && NextPrime(251) == 257 && NextPrime(257) == 263
  {
    hide NextPrime;
    Hit(239);
    Skip(241); Skip(243); Skip(245); Skip(247); Hit(249);
    Skip(251); Skip(253); Hit(255);
    Skip(257); Skip(259); Hit(261);
  }

  lemma NextFrom56()
    ensures NextPrime(263) == 269 && NextPrime(269) == 271 && NextPrime(271) == 277 && NextPrime(277) == 281
  {
    hide NextPrime;
    Skip(263); Skip(265); Hit(267);
    Hit(269);
    Skip(271); Skip(273); Hit(275);
    Skip(277); Hit(279);
  }

  lemma NextFrom60()
    ensures NextPrime(281) == 283 && NextPrime(283) == 293 && NextPrime(293) == 307 && NextPrime(307) == 311
  {
    hide NextPrime;
    Hit(281);
    Skip(283); Skip(285); Skip(287); Skip(289); Hit(291);
    Skip(293); Skip(295); Skip(297); Skip(299); Skip(301); Skip(303); Hit(305);
    Skip(307); Hit(309);
  }

  lemma PrimesFrom0()
    ensures Prime(0) == 2 && Prime(1) == 3 && Prime(2) == 5 && Prime(3) == 7 && Prime(4) == 11
    ensures Prime(5) == 13 && Prime(6) == 17 && Prime(7) == 19
  {
    hide NextPrime;
    NextFrom0();
    NextFrom4();
  }

  lemma PrimesFrom8()
    ensures Prime(8) == 23 && Prime(9) == 29 && Prime(10) == 31 && Prime(11) == 37 && Prime(12) == 41
    ensures Prime(13) == 43 && Prime(14) == 47 && Prime(15) == 53
  {
    hide NextPrime;
    PrimesFrom0();
    NextFrom8();
    NextFrom12();
  }

  lemma PrimesFrom16()
    ensures Prime(16) == 59 && Prime(17) == 61 && Prime(18) == 67 && Prime(19) == 71 && Prime(20) == 73
    ensures Prime(21) == 79 && Prime(22) == 83 && Prime(23) == 89
  {
    hide NextPrime;
    PrimesFrom8();
    NextFrom16();
    NextFrom20();
  }

  lemma PrimesFrom24()
    ensures Prime(24) == 97 && Prime(25) == 101 && Prime(26) == 103 && Prime(27) == 107 && Prime(28) == 109
    ensures Prime(29) == 113 && Prime(30) == 127 && Prime(31) == 131
  {
    hide NextPrime;
    PrimesFrom16();
    NextFrom24();
    NextFrom28();
  }

  lemma PrimesFrom32()
    ensures Prime(32) == 137 && Prime(33) == 139 && Prime(34) == 149 && Prime(35) == 151 && Prime(36) == 157
    ensures Prime(37) == 163 && Prime(38) == 167 && Prime(39) == 173
  {
    hide NextPrime;
    PrimesFrom24();
    NextFrom32();
    NextFrom36();
  }

  lemma PrimesFrom40()
    ensures Prime(40) == 179 && Prime(41) == 181 && Prime(42) == 191 && Prime(43) == 193 && Prime(44) == 197
    ensures Prime(45) == 199 && Prime(46) == 211 && Prime(47) == 223
  {
    hide NextPrime;
    PrimesFrom32();
    NextFrom40();
    NextFrom44();
  }

  lemma PrimesFrom48()
    ensures Prime(48) == 227 && Prime(49) == 229 && Prime(50) == 233 && Prime(51) == 239 && Prime(52) == 241
    ensures Prime(53) == 251 && Prime(54) == 257 && Prime(55) == 263
  {
    hide NextPrime;
    PrimesFrom40();
    NextFrom48();
    NextFrom52();
  }

  lemma PrimesFrom56()
    ensures Prime(56) == 269 && Prime(57) == 271 && Prime(58) == 277 && Prime(59) == 281 && Prime(60) == 283
    ensures Prime(61) == 293 && Prime(62) == 307 && Prime(63) == 311
  {
    hide NextPrime;
    PrimesFrom48();
    NextFrom56();
    NextFrom60();
  }

  /** They are the primes from 2 on, none left out. */
  lemma PrimesInOrder(t: nat)
    requires t < 64
    ensures IsPrime(Prime(t))
    ensures if t == 0 then Prime(t) == 2
            else Prime(t - 1) < Prime(t) && forall n :: Prime(t - 1) < n < Prime(t) ==> !IsPrime(n)
  {
    hide IsPrime, NextPrime;
    if t == 0 {
      PrimeBySieve(2);
    } else {
      Positive(t - 1);
      PrimeBound(t);
      NextPrimeMeans(Prime(t - 1));
    }
  }

  lemma {:induction false} Positive(t: nat)
    ensures Prime(t) >= 1
  {
    if t > 0 {
      Positive(t - 1);
      hide Prime;
      AtLeast(Prime(t - 1));
    }
  }

  lemma {:induction false} AtLeast(n: nat)
    ensures NextPrime(n) > n
    decreases 324 - n
  {
    hide LeastDivisor;
    if n < 323 {
      AtLeast(n + 1);
    }
  }

  lemma PrimeBound(t: nat)
    requires t < 64
    ensures Prime(t) < 324
  {
    PrimesFrom56();
    Grow(t, 63);
  }

  lemma {:induction false} Grow(t: nat, u: nat)
    requires t <= u
    ensures Prime(t) <= Prime(u)
    decreases u
  {
    if t < u {
      Grow(t, u - 1);
      AtLeast(Prime(u - 1));
    }
  }

  // ----- the constants

  function Cube(n: nat): nat {
    n * n * n
  }

  /** The first 32 bits of the fraction of the cube root of p: with w the whole part, the cube root times 2^32,
      rounded down, is w * 2^32 + k. */
  predicate IsCubeRootFraction(k: nat, p: nat, w: nat) {
    && k < 0x1_0000_0000
    && Cube(w * 0x1_0000_0000 + k) <= p * 0x1_0000_0000_0000_0000_0000_0000 < Cube(w * 0x1_0000_0000 + k + 1)
  }

  /** The whole part of the cube root. */
  function CubeRoot(p: nat): nat {
    if p < 8 then 1 else if p < 27 then 2 else if p < 64 then 3 else if p < 125 then 4 else if p < 216 then 5 else 6
  }

  lemma KeysFrom0(t: nat)
    requires 0 <= t < 8
    ensures IsCubeRootFraction(RoundKey(t) as nat, Prime(t), CubeRoot(Prime(t)))
  {
    PrimesFrom0();
    hide Prime;
  }

  lemma KeysFrom8(t: nat)
    requires 8 <= t < 16
    ensures IsCubeRootFraction(RoundKey(t) as nat, Prime(t), CubeRoot(Prime(t)))
  {
    PrimesFrom8();
    hide Prime;
  }

  lemma KeysFrom16(t: nat)
    requires 16 <= t < 24
    ensures IsCubeRootFraction(RoundKey(t) as nat, Prime(t), CubeRoot(Prime(t)))
  {
    PrimesFrom16();
    hide Prime;
  }

  lemma KeysFrom24(t: nat)
    requires 24 <= t < 32
    ensures IsCubeRootFraction(RoundKey(t) as nat, Prime(t), CubeRoot(Prime(t)))
  {
    PrimesFrom24();
    hide Prime;
  }

  lemma KeysFrom32(t: nat)
    requires 32 <= t < 40
    ensures IsCubeRootFraction(RoundKey(t) as nat, Prime(t), CubeRoot(Prime(t)))
  {
    PrimesFrom32();
    hide Prime;
  }

  lemma KeysFrom40(t: nat)
    requires 40 <= t < 48
    ensures IsCubeRootFraction(RoundKey(t) as nat, Prime(t), CubeRoot(Prime(t)))
  {
    PrimesFrom40();
    hide Prime;
  }

  lemma KeysFrom48(t: nat)
    requires 48 <= t < 56
    ensures IsCubeRootFraction(RoundKey(t) as nat, Prime(t), CubeRoot(Prime(t)))
  {
    PrimesFrom48();
    hide Prime;
  }

  lemma KeysFrom56(t: nat)
    requires 56 <= t < 64
    ensures IsCubeRootFraction(RoundKey(t) as nat, Prime(t), CubeRoot(Prime(t)))
  {
    PrimesFrom56();
    hide Prime;
  }

  /** Every round constant: the first 32 bits of the fraction of the cube root of the t-th prime. */
  lemma RoundKeysAreCubeRoots(t: nat)
    requires t < 64
    ensures IsCubeRootFraction(RoundKey(t) as nat, Prime(t), CubeRoot(Prime(t)))
  {
    hide RoundKey, Prime, IsCubeRootFraction, CubeRoot;
    match t / 8 {
      case 0 => KeysFrom0(t);
      case 1 => KeysFrom8(t);
      case 2 => KeysFrom16(t);
      case 3 => KeysFrom24(t);
      case 4 => KeysFrom32(t);
      case 5 => KeysFrom40(t);
      case 6 => KeysFrom48(t);
      case _ => KeysFrom56(t);
    }
  }

  /** The same of a square root. */
  predicate IsSquareRootFraction(k: nat, p: nat, w: nat) {
    var root := w * 0x1_0000_0000 + k;
    k < 0x1_0000_0000 && root * root <= p * 0x1_0000_0000_0000_0000 < (root + 1) * (root + 1)
  }

  /** The initial hash: the square roots of the first eight primes. */
  lemma InitialIsSquareRoots(i: nat)
    requires i < 8
    ensures IsSquareRootFraction(INITIAL[i] as nat, Prime(i), SquareRoot(Prime(i)))
  {
    PrimesFrom0();
    hide Prime;
  }

  /** The whole part of the square root, up to 24. */
  function SquareRoot(p: nat): nat {
    if p < 4 then 1 else if p < 9 then 2 else if p < 16 then 3 else 4
  }
}

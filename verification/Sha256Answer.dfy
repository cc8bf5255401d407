/** A known answer: the digest of "abc", which the tests of both drivers have. It depends on every constant,
    rotation and order of bytes. */
module Sha256Answer {
  import opened Bytes
  import opened Sha256

  /** The one block of the padded message. */
  function Abc(): Block {
    [0x61, 0x62, 0x63, 0x80] + Zeros(59) + [24]
  }

  /** Its message schedule. */
  function Words(): seq<Word> {
    seq(64, t requires 0 <= t < 64 => Schedule(Abc(), t))
  }

  predicate Scheduled(t: nat, w: Word) {
    t < 64 && |Words()| == 64 && Words()[t] == w
  }

  lemma EarlyWord(t: nat, a: Byte, b: Byte, c: Byte, d: Byte)
    requires t < 16
    requires Abc()[4 * t] == a && Abc()[4 * t + 1] == b && Abc()[4 * t + 2] == c && Abc()[4 * t + 3] == d
    ensures Scheduled(t, FromBe(a, b, c, d))
  {
    hide Abc, FromBe;
  }

  lemma FirstWords()
    ensures Scheduled(0, 0x61626380) && Scheduled(15, 24)
    ensures forall t :: 1 <= t < 15 ==> Scheduled(t, 0)
  {
    hide Scheduled, FromBe;
    EarlyWord(0, 0x61, 0x62, 0x63, 0x80);
    EarlyWord(15, 0, 0, 0, 24);
    WordsFromBytes();
    forall t | 1 <= t < 15 ensures Scheduled(t, 0) {
      EarlyWord(t, 0, 0, 0, 0);
    }
  }

  lemma WordsFromBytes()
    ensures FromBe(0, 0, 0, 0) == 0 && FromBe(0, 0, 0, 24) == 24 && FromBe(0x61, 0x62, 0x63, 0x80) == 0x61626380
  {
  }

  /** One more word of the schedule. */
  lemma OneWord(t: nat, w16: Word, w15: Word, w7: Word, w2: Word, w: Word)
    requires 16 <= t < 64
    requires Scheduled(t - 16, w16) && Scheduled(t - 15, w15) && Scheduled(t - 7, w7) && Scheduled(t - 2, w2)
    requires Add(Add(Add(w16, SmallSigma0(w15)), w7), SmallSigma1(w2)) == w
    ensures Scheduled(t, w)
  {
    hide Abc, Add, SmallSigma0, SmallSigma1;
  }

  /** One more round; only the first and the fifth variable are new. */
  lemma OneRound(t: nat, k: Word, w: Word, a: Word, e: Word)
    requires t < 64 && RoundKey(t) == k && Scheduled(t, w)
    requires var v := Rounds(INITIAL, Abc(), t); Round(v, k, w) == Vars(a, v.a, v.b, v.c, e, v.e, v.f, v.g)
    ensures var v := Rounds(INITIAL, Abc(), t);
            Rounds(INITIAL, Abc(), t + 1) == Vars(a, v.a, v.b, v.c, e, v.e, v.f, v.g)
  {
    hide Abc, Round, RoundKey, Schedule;
  }

  lemma WordsTo20()
    ensures Scheduled(16, 0x61626380) && Scheduled(17, 0xf0000)
    ensures Scheduled(18, 0x7da86405) && Scheduled(19, 0x600003c6)
  {
    hide Scheduled;
    FirstWords();
    OneWord(16, 0x61626380, 0x0, 0x0, 0x0, 0x61626380);
    OneWord(17, 0x0, 0x0, 0x0, 0x18, 0xf0000);
    OneWord(18, 0x0, 0x0, 0x0, 0x61626380, 0x7da86405);
    OneWord(19, 0x0, 0x0, 0x0, 0xf0000, 0x600003c6);
  }

  lemma WordsTo24()
    ensures Scheduled(20, 0x3e9d7b78) && Scheduled(21, 0x183fc00)
    ensures Scheduled(22, 0x12dcbfdb) && Scheduled(23, 0xe2e2c38e)
  {
    hide Scheduled;
    FirstWords();
    WordsTo20();
    OneWord(20, 0x0, 0x0, 0x0, 0x7da86405, 0x3e9d7b78);
    OneWord(21, 0x0, 0x0, 0x0, 0x600003c6, 0x183fc00);
    OneWord(22, 0x0, 0x0, 0x18, 0x3e9d7b78, 0x12dcbfdb);
    OneWord(23, 0x0, 0x0, 0x61626380, 0x183fc00, 0xe2e2c38e);
  }

  lemma WordsTo28()
    ensures Scheduled(24, 0xc8215c1a) && Scheduled(25, 0xb73679a2)
    ensures Scheduled(26, 0xe5bc3909) && Scheduled(27, 0x32663c5b)
  {
    hide Scheduled;
    FirstWords();
    WordsTo20();
    WordsTo24();
    OneWord(24, 0x0, 0x0, 0xf0000, 0x12dcbfdb, 0xc8215c1a);
    OneWord(25, 0x0, 0x0, 0x7da86405, 0xe2e2c38e, 0xb73679a2);
    OneWord(26, 0x0, 0x0, 0x600003c6, 0xc8215c1a, 0xe5bc3909);
    OneWord(27, 0x0, 0x0, 0x3e9d7b78, 0xb73679a2, 0x32663c5b);
  }

  lemma WordsTo32()
    ensures Scheduled(28, 0x9d209d67) && Scheduled(29, 0xec8726cb)
    ensures Scheduled(30, 0x702138a4) && Scheduled(31, 0xd3b7973b)
  {
    hide Scheduled;
    FirstWords();
    WordsTo20();
    WordsTo24();
    WordsTo28();
    OneWord(28, 0x0, 0x0, 0x183fc00, 0xe5bc3909, 0x9d209d67);
    OneWord(29, 0x0, 0x0, 0x12dcbfdb, 0x32663c5b, 0xec8726cb);
    OneWord(30, 0x0, 0x18, 0xe2e2c38e, 0x9d209d67, 0x702138a4);
    OneWord(31, 0x18, 0x61626380, 0xc8215c1a, 0xec8726cb, 0xd3b7973b);
  }

  lemma WordsTo36()
    ensures Scheduled(32, 0x93f5997f) && Scheduled(33, 0x3b68ba73)
    ensures Scheduled(34, 0xaff4ffc1) && Scheduled(35, 0xf10a5c62)
  {
    hide Scheduled;
    WordsTo20();
    WordsTo24();
    WordsTo28();
    WordsTo32();
    OneWord(32, 0x61626380, 0xf0000, 0xb73679a2, 0x702138a4, 0x93f5997f);
    OneWord(33, 0xf0000, 0x7da86405, 0xe5bc3909, 0xd3b7973b, 0x3b68ba73);
    OneWord(34, 0x7da86405, 0x600003c6, 0x32663c5b, 0x93f5997f, 0xaff4ffc1);
    OneWord(35, 0x600003c6, 0x3e9d7b78, 0x9d209d67, 0x3b68ba73, 0xf10a5c62);
  }

  lemma WordsTo40()
    ensures Scheduled(36, 0xa8b3996) && Scheduled(37, 0x72af830a)
    ensures Scheduled(38, 0x9409e33e) && Scheduled(39, 0x24641522)
  {
    hide Scheduled;
    WordsTo24();
    WordsTo28();
    WordsTo32();
    WordsTo36();
    OneWord(36, 0x3e9d7b78, 0x183fc00, 0xec8726cb, 0xaff4ffc1, 0xa8b3996);
    OneWord(37, 0x183fc00, 0x12dcbfdb, 0x702138a4, 0xf10a5c62, 0x72af830a);
    OneWord(38, 0x12dcbfdb, 0xe2e2c38e, 0xd3b7973b, 0xa8b3996, 0x9409e33e);
    OneWord(39, 0xe2e2c38e, 0xc8215c1a, 0x93f5997f, 0x72af830a, 0x24641522);
  }

  lemma WordsTo44()
    ensures Scheduled(40, 0x9f47bf94) && Scheduled(41, 0xf0a64f5a)
    ensures Scheduled(42, 0x3e246a79) && Scheduled(43, 0x27333ba3)
  {
    hide Scheduled;
    WordsTo28();
    WordsTo32();
    WordsTo36();
    WordsTo40();
    OneWord(40, 0xc8215c1a, 0xb73679a2, 0x3b68ba73, 0x9409e33e, 0x9f47bf94);
    OneWord(41, 0xb73679a2, 0xe5bc3909, 0xaff4ffc1, 0x24641522, 0xf0a64f5a);
    OneWord(42, 0xe5bc3909, 0x32663c5b, 0xf10a5c62, 0x9f47bf94, 0x3e246a79);
    OneWord(43, 0x32663c5b, 0x9d209d67, 0xa8b3996, 0xf0a64f5a, 0x27333ba3);
  }

  lemma WordsTo48()
    ensures Scheduled(44, 0xc4763f2) && Scheduled(45, 0x840abf27)
    ensures Scheduled(46, 0x7a290d5d) && Scheduled(47, 0x65c43da)
  {
    hide Scheduled;
    WordsTo32();
    WordsTo36();
    WordsTo40();
    WordsTo44();
    OneWord(44, 0x9d209d67, 0xec8726cb, 0x72af830a, 0x3e246a79, 0xc4763f2);
    OneWord(45, 0xec8726cb, 0x702138a4, 0x9409e33e, 0x27333ba3, 0x840abf27);
    OneWord(46, 0x702138a4, 0xd3b7973b, 0x24641522, 0xc4763f2, 0x7a290d5d);
    OneWord(47, 0xd3b7973b, 0x93f5997f, 0x9f47bf94, 0x840abf27, 0x65c43da);
  }

  lemma WordsTo52()
    ensures Scheduled(48, 0xfb3e89cb) && Scheduled(49, 0xcc7617db)
    ensures Scheduled(50, 0xb9e66c34) && Scheduled(51, 0xa9993667)
  {
    hide Scheduled;
    WordsTo36();
    WordsTo40();
    WordsTo44();
    WordsTo48();
    OneWord(48, 0x93f5997f, 0x3b68ba73, 0xf0a64f5a, 0x7a290d5d, 0xfb3e89cb);
    OneWord(49, 0x3b68ba73, 0xaff4ffc1, 0x3e246a79, 0x65c43da, 0xcc7617db);
    OneWord(50, 0xaff4ffc1, 0xf10a5c62, 0x27333ba3, 0xfb3e89cb, 0xb9e66c34);
    OneWord(51, 0xf10a5c62, 0xa8b3996, 0xc4763f2, 0xcc7617db, 0xa9993667);
  }

  lemma WordsTo56()
    ensures Scheduled(52, 0x84badedd) && Scheduled(53, 0xc21462bc)
    ensures Scheduled(54, 0x1487472c) && Scheduled(55, 0xb20f7a99)
  {
    hide Scheduled;
    WordsTo40();
    WordsTo44();
    WordsTo48();
    WordsTo52();
    OneWord(52, 0xa8b3996, 0x72af830a, 0x840abf27, 0xb9e66c34, 0x84badedd);
    OneWord(53, 0x72af830a, 0x9409e33e, 0x7a290d5d, 0xa9993667, 0xc21462bc);
    OneWord(54, 0x9409e33e, 0x24641522, 0x65c43da, 0x84badedd, 0x1487472c);
    OneWord(55, 0x24641522, 0x9f47bf94, 0xfb3e89cb, 0xc21462bc, 0xb20f7a99);
  }

  lemma WordsTo60()
    ensures Scheduled(56, 0xef57b9cd) && Scheduled(57, 0xebe6b238)
    ensures Scheduled(58, 0x9fe3095e) && Scheduled(59, 0x78bc8d4b)
  {
    hide Scheduled;
    WordsTo44();
    WordsTo48();
    WordsTo52();
    WordsTo56();
    OneWord(56, 0x9f47bf94, 0xf0a64f5a, 0xcc7617db, 0x1487472c, 0xef57b9cd);
    OneWord(57, 0xf0a64f5a, 0x3e246a79, 0xb9e66c34, 0xb20f7a99, 0xebe6b238);
    OneWord(58, 0x3e246a79, 0x27333ba3, 0xa9993667, 0xef57b9cd, 0x9fe3095e);
    OneWord(59, 0x27333ba3, 0xc4763f2, 0x84badedd, 0xebe6b238, 0x78bc8d4b);
  }

  lemma WordsTo64()
    ensures Scheduled(60, 0xa43fcf15) && Scheduled(61, 0x668b2ff8)
    ensures Scheduled(62, 0xeeaba2cc) && Scheduled(63, 0x12b1edeb)
  {
    hide Scheduled;
    WordsTo48();
    WordsTo52();
    WordsTo56();
    WordsTo60();
    OneWord(60, 0xc4763f2, 0x840abf27, 0xc21462bc, 0x9fe3095e, 0xa43fcf15);
    OneWord(61, 0x840abf27, 0x7a290d5d, 0x1487472c, 0x78bc8d4b, 0x668b2ff8);
    OneWord(62, 0x7a290d5d, 0x65c43da, 0xb20f7a99, 0xa43fcf15, 0xeeaba2cc);
    OneWord(63, 0x65c43da, 0xfb3e89cb, 0xef57b9cd, 0x668b2ff8, 0x12b1edeb);
  }

  lemma RoundsTo0()
    ensures Rounds(INITIAL, Abc(), 0) ==
              Vars(0x6a09e667, 0xbb67ae85, 0x3c6ef372, 0xa54ff53a, 0x510e527f, 0x9b05688c, 0x1f83d9ab, 0x5be0cd19)
  {
    hide Abc;
  }

  lemma RoundsTo4()
    ensures Rounds(INITIAL, Abc(), 4) ==
              Vars(0xd550f666, 0xc8c347a7, 0x5a6ad9ad, 0x5d6aebcd, 0x24e00850, 0xf92939eb, 0x78ce7989, 0xfa2a4622)
  {
    FirstWords();
    RoundsTo0();
    hide Rounds, Schedule, Abc;
    OneRound(0, 0x428a2f98, 0x61626380, 0x5d6aebcd, 0xfa2a4622);
    OneRound(1, 0x71374491, 0x0, 0x5a6ad9ad, 0x78ce7989);
    OneRound(2, 0xb5c0fbcf, 0x0, 0xc8c347a7, 0xf92939eb);
    OneRound(3, 0xe9b5dba5, 0x0, 0xd550f666, 0x24e00850);
  }

  lemma RoundsTo8()
    ensures Rounds(INITIAL, Abc(), 8) ==
              Vars(0x85a07b5f, 0xe5030380, 0x2b4209f5, 0x4409a6a, 0xc657a79, 0x9b27a401, 0x714260ad, 0x43ada245)
  {
    RoundsTo4();
    FirstWords();
    hide Rounds, Schedule, Abc;
    OneRound(4, 0x3956c25b, 0x0, 0x4409a6a, 0x43ada245);
    OneRound(5, 0x59f111f1, 0x0, 0x2b4209f5, 0x714260ad);
    OneRound(6, 0x923f82a4, 0x0, 0xe5030380, 0x9b27a401);
    OneRound(7, 0xab1c5ed5, 0x0, 0x85a07b5f, 0xc657a79);
  }

  lemma RoundsTo12()
    ensures Rounds(INITIAL, Abc(), 12) ==
              Vars(0xf71fc5a9, 0x4798a3f4, 0x8c87346b, 0x8e04ecb9, 0x816fd6e9, 0x436b23e8, 0x1cc92596, 0x32ca2d8c)
  {
    RoundsTo8();
    FirstWords();
    hide Rounds, Schedule, Abc;
    OneRound(8, 0xd807aa98, 0x0, 0x8e04ecb9, 0x32ca2d8c);
    OneRound(9, 0x12835b01, 0x0, 0x8c87346b, 0x1cc92596);
    OneRound(10, 0x243185be, 0x0, 0x4798a3f4, 0x436b23e8);
    OneRound(11, 0x550c7dc3, 0x0, 0xf71fc5a9, 0x816fd6e9);
  }

  lemma RoundsTo16()
    ensures Rounds(INITIAL, Abc(), 16) ==
              Vars(0xb0fa238e, 0xc0645fde, 0xd932eb16, 0x87912990, 0x7590dcd, 0xb92f20c, 0x745a48de, 0x1e578218)
  {
    RoundsTo12();
    FirstWords();
    hide Rounds, Schedule, Abc;
    OneRound(12, 0x72be5d74, 0x0, 0x87912990, 0x1e578218);
    OneRound(13, 0x80deb1fe, 0x0, 0xd932eb16, 0x745a48de);
    OneRound(14, 0x9bdc06a7, 0x0, 0xc0645fde, 0xb92f20c);
    OneRound(15, 0xc19bf174, 0x18, 0xb0fa238e, 0x7590dcd);
  }

  lemma RoundsTo20()
    ensures Rounds(INITIAL, Abc(), 20) ==
              Vars(0xe1f20c33, 0xfe777bbf, 0xc2fbd9d1, 0x21da9a9b, 0xb0638179, 0xcc899961, 0x846ee454, 0x8034229c)
  {
    RoundsTo16();
    WordsTo20();
    hide Rounds, Schedule, Abc;
    OneRound(16, 0xe49b69c1, 0x61626380, 0x21da9a9b, 0x8034229c);
    OneRound(17, 0xefbe4786, 0xf0000, 0xc2fbd9d1, 0x846ee454);
    OneRound(18, 0xfc19dc6, 0x7da86405, 0xfe777bbf, 0xcc899961);
    OneRound(19, 0x240ca1cc, 0x600003c6, 0xe1f20c33, 0xb0638179);
  }

  lemma RoundsTo24()
    ensures Rounds(INITIAL, Abc(), 24) ==
              Vars(0xc5d53d8d, 0xa7a3623f, 0xc2606d6d, 0x9dc68b63, 0xaa47c347, 0x49f5114a, 0xe1257970, 0x8ada8930)
  {
    RoundsTo20();
    WordsTo24();
    hide Rounds, Schedule, Abc;
    OneRound(20, 0x2de92c6f, 0x3e9d7b78, 0x9dc68b63, 0x8ada8930);
    OneRound(21, 0x4a7484aa, 0x183fc00, 0xc2606d6d, 0xe1257970);
    OneRound(22, 0x5cb0a9dc, 0x12dcbfdb, 0xa7a3623f, 0x49f5114a);
    OneRound(23, 0x76f988da, 0xe2e2c38e, 0xc5d53d8d, 0xaa47c347);
  }

  lemma RoundsTo28()
    ensures Rounds(INITIAL, Abc(), 28) ==
              Vars(0x77d37528, 0xb62ec4bc, 0xcde8037d, 0x1c2c2838, 0xedffbff8, 0xc74c6516, 0x14383d8e, 0x2823ef91)
  {
    RoundsTo24();
    WordsTo28();
    hide Rounds, Schedule, Abc;
    OneRound(24, 0x983e5152, 0xc8215c1a, 0x1c2c2838, 0x2823ef91);
    OneRound(25, 0xa831c66d, 0xb73679a2, 0xcde8037d, 0x14383d8e);
    OneRound(26, 0xb00327c8, 0xe5bc3909, 0xb62ec4bc, 0xc74c6516);
    OneRound(27, 0xbf597fc7, 0x32663c5b, 0x77d37528, 0xedffbff8);
  }

  lemma RoundsTo32()
    ensures Rounds(INITIAL, Abc(), 32) ==
              Vars(0x73b33bf5, 0xea992a22, 0xa0060b30, 0x363482c9, 0xba591112, 0x109ab3a, 0xade79437, 0x6112a3b7)
  {
    RoundsTo28();
    WordsTo32();
    hide Rounds, Schedule, Abc;
    OneRound(28, 0xc6e00bf3, 0x9d209d67, 0x363482c9, 0x6112a3b7);
    OneRound(29, 0xd5a79147, 0xec8726cb, 0xa0060b30, 0xade79437);
    OneRound(30, 0x6ca6351, 0x702138a4, 0xea992a22, 0x109ab3a);
    OneRound(31, 0x14292967, 0xd3b7973b, 0x73b33bf5, 0xba591112);
  }

  lemma RoundsTo36()
    ensures Rounds(INITIAL, Abc(), 36) ==
              Vars(0x65a0cfe4, 0xa9a7738c, 0xfe604df5, 0x98e12507, 0xf4b002d6, 0x85f3833, 0x59249dd3, 0x9cd9f5f6)
  {
    RoundsTo32();
    WordsTo36();
    hide Rounds, Schedule, Abc;
    OneRound(32, 0x27b70a85, 0x93f5997f, 0x98e12507, 0x9cd9f5f6);
    OneRound(33, 0x2e1b2138, 0x3b68ba73, 0xfe604df5, 0x59249dd3);
    OneRound(34, 0x4d2c6dfc, 0xaff4ffc1, 0xa9a7738c, 0x85f3833);
    OneRound(35, 0x53380d13, 0xf10a5c62, 0x65a0cfe4, 0xf4b002d6);
  }

  lemma RoundsTo40()
    ensures Rounds(INITIAL, Abc(), 40) ==
              Vars(0x79ea687a, 0x6dc57a8a, 0x34df1604, 0x41a65cb1, 0x1efbc0a0, 0xf0781bc8, 0xa507a53d, 0x772a26b)
  {
    RoundsTo36();
    WordsTo40();
    hide Rounds, Schedule, Abc;
    OneRound(36, 0x650a7354, 0xa8b3996, 0x41a65cb1, 0x772a26b);
    OneRound(37, 0x766a0abb, 0x72af830a, 0x34df1604, 0xa507a53d);
    OneRound(38, 0x81c2c92e, 0x9409e33e, 0x6dc57a8a, 0xf0781bc8);
    OneRound(39, 0x92722c85, 0x24641522, 0x79ea687a, 0x1efbc0a0);
  }

  lemma RoundsTo44()
    ensures Rounds(INITIAL, Abc(), 44) ==
              Vars(0x9d4baf93, 0x17aa0dfe, 0xdf46652f, 0xd6670766, 0xfda24c2e, 0xdecd4715, 0x838b2711, 0x26352d63)
  {
    RoundsTo40();
    WordsTo44();
    hide Rounds, Schedule, Abc;
    OneRound(40, 0xa2bfe8a1, 0x9f47bf94, 0xd6670766, 0x26352d63);
    OneRound(41, 0xa81a664b, 0xf0a64f5a, 0xdf46652f, 0x838b2711);
    OneRound(42, 0xc24b8b70, 0x3e246a79, 0x17aa0dfe, 0xdecd4715);
    OneRound(43, 0xc76c51a3, 0x27333ba3, 0x9d4baf93, 0xfda24c2e);
  }

  lemma RoundsTo48()
    ensures Rounds(INITIAL, Abc(), 48) ==
              Vars(0x4172328d, 0xa14c14b0, 0x72ab4b91, 0x26628815, 0xfecf0bc6, 0xd57b94a9, 0xb7755da1, 0xa80f11f0)
  {
    RoundsTo44();
    WordsTo48();
    hide Rounds, Schedule, Abc;
    OneRound(44, 0xd192e819, 0xc4763f2, 0x26628815, 0xa80f11f0);
    OneRound(45, 0xd6990624, 0x840abf27, 0x72ab4b91, 0xb7755da1);
    OneRound(46, 0xf40e3585, 0x7a290d5d, 0xa14c14b0, 0xd57b94a9);
    OneRound(47, 0x106aa070, 0x65c43da, 0x4172328d, 0xfecf0bc6);
  }

  lemma RoundsTo52()
    ensures Rounds(INITIAL, Abc(), 52) ==
              Vars(0x886e7a22, 0x7a0508a1, 0xf11bfaa8, 0x5757ceb, 0x49231c1e, 0x52f1ccf7, 0x6e5c390c, 0xbd714038)
  {
    RoundsTo48();
    WordsTo52();
    hide Rounds, Schedule, Abc;
    OneRound(48, 0x19a4c116, 0xfb3e89cb, 0x5757ceb, 0xbd714038);
    OneRound(49, 0x1e376c08, 0xcc7617db, 0xf11bfaa8, 0x6e5c390c);
    OneRound(50, 0x2748774c, 0xb9e66c34, 0x7a0508a1, 0x52f1ccf7);
    OneRound(51, 0x34b0bcb5, 0xa9993667, 0x886e7a22, 0x49231c1e);
  }

  lemma RoundsTo56()
    ensures Rounds(INITIAL, Abc(), 56) ==
              Vars(0x38cc9913, 0x3ec45cdb, 0xf5702fdb, 0x101fd28f, 0x54cb266b, 0xe50e1b4f, 0x9f4787c3, 0x529e7d00)
  {
    RoundsTo52();
    WordsTo56();
    hide Rounds, Schedule, Abc;
    OneRound(52, 0x391c0cb3, 0x84badedd, 0x101fd28f, 0x529e7d00);
    OneRound(53, 0x4ed8aa4a, 0xc21462bc, 0xf5702fdb, 0x9f4787c3);
    OneRound(54, 0x5b9cca4f, 0x1487472c, 0x3ec45cdb, 0xe50e1b4f);
    OneRound(55, 0x682e6ff3, 0xb20f7a99, 0x38cc9913, 0x54cb266b);
  }

  lemma RoundsTo60()
    ensures Rounds(INITIAL, Abc(), 60) ==
              Vars(0xb6ae8fff, 0xffb70472, 0xc062d46f, 0xfcd1887b, 0xb21bad3d, 0x6d83bfc6, 0x7e44008e, 0x9b5e906c)
  {
    RoundsTo56();
    WordsTo60();
    hide Rounds, Schedule, Abc;
    OneRound(56, 0x748f82ee, 0xef57b9cd, 0xfcd1887b, 0x9b5e906c);
    OneRound(57, 0x78a5636f, 0xebe6b238, 0xc062d46f, 0x7e44008e);
    OneRound(58, 0x84c87814, 0x9fe3095e, 0xffb70472, 0x6d83bfc6);
    OneRound(59, 0x8cc70208, 0x78bc8d4b, 0xb6ae8fff, 0xb21bad3d);
  }

  lemma RoundsTo64()
    ensures Rounds(INITIAL, Abc(), 64) ==
              Vars(0x506e3058, 0xd39a2165, 0x4d24d6c, 0xb85e2ce9, 0x5ef50f24, 0xfb121210, 0x948d25b6, 0x961f4894)
  {
    RoundsTo60();
    WordsTo64();
    hide Rounds, Schedule, Abc;
    OneRound(60, 0x90befffa, 0xa43fcf15, 0xb85e2ce9, 0x961f4894);
    OneRound(61, 0xa4506ceb, 0x668b2ff8, 0x4d24d6c, 0x948d25b6);
    OneRound(62, 0xbef9a3f7, 0xeeaba2cc, 0xd39a2165, 0xfb121210);
    OneRound(63, 0xc67178f2, 0x12b1edeb, 0x506e3058, 0x5ef50f24);
  }

  lemma LastSums()
    ensures Add(0x6a09e667, 0x506e3058) == 0xba7816bf && Add(0xbb67ae85, 0xd39a2165) == 0x8f01cfea
    ensures Add(0x3c6ef372, 0x4d24d6c) == 0x414140de && Add(0xa54ff53a, 0xb85e2ce9) == 0x5dae2223
    ensures Add(0x510e527f, 0x5ef50f24) == 0xb00361a3 && Add(0x9b05688c, 0xfb121210) == 0x96177a9c
    ensures Add(0x1f83d9ab, 0x948d25b6) == 0xb410ff61 && Add(0x5be0cd19, 0x961f4894) == 0xf20015ad
  {
  }

  lemma AbcHash()
    ensures Compress(INITIAL, Abc()) == [
              0xba7816bf, 0x8f01cfea, 0x414140de, 0x5dae2223,
              0xb00361a3, 0x96177a9c, 0xb410ff61, 0xf20015ad]
  {
    RoundsTo64();
    hide Rounds, Abc, Add;
    LastSums();
  }

  /** The padded message is that block. */
  lemma AbcPadded()
    ensures [0x61, 0x62, 0x63] + Padding(3) == Abc()
  {
    BitLengthOf3();
    hide BitLength;
    assert Zeros(52) + ([0, 0, 0, 0, 0, 0, 0] + [24]) == Zeros(59) + [24];
  }

  lemma BitLengthOf3()
    ensures BitLength(3) == [0, 0, 0, 0, 0, 0, 0, 24]
  {
    ZeroBytes(7);
    assert Be(24, 8) == Be(0, 7) + [24];
    assert Zeros(7) == [0, 0, 0, 0, 0, 0, 0];
  }

  lemma {:induction false} ZeroBytes(width: nat)
    ensures Be(0, width) == Zeros(width)
  {
    if width > 0 {
      ZeroBytes(width - 1);
    }
  }

  lemma OneMoreWord(s: seq<Word>, n: nat)
    requires n < |s|
    ensures Output(s[..n + 1]) == Output(s[..n]) + ToBe(s[n]) && Output(s[..0]) == []
  {
    hide ToBe;
    assert s[..n + 1][..n] == s[..n];
  }

  lemma TwoMoreWords(s: seq<Word>, n: nat)
    requires n + 1 < |s|
    ensures Output(s[..n + 2]) == Output(s[..n]) + ToBe(s[n]) + ToBe(s[n + 1]) && Output(s[..0]) == []
  {
    hide ToBe, Output;
    OneMoreWord(s, n);
    OneMoreWord(s, n + 1);
  }

  lemma FourMoreWords(s: seq<Word>, n: nat)
    requires n + 3 < |s|
    ensures Output(s[..n + 4]) == Output(s[..n]) + ToBe(s[n]) + ToBe(s[n + 1]) + ToBe(s[n + 2]) + ToBe(s[n + 3])
  {
    hide ToBe, Output;
    TwoMoreWords(s, n);
    TwoMoreWords(s, n + 2);
  }

  lemma DigestBytes()
    ensures ToBe(0xba7816bf) == [0xba, 0x78, 0x16, 0xbf]
    ensures ToBe(0x8f01cfea) == [0x8f, 0x1, 0xcf, 0xea]
    ensures ToBe(0x414140de) == [0x41, 0x41, 0x40, 0xde]
    ensures ToBe(0x5dae2223) == [0x5d, 0xae, 0x22, 0x23]
    ensures ToBe(0xb00361a3) == [0xb0, 0x3, 0x61, 0xa3]
    ensures ToBe(0x96177a9c) == [0x96, 0x17, 0x7a, 0x9c]
    ensures ToBe(0xb410ff61) == [0xb4, 0x10, 0xff, 0x61]
    ensures ToBe(0xf20015ad) == [0xf2, 0x0, 0x15, 0xad]
  {
  }

  /** A message that is padded to one block. */
  lemma OneBlock(message: seq<Byte>, block: Block)
    requires message + Padding(|message|) == block
    ensures Digest(message) == Output(Compress(INITIAL, block))
  {
    hide Compress, Padding, Output;
    assert block[..64] == block && block[64..] == [];
    var h := Compress(INITIAL, block);
    assert Fold(h, []) == h;
    assert Fold(INITIAL, block) == Fold(h, []);
  }

  lemma HashBytes(h: Hash)
    ensures Output(h) ==
              [] + ToBe(h[0]) + ToBe(h[1]) + ToBe(h[2]) + ToBe(h[3]) + ToBe(h[4]) + ToBe(h[5]) + ToBe(h[6]) + ToBe(h[7])
  {
    hide Output, ToBe;
    assert h[..8] == h;
    FourMoreWords(h, 0);
    FourMoreWords(h, 4);
    TwoMoreWords(h, 0);
  }

  /** SHA-256 of "abc". */
  lemma DigestOfAbc()
    ensures Digest([0x61, 0x62, 0x63]) == [
              0xba, 0x78, 0x16, 0xbf, 0x8f, 0x1, 0xcf, 0xea, 0x41, 0x41, 0x40, 0xde, 0x5d, 0xae, 0x22, 0x23,
              0xb0, 0x3, 0x61, 0xa3, 0x96, 0x17, 0x7a, 0x9c, 0xb4, 0x10, 0xff, 0x61, 0xf2, 0x0, 0x15, 0xad]
  {
    AbcHash();
    AbcPadded();
    hide Compress, Abc, Output, ToBe, Digest, Padding;
    var h := Compress(INITIAL, Abc());
    OneBlock([0x61, 0x62, 0x63], Abc());
    HashBytes(h);
    DigestBytes();
  }
}

/** The known answer of FIPS 180-4 for the message "abc": its schedule and its 64 rounds, one
    step at a time, down to the published digest. */
module Sha256Answer {
  import opened Bytes
  import opened Sha256

  /** The one padded block of "abc". */
  function AbcBlock(): (b: Block) {
    [0x61, 0x62, 0x63, 0x80] + Zeros(59) + [0x18]
  }

  lemma {:induction false} NoBits(len: nat)
    ensures BigEndianBytes(0, len) == Zeros(len)
  {
    if len > 0 {
      NoBits(len - 1);
    }
  }

  lemma FieldOfAbc()
    ensures LengthField(24) == Zeros(7) + [0x18]
  {
    NoBits(7);
  }

  lemma AbcPadded()
    ensures Padded([0x61, 0x62, 0x63]) == AbcBlock()
  {
    hide Zeros, LengthField, ZeroCount;
    FieldOfAbc();
    assert ZeroCount(3) == 52;
    ZerosJoin(52, 7);
    assert [0x61, 0x62, 0x63] + [0x80] == [0x61, 0x62, 0x63, 0x80];
  }

  lemma ZerosJoin(m: nat, n: nat)
    ensures Zeros(m) + Zeros(n) == Zeros(m + n)
  {
  }

  lemma ScheduleStep(b: Block, t: nat, w2: word, w7: word, w15: word, w16: word)
    requires t >= 16 && Schedule(b, t - 2) == w2 && Schedule(b, t - 7) == w7
    requires Schedule(b, t - 15) == w15 && Schedule(b, t - 16) == w16
    ensures Schedule(b, t) == Sum(Sum(Sum(SmallSigma1(w2), w7), SmallSigma0(w15)), w16)
  {
    hide Sum, SmallSigma0, SmallSigma1;
  }

  lemma RoundStep(b: Block, t: nat, k: word, w: word, v: Working)
    requires t < 64 && Rounds(InitialHash(), b, t) == v && RoundConstant(t) == k && Schedule(b, t) == w
    ensures Rounds(InitialHash(), b, t + 1) == Round(v, k, w)
  {
    hide Round, RoundConstant, InitialHash, Schedule;
  }

  lemma FirstWords(b: Block)
    requires b == AbcBlock()
    ensures Schedule(b, 0) == 0x61626380 && Schedule(b, 15) == 0x00000018
    ensures forall t :: 0 < t < 15 ==> Schedule(b, t) == 0
  {
    hide BigEndian, ByteAt;
    WordReadsBack(0x61626380);
    WordReadsBack(0);
    WordReadsBack(0x18);
    BytesOfWords();
    assert Schedule(b, 0) == BigEndian(0x61, 0x62, 0x63, 0x80);
    assert Schedule(b, 15) == BigEndian(0, 0, 0, 0x18);
    forall t | 0 < t < 15 ensures Schedule(b, t) == 0 {
      assert Schedule(b, t) == BigEndian(0, 0, 0, 0);
    }
  }

  lemma BytesOfWords()
    ensures ByteAt(0x61626380, 24) == 0x61 && ByteAt(0x61626380, 16) == 0x62
    ensures ByteAt(0x61626380, 8) == 0x63 && ByteAt(0x61626380, 0) == 0x80
    ensures ByteAt(0, 24) == 0 && ByteAt(0, 16) == 0 && ByteAt(0, 8) == 0 && ByteAt(0, 0) == 0
    ensures ByteAt(0x18, 24) == 0 && ByteAt(0x18, 16) == 0 && ByteAt(0x18, 8) == 0 && ByteAt(0x18, 0) == 0x18
  {
  }

  lemma Words16(b: Block)
    requires b == AbcBlock()
    ensures Schedule(b, 16) == 0x61626380 && Schedule(b, 17) == 0x000f0000
    ensures Schedule(b, 18) == 0x7da86405 && Schedule(b, 19) == 0x600003c6
  {
    hide Schedule, AbcBlock;
    FirstWords(b);
    ScheduleStep(b, 16, 0x00000000, 0x00000000, 0x00000000, 0x61626380);
    ScheduleStep(b, 17, 0x00000018, 0x00000000, 0x00000000, 0x00000000);
    ScheduleStep(b, 18, 0x61626380, 0x00000000, 0x00000000, 0x00000000);
    ScheduleStep(b, 19, 0x000f0000, 0x00000000, 0x00000000, 0x00000000);
  }

  lemma Words20(b: Block)
    requires b == AbcBlock()
    ensures Schedule(b, 20) == 0x3e9d7b78 && Schedule(b, 21) == 0x0183fc00
    ensures Schedule(b, 22) == 0x12dcbfdb && Schedule(b, 23) == 0xe2e2c38e
  {
    hide Schedule, AbcBlock;
    FirstWords(b);
    Words16(b);
    ScheduleStep(b, 20, 0x7da86405, 0x00000000, 0x00000000, 0x00000000);
    ScheduleStep(b, 21, 0x600003c6, 0x00000000, 0x00000000, 0x00000000);
    ScheduleStep(b, 22, 0x3e9d7b78, 0x00000018, 0x00000000, 0x00000000);
    ScheduleStep(b, 23, 0x0183fc00, 0x61626380, 0x00000000, 0x00000000);
  }

  lemma Words24(b: Block)
    requires b == AbcBlock()
    ensures Schedule(b, 24) == 0xc8215c1a && Schedule(b, 25) == 0xb73679a2
    ensures Schedule(b, 26) == 0xe5bc3909 && Schedule(b, 27) == 0x32663c5b
  {
    hide Schedule, AbcBlock;
    FirstWords(b);
    Words16(b);
    Words20(b);
    ScheduleStep(b, 24, 0x12dcbfdb, 0x000f0000, 0x00000000, 0x00000000);
    ScheduleStep(b, 25, 0xe2e2c38e, 0x7da86405, 0x00000000, 0x00000000);
    ScheduleStep(b, 26, 0xc8215c1a, 0x600003c6, 0x00000000, 0x00000000);
    ScheduleStep(b, 27, 0xb73679a2, 0x3e9d7b78, 0x00000000, 0x00000000);
  }

  lemma Words28(b: Block)
    requires b == AbcBlock()
    ensures Schedule(b, 28) == 0x9d209d67 && Schedule(b, 29) == 0xec8726cb
    ensures Schedule(b, 30) == 0x702138a4 && Schedule(b, 31) == 0xd3b7973b
  {
    hide Schedule, AbcBlock;
    FirstWords(b);
    Words16(b);
    Words20(b);
    Words24(b);
    ScheduleStep(b, 28, 0xe5bc3909, 0x0183fc00, 0x00000000, 0x00000000);
    ScheduleStep(b, 29, 0x32663c5b, 0x12dcbfdb, 0x00000000, 0x00000000);
    ScheduleStep(b, 30, 0x9d209d67, 0xe2e2c38e, 0x00000018, 0x00000000);
    ScheduleStep(b, 31, 0xec8726cb, 0xc8215c1a, 0x61626380, 0x00000018);
  }

  lemma Words32(b: Block)
    requires b == AbcBlock()
    ensures Schedule(b, 32) == 0x93f5997f && Schedule(b, 33) == 0x3b68ba73
    ensures Schedule(b, 34) == 0xaff4ffc1 && Schedule(b, 35) == 0xf10a5c62
  {
    hide Schedule, AbcBlock;
    Words16(b);
    Words20(b);
    Words24(b);
    Words28(b);
    ScheduleStep(b, 32, 0x702138a4, 0xb73679a2, 0x000f0000, 0x61626380);
    ScheduleStep(b, 33, 0xd3b7973b, 0xe5bc3909, 0x7da86405, 0x000f0000);
    ScheduleStep(b, 34, 0x93f5997f, 0x32663c5b, 0x600003c6, 0x7da86405);
    ScheduleStep(b, 35, 0x3b68ba73, 0x9d209d67, 0x3e9d7b78, 0x600003c6);
  }

  lemma Words36(b: Block)
    requires b == AbcBlock()
    ensures Schedule(b, 36) == 0x0a8b3996 && Schedule(b, 37) == 0x72af830a
    ensures Schedule(b, 38) == 0x9409e33e && Schedule(b, 39) == 0x24641522
  {
    hide Schedule, AbcBlock;
    Words20(b);
    Words24(b);
    Words28(b);
    Words32(b);
    ScheduleStep(b, 36, 0xaff4ffc1, 0xec8726cb, 0x0183fc00, 0x3e9d7b78);
    ScheduleStep(b, 37, 0xf10a5c62, 0x702138a4, 0x12dcbfdb, 0x0183fc00);
    ScheduleStep(b, 38, 0x0a8b3996, 0xd3b7973b, 0xe2e2c38e, 0x12dcbfdb);
    ScheduleStep(b, 39, 0x72af830a, 0x93f5997f, 0xc8215c1a, 0xe2e2c38e);
  }

  lemma Words40(b: Block)
    requires b == AbcBlock()
    ensures Schedule(b, 40) == 0x9f47bf94 && Schedule(b, 41) == 0xf0a64f5a
    ensures Schedule(b, 42) == 0x3e246a79 && Schedule(b, 43) == 0x27333ba3
  {
    hide Schedule, AbcBlock;
    Words24(b);
    Words28(b);
    Words32(b);
    Words36(b);
    ScheduleStep(b, 40, 0x9409e33e, 0x3b68ba73, 0xb73679a2, 0xc8215c1a);
    ScheduleStep(b, 41, 0x24641522, 0xaff4ffc1, 0xe5bc3909, 0xb73679a2);
    ScheduleStep(b, 42, 0x9f47bf94, 0xf10a5c62, 0x32663c5b, 0xe5bc3909);
    ScheduleStep(b, 43, 0xf0a64f5a, 0x0a8b3996, 0x9d209d67, 0x32663c5b);
  }

  lemma Words44(b: Block)
    requires b == AbcBlock()
    ensures Schedule(b, 44) == 0x0c4763f2 && Schedule(b, 45) == 0x840abf27
    ensures Schedule(b, 46) == 0x7a290d5d && Schedule(b, 47) == 0x065c43da
  {
    hide Schedule, AbcBlock;
    Words28(b);
    Words32(b);
    Words36(b);
    Words40(b);
    ScheduleStep(b, 44, 0x3e246a79, 0x72af830a, 0xec8726cb, 0x9d209d67);
    ScheduleStep(b, 45, 0x27333ba3, 0x9409e33e, 0x702138a4, 0xec8726cb);
    ScheduleStep(b, 46, 0x0c4763f2, 0x24641522, 0xd3b7973b, 0x702138a4);
    ScheduleStep(b, 47, 0x840abf27, 0x9f47bf94, 0x93f5997f, 0xd3b7973b);
  }

  lemma Words48(b: Block)
    requires b == AbcBlock()
    ensures Schedule(b, 48) == 0xfb3e89cb && Schedule(b, 49) == 0xcc7617db
    ensures Schedule(b, 50) == 0xb9e66c34 && Schedule(b, 51) == 0xa9993667
  {
    hide Schedule, AbcBlock;
    Words32(b);
    Words36(b);
    Words40(b);
    Words44(b);
    ScheduleStep(b, 48, 0x7a290d5d, 0xf0a64f5a, 0x3b68ba73, 0x93f5997f);
    ScheduleStep(b, 49, 0x065c43da, 0x3e246a79, 0xaff4ffc1, 0x3b68ba73);
    ScheduleStep(b, 50, 0xfb3e89cb, 0x27333ba3, 0xf10a5c62, 0xaff4ffc1);
    ScheduleStep(b, 51, 0xcc7617db, 0x0c4763f2, 0x0a8b3996, 0xf10a5c62);
  }

  lemma Words52(b: Block)
    requires b == AbcBlock()
    ensures Schedule(b, 52) == 0x84badedd && Schedule(b, 53) == 0xc21462bc
    ensures Schedule(b, 54) == 0x1487472c && Schedule(b, 55) == 0xb20f7a99
  {
    hide Schedule, AbcBlock;
    Words36(b);
    Words40(b);
    Words44(b);
    Words48(b);
    ScheduleStep(b, 52, 0xb9e66c34, 0x840abf27, 0x72af830a, 0x0a8b3996);
    ScheduleStep(b, 53, 0xa9993667, 0x7a290d5d, 0x9409e33e, 0x72af830a);
    ScheduleStep(b, 54, 0x84badedd, 0x065c43da, 0x24641522, 0x9409e33e);
    ScheduleStep(b, 55, 0xc21462bc, 0xfb3e89cb, 0x9f47bf94, 0x24641522);
  }

  lemma Words56(b: Block)
    requires b == AbcBlock()
    ensures Schedule(b, 56) == 0xef57b9cd && Schedule(b, 57) == 0xebe6b238
    ensures Schedule(b, 58) == 0x9fe3095e && Schedule(b, 59) == 0x78bc8d4b
  {
    hide Schedule, AbcBlock;
    Words40(b);
    Words44(b);
    Words48(b);
    Words52(b);
    ScheduleStep(b, 56, 0x1487472c, 0xcc7617db, 0xf0a64f5a, 0x9f47bf94);
    ScheduleStep(b, 57, 0xb20f7a99, 0xb9e66c34, 0x3e246a79, 0xf0a64f5a);
    ScheduleStep(b, 58, 0xef57b9cd, 0xa9993667, 0x27333ba3, 0x3e246a79);
    ScheduleStep(b, 59, 0xebe6b238, 0x84badedd, 0x0c4763f2, 0x27333ba3);
  }

  lemma Words60(b: Block)
    requires b == AbcBlock()
    ensures Schedule(b, 60) == 0xa43fcf15 && Schedule(b, 61) == 0x668b2ff8
    ensures Schedule(b, 62) == 0xeeaba2cc && Schedule(b, 63) == 0x12b1edeb
  {
    hide Schedule, AbcBlock;
    Words44(b);
    Words48(b);
    Words52(b);
    Words56(b);
    ScheduleStep(b, 60, 0x9fe3095e, 0xc21462bc, 0x840abf27, 0x0c4763f2);
    ScheduleStep(b, 61, 0x78bc8d4b, 0x1487472c, 0x7a290d5d, 0x840abf27);
    ScheduleStep(b, 62, 0xa43fcf15, 0xb20f7a99, 0x065c43da, 0x7a290d5d);
    ScheduleStep(b, 63, 0x668b2ff8, 0xef57b9cd, 0xfb3e89cb, 0x065c43da);
  }

  lemma Start0(b: Block)
    ensures Rounds(InitialHash(), b, 0)
         == Working(0x6a09e667, 0xbb67ae85, 0x3c6ef372, 0xa54ff53a, 0x510e527f, 0x9b05688c, 0x1f83d9ab, 0x5be0cd19)
  {
  }

  lemma Rounds2(b: Block)
    requires b == AbcBlock()
    ensures Rounds(InitialHash(), b, 2)
         == Working(0x5a6ad9ad, 0x5d6aebcd, 0x6a09e667, 0xbb67ae85, 0x78ce7989, 0xfa2a4622, 0x510e527f, 0x9b05688c)
  {
    hide Rounds, Schedule, AbcBlock, InitialHash;
    Start0(b);
    FirstWords(b);
    RoundStep(b, 0, 0x428a2f98, 0x61626380,
              Working(0x6a09e667, 0xbb67ae85, 0x3c6ef372, 0xa54ff53a, 0x510e527f, 0x9b05688c, 0x1f83d9ab, 0x5be0cd19));
    RoundStep(b, 1, 0x71374491, 0x00000000,
              Working(0x5d6aebcd, 0x6a09e667, 0xbb67ae85, 0x3c6ef372, 0xfa2a4622, 0x510e527f, 0x9b05688c, 0x1f83d9ab));
  }

  lemma Rounds4(b: Block)
    requires b == AbcBlock()
    ensures Rounds(InitialHash(), b, 4)
         == Working(0xd550f666, 0xc8c347a7, 0x5a6ad9ad, 0x5d6aebcd, 0x24e00850, 0xf92939eb, 0x78ce7989, 0xfa2a4622)
  {
    hide Rounds, Schedule, AbcBlock, InitialHash;
    Rounds2(b);
    FirstWords(b);
    RoundStep(b, 2, 0xb5c0fbcf, 0x00000000,
              Working(0x5a6ad9ad, 0x5d6aebcd, 0x6a09e667, 0xbb67ae85, 0x78ce7989, 0xfa2a4622, 0x510e527f, 0x9b05688c));
    RoundStep(b, 3, 0xe9b5dba5, 0x00000000,
              Working(0xc8c347a7, 0x5a6ad9ad, 0x5d6aebcd, 0x6a09e667, 0xf92939eb, 0x78ce7989, 0xfa2a4622, 0x510e527f));
  }

  lemma Rounds6(b: Block)
    requires b == AbcBlock()
    ensures Rounds(InitialHash(), b, 6)
         == Working(0x2b4209f5, 0x04409a6a, 0xd550f666, 0xc8c347a7, 0x714260ad, 0x43ada245, 0x24e00850, 0xf92939eb)
  {
    hide Rounds, Schedule, AbcBlock, InitialHash;
    Rounds4(b);
    FirstWords(b);
    RoundStep(b, 4, 0x3956c25b, 0x00000000,
              Working(0xd550f666, 0xc8c347a7, 0x5a6ad9ad, 0x5d6aebcd, 0x24e00850, 0xf92939eb, 0x78ce7989, 0xfa2a4622));
    RoundStep(b, 5, 0x59f111f1, 0x00000000,
              Working(0x04409a6a, 0xd550f666, 0xc8c347a7, 0x5a6ad9ad, 0x43ada245, 0x24e00850, 0xf92939eb, 0x78ce7989));
  }

  lemma Rounds8(b: Block)
    requires b == AbcBlock()
    ensures Rounds(InitialHash(), b, 8)
         == Working(0x85a07b5f, 0xe5030380, 0x2b4209f5, 0x04409a6a, 0x0c657a79, 0x9b27a401, 0x714260ad, 0x43ada245)
  {
    hide Rounds, Schedule, AbcBlock, InitialHash;
    Rounds6(b);
    FirstWords(b);
    RoundStep(b, 6, 0x923f82a4, 0x00000000,
              Working(0x2b4209f5, 0x04409a6a, 0xd550f666, 0xc8c347a7, 0x714260ad, 0x43ada245, 0x24e00850, 0xf92939eb));
    RoundStep(b, 7, 0xab1c5ed5, 0x00000000,
              Working(0xe5030380, 0x2b4209f5, 0x04409a6a, 0xd550f666, 0x9b27a401, 0x714260ad, 0x43ada245, 0x24e00850));
  }

  lemma Rounds10(b: Block)
    requires b == AbcBlock()
    ensures Rounds(InitialHash(), b, 10)
         == Working(0x8c87346b, 0x8e04ecb9, 0x85a07b5f, 0xe5030380, 0x1cc92596, 0x32ca2d8c, 0x0c657a79, 0x9b27a401)
  {
    hide Rounds, Schedule, AbcBlock, InitialHash;
    Rounds8(b);
    FirstWords(b);
    RoundStep(b, 8, 0xd807aa98, 0x00000000,
              Working(0x85a07b5f, 0xe5030380, 0x2b4209f5, 0x04409a6a, 0x0c657a79, 0x9b27a401, 0x714260ad, 0x43ada245));
    RoundStep(b, 9, 0x12835b01, 0x00000000,
              Working(0x8e04ecb9, 0x85a07b5f, 0xe5030380, 0x2b4209f5, 0x32ca2d8c, 0x0c657a79, 0x9b27a401, 0x714260ad));
  }

  lemma Rounds12(b: Block)
    requires b == AbcBlock()
    ensures Rounds(InitialHash(), b, 12)
         == Working(0xf71fc5a9, 0x4798a3f4, 0x8c87346b, 0x8e04ecb9, 0x816fd6e9, 0x436b23e8, 0x1cc92596, 0x32ca2d8c)
  {
    hide Rounds, Schedule, AbcBlock, InitialHash;
    Rounds10(b);
    FirstWords(b);
    RoundStep(b, 10, 0x243185be, 0x00000000,
              Working(0x8c87346b, 0x8e04ecb9, 0x85a07b5f, 0xe5030380, 0x1cc92596, 0x32ca2d8c, 0x0c657a79, 0x9b27a401));
    RoundStep(b, 11, 0x550c7dc3, 0x00000000,
              Working(0x4798a3f4, 0x8c87346b, 0x8e04ecb9, 0x85a07b5f, 0x436b23e8, 0x1cc92596, 0x32ca2d8c, 0x0c657a79));
  }

  lemma Rounds14(b: Block)
    requires b == AbcBlock()
    ensures Rounds(InitialHash(), b, 14)
         == Working(0xd932eb16, 0x87912990, 0xf71fc5a9, 0x4798a3f4, 0x745a48de, 0x1e578218, 0x816fd6e9, 0x436b23e8)
  {
    hide Rounds, Schedule, AbcBlock, InitialHash;
    Rounds12(b);
    FirstWords(b);
    RoundStep(b, 12, 0x72be5d74, 0x00000000,
              Working(0xf71fc5a9, 0x4798a3f4, 0x8c87346b, 0x8e04ecb9, 0x816fd6e9, 0x436b23e8, 0x1cc92596, 0x32ca2d8c));
    RoundStep(b, 13, 0x80deb1fe, 0x00000000,
              Working(0x87912990, 0xf71fc5a9, 0x4798a3f4, 0x8c87346b, 0x1e578218, 0x816fd6e9, 0x436b23e8, 0x1cc92596));
  }

  lemma Rounds16(b: Block)
    requires b == AbcBlock()
    ensures Rounds(InitialHash(), b, 16)
         == Working(0xb0fa238e, 0xc0645fde, 0xd932eb16, 0x87912990, 0x07590dcd, 0x0b92f20c, 0x745a48de, 0x1e578218)
  {
    hide Rounds, Schedule, AbcBlock, InitialHash;
    Rounds14(b);
    FirstWords(b);
    RoundStep(b, 14, 0x9bdc06a7, 0x00000000,
              Working(0xd932eb16, 0x87912990, 0xf71fc5a9, 0x4798a3f4, 0x745a48de, 0x1e578218, 0x816fd6e9, 0x436b23e8));
    RoundStep(b, 15, 0xc19bf174, 0x00000018,
              Working(0xc0645fde, 0xd932eb16, 0x87912990, 0xf71fc5a9, 0x0b92f20c, 0x745a48de, 0x1e578218, 0x816fd6e9));
  }

  lemma Rounds18(b: Block)
    requires b == AbcBlock()
    ensures Rounds(InitialHash(), b, 18)
         == Working(0xc2fbd9d1, 0x21da9a9b, 0xb0fa238e, 0xc0645fde, 0x846ee454, 0x8034229c, 0x07590dcd, 0x0b92f20c)
  {
    hide Rounds, Schedule, AbcBlock, InitialHash;
    Rounds16(b);
    Words16(b);
    RoundStep(b, 16, 0xe49b69c1, 0x61626380,
              Working(0xb0fa238e, 0xc0645fde, 0xd932eb16, 0x87912990, 0x07590dcd, 0x0b92f20c, 0x745a48de, 0x1e578218));
    RoundStep(b, 17, 0xefbe4786, 0x000f0000,
              Working(0x21da9a9b, 0xb0fa238e, 0xc0645fde, 0xd932eb16, 0x8034229c, 0x07590dcd, 0x0b92f20c, 0x745a48de));
  }

  lemma Rounds20(b: Block)
    requires b == AbcBlock()
    ensures Rounds(InitialHash(), b, 20)
         == Working(0xe1f20c33, 0xfe777bbf, 0xc2fbd9d1, 0x21da9a9b, 0xb0638179, 0xcc899961, 0x846ee454, 0x8034229c)
  {
    hide Rounds, Schedule, AbcBlock, InitialHash;
    Rounds18(b);
    Words16(b);
    RoundStep(b, 18, 0x0fc19dc6, 0x7da86405,
              Working(0xc2fbd9d1, 0x21da9a9b, 0xb0fa238e, 0xc0645fde, 0x846ee454, 0x8034229c, 0x07590dcd, 0x0b92f20c));
    RoundStep(b, 19, 0x240ca1cc, 0x600003c6,
              Working(0xfe777bbf, 0xc2fbd9d1, 0x21da9a9b, 0xb0fa238e, 0xcc899961, 0x846ee454, 0x8034229c, 0x07590dcd));
  }

  lemma Rounds22(b: Block)
    requires b == AbcBlock()
    ensures Rounds(InitialHash(), b, 22)
         == Working(0xc2606d6d, 0x9dc68b63, 0xe1f20c33, 0xfe777bbf, 0xe1257970, 0x8ada8930, 0xb0638179, 0xcc899961)
  {
    hide Rounds, Schedule, AbcBlock, InitialHash;
    Rounds20(b);
    Words20(b);
    RoundStep(b, 20, 0x2de92c6f, 0x3e9d7b78,
              Working(0xe1f20c33, 0xfe777bbf, 0xc2fbd9d1, 0x21da9a9b, 0xb0638179, 0xcc899961, 0x846ee454, 0x8034229c));
    RoundStep(b, 21, 0x4a7484aa, 0x0183fc00,
              Working(0x9dc68b63, 0xe1f20c33, 0xfe777bbf, 0xc2fbd9d1, 0x8ada8930, 0xb0638179, 0xcc899961, 0x846ee454));
  }

  lemma Rounds24(b: Block)
    requires b == AbcBlock()
    ensures Rounds(InitialHash(), b, 24)
         == Working(0xc5d53d8d, 0xa7a3623f, 0xc2606d6d, 0x9dc68b63, 0xaa47c347, 0x49f5114a, 0xe1257970, 0x8ada8930)
  {
    hide Rounds, Schedule, AbcBlock, InitialHash;
    Rounds22(b);
    Words20(b);
    RoundStep(b, 22, 0x5cb0a9dc, 0x12dcbfdb,
              Working(0xc2606d6d, 0x9dc68b63, 0xe1f20c33, 0xfe777bbf, 0xe1257970, 0x8ada8930, 0xb0638179, 0xcc899961));
    RoundStep(b, 23, 0x76f988da, 0xe2e2c38e,
              Working(0xa7a3623f, 0xc2606d6d, 0x9dc68b63, 0xe1f20c33, 0x49f5114a, 0xe1257970, 0x8ada8930, 0xb0638179));
  }

  lemma Rounds26(b: Block)
    requires b == AbcBlock()
    ensures Rounds(InitialHash(), b, 26)
         == Working(0xcde8037d, 0x1c2c2838, 0xc5d53d8d, 0xa7a3623f, 0x14383d8e, 0x2823ef91, 0xaa47c347, 0x49f5114a)
  {
    hide Rounds, Schedule, AbcBlock, InitialHash;
    Rounds24(b);
    Words24(b);
    RoundStep(b, 24, 0x983e5152, 0xc8215c1a,
              Working(0xc5d53d8d, 0xa7a3623f, 0xc2606d6d, 0x9dc68b63, 0xaa47c347, 0x49f5114a, 0xe1257970, 0x8ada8930));
    RoundStep(b, 25, 0xa831c66d, 0xb73679a2,
              Working(0x1c2c2838, 0xc5d53d8d, 0xa7a3623f, 0xc2606d6d, 0x2823ef91, 0xaa47c347, 0x49f5114a, 0xe1257970));
  }

  lemma Rounds28(b: Block)
    requires b == AbcBlock()
    ensures Rounds(InitialHash(), b, 28)
         == Working(0x77d37528, 0xb62ec4bc, 0xcde8037d, 0x1c2c2838, 0xedffbff8, 0xc74c6516, 0x14383d8e, 0x2823ef91)
  {
    hide Rounds, Schedule, AbcBlock, InitialHash;
    Rounds26(b);
    Words24(b);
    RoundStep(b, 26, 0xb00327c8, 0xe5bc3909,
              Working(0xcde8037d, 0x1c2c2838, 0xc5d53d8d, 0xa7a3623f, 0x14383d8e, 0x2823ef91, 0xaa47c347, 0x49f5114a));
    RoundStep(b, 27, 0xbf597fc7, 0x32663c5b,
              Working(0xb62ec4bc, 0xcde8037d, 0x1c2c2838, 0xc5d53d8d, 0xc74c6516, 0x14383d8e, 0x2823ef91, 0xaa47c347));
  }

  lemma Rounds30(b: Block)
    requires b == AbcBlock()
    ensures Rounds(InitialHash(), b, 30)
         == Working(0xa0060b30, 0x363482c9, 0x77d37528, 0xb62ec4bc, 0xade79437, 0x6112a3b7, 0xedffbff8, 0xc74c6516)
  {
    hide Rounds, Schedule, AbcBlock, InitialHash;
    Rounds28(b);
    Words28(b);
    RoundStep(b, 28, 0xc6e00bf3, 0x9d209d67,
              Working(0x77d37528, 0xb62ec4bc, 0xcde8037d, 0x1c2c2838, 0xedffbff8, 0xc74c6516, 0x14383d8e, 0x2823ef91));
    RoundStep(b, 29, 0xd5a79147, 0xec8726cb,
              Working(0x363482c9, 0x77d37528, 0xb62ec4bc, 0xcde8037d, 0x6112a3b7, 0xedffbff8, 0xc74c6516, 0x14383d8e));
  }

  lemma Rounds32(b: Block)
    requires b == AbcBlock()
    ensures Rounds(InitialHash(), b, 32)
         == Working(0x73b33bf5, 0xea992a22, 0xa0060b30, 0x363482c9, 0xba591112, 0x0109ab3a, 0xade79437, 0x6112a3b7)
  {
    hide Rounds, Schedule, AbcBlock, InitialHash;
    Rounds30(b);
    Words28(b);
    RoundStep(b, 30, 0x06ca6351, 0x702138a4,
              Working(0xa0060b30, 0x363482c9, 0x77d37528, 0xb62ec4bc, 0xade79437, 0x6112a3b7, 0xedffbff8, 0xc74c6516));
    RoundStep(b, 31, 0x14292967, 0xd3b7973b,
              Working(0xea992a22, 0xa0060b30, 0x363482c9, 0x77d37528, 0x0109ab3a, 0xade79437, 0x6112a3b7, 0xedffbff8));
  }

  lemma Rounds34(b: Block)
    requires b == AbcBlock()
    ensures Rounds(InitialHash(), b, 34)
         == Working(0xfe604df5, 0x98e12507, 0x73b33bf5, 0xea992a22, 0x59249dd3, 0x9cd9f5f6, 0xba591112, 0x0109ab3a)
  {
    hide Rounds, Schedule, AbcBlock, InitialHash;
    Rounds32(b);
    Words32(b);
    RoundStep(b, 32, 0x27b70a85, 0x93f5997f,
              Working(0x73b33bf5, 0xea992a22, 0xa0060b30, 0x363482c9, 0xba591112, 0x0109ab3a, 0xade79437, 0x6112a3b7));
    RoundStep(b, 33, 0x2e1b2138, 0x3b68ba73,
              Working(0x98e12507, 0x73b33bf5, 0xea992a22, 0xa0060b30, 0x9cd9f5f6, 0xba591112, 0x0109ab3a, 0xade79437));
  }

  lemma Rounds36(b: Block)
    requires b == AbcBlock()
    ensures Rounds(InitialHash(), b, 36)
         == Working(0x65a0cfe4, 0xa9a7738c, 0xfe604df5, 0x98e12507, 0xf4b002d6, 0x085f3833, 0x59249dd3, 0x9cd9f5f6)
  {
    hide Rounds, Schedule, AbcBlock, InitialHash;
    Rounds34(b);
    Words32(b);
    RoundStep(b, 34, 0x4d2c6dfc, 0xaff4ffc1,
              Working(0xfe604df5, 0x98e12507, 0x73b33bf5, 0xea992a22, 0x59249dd3, 0x9cd9f5f6, 0xba591112, 0x0109ab3a));
    RoundStep(b, 35, 0x53380d13, 0xf10a5c62,
              Working(0xa9a7738c, 0xfe604df5, 0x98e12507, 0x73b33bf5, 0x085f3833, 0x59249dd3, 0x9cd9f5f6, 0xba591112));
  }

  lemma Rounds38(b: Block)
    requires b == AbcBlock()
    ensures Rounds(InitialHash(), b, 38)
         == Working(0x34df1604, 0x41a65cb1, 0x65a0cfe4, 0xa9a7738c, 0xa507a53d, 0x0772a26b, 0xf4b002d6, 0x085f3833)
  {
    hide Rounds, Schedule, AbcBlock, InitialHash;
    Rounds36(b);
    Words36(b);
    RoundStep(b, 36, 0x650a7354, 0x0a8b3996,
              Working(0x65a0cfe4, 0xa9a7738c, 0xfe604df5, 0x98e12507, 0xf4b002d6, 0x085f3833, 0x59249dd3, 0x9cd9f5f6));
    RoundStep(b, 37, 0x766a0abb, 0x72af830a,
              Working(0x41a65cb1, 0x65a0cfe4, 0xa9a7738c, 0xfe604df5, 0x0772a26b, 0xf4b002d6, 0x085f3833, 0x59249dd3));
  }

  lemma Rounds40(b: Block)
    requires b == AbcBlock()
    ensures Rounds(InitialHash(), b, 40)
         == Working(0x79ea687a, 0x6dc57a8a, 0x34df1604, 0x41a65cb1, 0x1efbc0a0, 0xf0781bc8, 0xa507a53d, 0x0772a26b)
  {
    hide Rounds, Schedule, AbcBlock, InitialHash;
    Rounds38(b);
    Words36(b);
    RoundStep(b, 38, 0x81c2c92e, 0x9409e33e,
              Working(0x34df1604, 0x41a65cb1, 0x65a0cfe4, 0xa9a7738c, 0xa507a53d, 0x0772a26b, 0xf4b002d6, 0x085f3833));
    RoundStep(b, 39, 0x92722c85, 0x24641522,
              Working(0x6dc57a8a, 0x34df1604, 0x41a65cb1, 0x65a0cfe4, 0xf0781bc8, 0xa507a53d, 0x0772a26b, 0xf4b002d6));
  }

  lemma Rounds42(b: Block)
    requires b == AbcBlock()
    ensures Rounds(InitialHash(), b, 42)
         == Working(0xdf46652f, 0xd6670766, 0x79ea687a, 0x6dc57a8a, 0x838b2711, 0x26352d63, 0x1efbc0a0, 0xf0781bc8)
  {
    hide Rounds, Schedule, AbcBlock, InitialHash;
    Rounds40(b);
    Words40(b);
    RoundStep(b, 40, 0xa2bfe8a1, 0x9f47bf94,
              Working(0x79ea687a, 0x6dc57a8a, 0x34df1604, 0x41a65cb1, 0x1efbc0a0, 0xf0781bc8, 0xa507a53d, 0x0772a26b));
    RoundStep(b, 41, 0xa81a664b, 0xf0a64f5a,
              Working(0xd6670766, 0x79ea687a, 0x6dc57a8a, 0x34df1604, 0x26352d63, 0x1efbc0a0, 0xf0781bc8, 0xa507a53d));
  }

  lemma Rounds44(b: Block)
    requires b == AbcBlock()
    ensures Rounds(InitialHash(), b, 44)
         == Working(0x9d4baf93, 0x17aa0dfe, 0xdf46652f, 0xd6670766, 0xfda24c2e, 0xdecd4715, 0x838b2711, 0x26352d63)
  {
    hide Rounds, Schedule, AbcBlock, InitialHash;
    Rounds42(b);
    Words40(b);
    RoundStep(b, 42, 0xc24b8b70, 0x3e246a79,
              Working(0xdf46652f, 0xd6670766, 0x79ea687a, 0x6dc57a8a, 0x838b2711, 0x26352d63, 0x1efbc0a0, 0xf0781bc8));
    RoundStep(b, 43, 0xc76c51a3, 0x27333ba3,
              Working(0x17aa0dfe, 0xdf46652f, 0xd6670766, 0x79ea687a, 0xdecd4715, 0x838b2711, 0x26352d63, 0x1efbc0a0));
  }

  lemma Rounds46(b: Block)
    requires b == AbcBlock()
    ensures Rounds(InitialHash(), b, 46)
         == Working(0x72ab4b91, 0x26628815, 0x9d4baf93, 0x17aa0dfe, 0xb7755da1, 0xa80f11f0, 0xfda24c2e, 0xdecd4715)
  {
    hide Rounds, Schedule, AbcBlock, InitialHash;
    Rounds44(b);
    Words44(b);
    RoundStep(b, 44, 0xd192e819, 0x0c4763f2,
              Working(0x9d4baf93, 0x17aa0dfe, 0xdf46652f, 0xd6670766, 0xfda24c2e, 0xdecd4715, 0x838b2711, 0x26352d63));
    RoundStep(b, 45, 0xd6990624, 0x840abf27,
              Working(0x26628815, 0x9d4baf93, 0x17aa0dfe, 0xdf46652f, 0xa80f11f0, 0xfda24c2e, 0xdecd4715, 0x838b2711));
  }

  lemma Rounds48(b: Block)
    requires b == AbcBlock()
    ensures Rounds(InitialHash(), b, 48)
         == Working(0x4172328d, 0xa14c14b0, 0x72ab4b91, 0x26628815, 0xfecf0bc6, 0xd57b94a9, 0xb7755da1, 0xa80f11f0)
  {
    hide Rounds, Schedule, AbcBlock, InitialHash;
    Rounds46(b);
    Words44(b);
    RoundStep(b, 46, 0xf40e3585, 0x7a290d5d,
              Working(0x72ab4b91, 0x26628815, 0x9d4baf93, 0x17aa0dfe, 0xb7755da1, 0xa80f11f0, 0xfda24c2e, 0xdecd4715));
    RoundStep(b, 47, 0x106aa070, 0x065c43da,
              Working(0xa14c14b0, 0x72ab4b91, 0x26628815, 0x9d4baf93, 0xd57b94a9, 0xb7755da1, 0xa80f11f0, 0xfda24c2e));
  }

  lemma Rounds50(b: Block)
    requires b == AbcBlock()
    ensures Rounds(InitialHash(), b, 50)
         == Working(0xf11bfaa8, 0x05757ceb, 0x4172328d, 0xa14c14b0, 0x6e5c390c, 0xbd714038, 0xfecf0bc6, 0xd57b94a9)
  {
    hide Rounds, Schedule, AbcBlock, InitialHash;
    Rounds48(b);
    Words48(b);
    RoundStep(b, 48, 0x19a4c116, 0xfb3e89cb,
              Working(0x4172328d, 0xa14c14b0, 0x72ab4b91, 0x26628815, 0xfecf0bc6, 0xd57b94a9, 0xb7755da1, 0xa80f11f0));
    RoundStep(b, 49, 0x1e376c08, 0xcc7617db,
              Working(0x05757ceb, 0x4172328d, 0xa14c14b0, 0x72ab4b91, 0xbd714038, 0xfecf0bc6, 0xd57b94a9, 0xb7755da1));
  }

  lemma Rounds52(b: Block)
    requires b == AbcBlock()
    ensures Rounds(InitialHash(), b, 52)
         == Working(0x886e7a22, 0x7a0508a1, 0xf11bfaa8, 0x05757ceb, 0x49231c1e, 0x52f1ccf7, 0x6e5c390c, 0xbd714038)
  {
    hide Rounds, Schedule, AbcBlock, InitialHash;
    Rounds50(b);
    Words48(b);
    RoundStep(b, 50, 0x2748774c, 0xb9e66c34,
              Working(0xf11bfaa8, 0x05757ceb, 0x4172328d, 0xa14c14b0, 0x6e5c390c, 0xbd714038, 0xfecf0bc6, 0xd57b94a9));
    RoundStep(b, 51, 0x34b0bcb5, 0xa9993667,
              Working(0x7a0508a1, 0xf11bfaa8, 0x05757ceb, 0x4172328d, 0x52f1ccf7, 0x6e5c390c, 0xbd714038, 0xfecf0bc6));
  }

  lemma Rounds54(b: Block)
    requires b == AbcBlock()
    ensures Rounds(InitialHash(), b, 54)
         == Working(0xf5702fdb, 0x101fd28f, 0x886e7a22, 0x7a0508a1, 0x9f4787c3, 0x529e7d00, 0x49231c1e, 0x52f1ccf7)
  {
    hide Rounds, Schedule, AbcBlock, InitialHash;
    Rounds52(b);
    Words52(b);
    RoundStep(b, 52, 0x391c0cb3, 0x84badedd,
              Working(0x886e7a22, 0x7a0508a1, 0xf11bfaa8, 0x05757ceb, 0x49231c1e, 0x52f1ccf7, 0x6e5c390c, 0xbd714038));
    RoundStep(b, 53, 0x4ed8aa4a, 0xc21462bc,
              Working(0x101fd28f, 0x886e7a22, 0x7a0508a1, 0xf11bfaa8, 0x529e7d00, 0x49231c1e, 0x52f1ccf7, 0x6e5c390c));
  }

  lemma Rounds56(b: Block)
    requires b == AbcBlock()
    ensures Rounds(InitialHash(), b, 56)
         == Working(0x38cc9913, 0x3ec45cdb, 0xf5702fdb, 0x101fd28f, 0x54cb266b, 0xe50e1b4f, 0x9f4787c3, 0x529e7d00)
  {
    hide Rounds, Schedule, AbcBlock, InitialHash;
    Rounds54(b);
    Words52(b);
    RoundStep(b, 54, 0x5b9cca4f, 0x1487472c,
              Working(0xf5702fdb, 0x101fd28f, 0x886e7a22, 0x7a0508a1, 0x9f4787c3, 0x529e7d00, 0x49231c1e, 0x52f1ccf7));
    RoundStep(b, 55, 0x682e6ff3, 0xb20f7a99,
              Working(0x3ec45cdb, 0xf5702fdb, 0x101fd28f, 0x886e7a22, 0xe50e1b4f, 0x9f4787c3, 0x529e7d00, 0x49231c1e));
  }

  lemma Rounds58(b: Block)
    requires b == AbcBlock()
    ensures Rounds(InitialHash(), b, 58)
         == Working(0xc062d46f, 0xfcd1887b, 0x38cc9913, 0x3ec45cdb, 0x7e44008e, 0x9b5e906c, 0x54cb266b, 0xe50e1b4f)
  {
    hide Rounds, Schedule, AbcBlock, InitialHash;
    Rounds56(b);
    Words56(b);
    RoundStep(b, 56, 0x748f82ee, 0xef57b9cd,
              Working(0x38cc9913, 0x3ec45cdb, 0xf5702fdb, 0x101fd28f, 0x54cb266b, 0xe50e1b4f, 0x9f4787c3, 0x529e7d00));
    RoundStep(b, 57, 0x78a5636f, 0xebe6b238,
              Working(0xfcd1887b, 0x38cc9913, 0x3ec45cdb, 0xf5702fdb, 0x9b5e906c, 0x54cb266b, 0xe50e1b4f, 0x9f4787c3));
  }

  lemma Rounds60(b: Block)
    requires b == AbcBlock()
    ensures Rounds(InitialHash(), b, 60)
         == Working(0xb6ae8fff, 0xffb70472, 0xc062d46f, 0xfcd1887b, 0xb21bad3d, 0x6d83bfc6, 0x7e44008e, 0x9b5e906c)
  {
    hide Rounds, Schedule, AbcBlock, InitialHash;
    Rounds58(b);
    Words56(b);
    RoundStep(b, 58, 0x84c87814, 0x9fe3095e,
              Working(0xc062d46f, 0xfcd1887b, 0x38cc9913, 0x3ec45cdb, 0x7e44008e, 0x9b5e906c, 0x54cb266b, 0xe50e1b4f));
    RoundStep(b, 59, 0x8cc70208, 0x78bc8d4b,
              Working(0xffb70472, 0xc062d46f, 0xfcd1887b, 0x38cc9913, 0x6d83bfc6, 0x7e44008e, 0x9b5e906c, 0x54cb266b));
  }

  lemma Rounds62(b: Block)
    requires b == AbcBlock()
    ensures Rounds(InitialHash(), b, 62)
         == Working(0x04d24d6c, 0xb85e2ce9, 0xb6ae8fff, 0xffb70472, 0x948d25b6, 0x961f4894, 0xb21bad3d, 0x6d83bfc6)
  {
    hide Rounds, Schedule, AbcBlock, InitialHash;
    Rounds60(b);
    Words60(b);
    RoundStep(b, 60, 0x90befffa, 0xa43fcf15,
              Working(0xb6ae8fff, 0xffb70472, 0xc062d46f, 0xfcd1887b, 0xb21bad3d, 0x6d83bfc6, 0x7e44008e, 0x9b5e906c));
    RoundStep(b, 61, 0xa4506ceb, 0x668b2ff8,
              Working(0xb85e2ce9, 0xb6ae8fff, 0xffb70472, 0xc062d46f, 0x961f4894, 0xb21bad3d, 0x6d83bfc6, 0x7e44008e));
  }

  lemma Rounds64(b: Block)
    requires b == AbcBlock()
    ensures Rounds(InitialHash(), b, 64)
         == Working(0x506e3058, 0xd39a2165, 0x04d24d6c, 0xb85e2ce9, 0x5ef50f24, 0xfb121210, 0x948d25b6, 0x961f4894)
  {
    hide Rounds, Schedule, AbcBlock, InitialHash;
    Rounds62(b);
    Words60(b);
    RoundStep(b, 62, 0xbef9a3f7, 0xeeaba2cc,
              Working(0x04d24d6c, 0xb85e2ce9, 0xb6ae8fff, 0xffb70472, 0x948d25b6, 0x961f4894, 0xb21bad3d, 0x6d83bfc6));
    RoundStep(b, 63, 0xc67178f2, 0x12b1edeb,
              Working(0xd39a2165, 0x04d24d6c, 0xb85e2ce9, 0xb6ae8fff, 0xfb121210, 0x948d25b6, 0x961f4894, 0xb21bad3d));
  }

  function AbcHash(): (h: Hash) {
    [0xba7816bf, 0x8f01cfea, 0x414140de, 0x5dae2223, 0xb00361a3, 0x96177a9c, 0xb410ff61, 0xf20015ad]
  }

  lemma AbcCompressed()
    ensures Compress(InitialHash(), AbcBlock()) == AbcHash()
  {
    hide Rounds, AbcBlock;
    Rounds64(AbcBlock());
  }

  lemma AbcHashed()
    ensures HashBlocks(AbcBlock()) == AbcHash()
  {
    hide Compress, AbcBlock, InitialHash, AbcHash;
    AbcCompressed();
    HashAppend([], AbcBlock());
    assert [] + AbcBlock() == AbcBlock();
  }

  lemma AbcBytes()
    ensures ByteAt(0xba7816bf, 24) == 0xba && ByteAt(0xba7816bf, 16) == 0x78
    ensures ByteAt(0xba7816bf, 8) == 0x16 && ByteAt(0xba7816bf, 0) == 0xbf
    ensures ByteAt(0x8f01cfea, 24) == 0x8f && ByteAt(0x8f01cfea, 16) == 0x01
    ensures ByteAt(0x8f01cfea, 8) == 0xcf && ByteAt(0x8f01cfea, 0) == 0xea
    ensures ByteAt(0x414140de, 24) == 0x41 && ByteAt(0x414140de, 16) == 0x41
    ensures ByteAt(0x414140de, 8) == 0x40 && ByteAt(0x414140de, 0) == 0xde
    ensures ByteAt(0x5dae2223, 24) == 0x5d && ByteAt(0x5dae2223, 16) == 0xae
    ensures ByteAt(0x5dae2223, 8) == 0x22 && ByteAt(0x5dae2223, 0) == 0x23
    ensures ByteAt(0xb00361a3, 24) == 0xb0 && ByteAt(0xb00361a3, 16) == 0x03
    ensures ByteAt(0xb00361a3, 8) == 0x61 && ByteAt(0xb00361a3, 0) == 0xa3
    ensures ByteAt(0x96177a9c, 24) == 0x96 && ByteAt(0x96177a9c, 16) == 0x17
    ensures ByteAt(0x96177a9c, 8) == 0x7a && ByteAt(0x96177a9c, 0) == 0x9c
    ensures ByteAt(0xb410ff61, 24) == 0xb4 && ByteAt(0xb410ff61, 16) == 0x10
    ensures ByteAt(0xb410ff61, 8) == 0xff && ByteAt(0xb410ff61, 0) == 0x61
    ensures ByteAt(0xf20015ad, 24) == 0xf2 && ByteAt(0xf20015ad, 16) == 0x00
    ensures ByteAt(0xf20015ad, 8) == 0x15 && ByteAt(0xf20015ad, 0) == 0xad
  {
  }

  lemma AbcOutput()
    ensures Output(AbcHash())
         == [0xba, 0x78, 0x16, 0xbf, 0x8f, 0x01, 0xcf, 0xea, 0x41, 0x41, 0x40, 0xde, 0x5d, 0xae, 0x22, 0x23,
             0xb0, 0x03, 0x61, 0xa3, 0x96, 0x17, 0x7a, 0x9c, 0xb4, 0x10, 0xff, 0x61, 0xf2, 0x00, 0x15, 0xad]
  {
    hide ByteAt, Output;
    AbcBytes();
    var h := AbcHash();
    OutputStep([], h[0]);
    assert [] + [h[0]] == h[..1];
    OutputStep(h[..1], h[1]);
    assert h[..1] + [h[1]] == h[..2];
    OutputStep(h[..2], h[2]);
    assert h[..2] + [h[2]] == h[..3];
    OutputStep(h[..3], h[3]);
    assert h[..3] + [h[3]] == h[..4];
    OutputStep(h[..4], h[4]);
    assert h[..4] + [h[4]] == h[..5];
    OutputStep(h[..5], h[5]);
    assert h[..5] + [h[5]] == h[..6];
    OutputStep(h[..6], h[6]);
    assert h[..6] + [h[6]] == h[..7];
    OutputStep(h[..7], h[7]);
    assert h[..7] + [h[7]] == h[..8];
    assert h[..8] == h;
  }

  /** SHA-256 of "abc" (example B.1 of FIPS 180-2). */
  lemma AbcDigest()
    ensures Digest([0x61, 0x62, 0x63])
         == [0xba, 0x78, 0x16, 0xbf, 0x8f, 0x01, 0xcf, 0xea, 0x41, 0x41, 0x40, 0xde, 0x5d, 0xae, 0x22, 0x23,
             0xb0, 0x03, 0x61, 0xa3, 0x96, 0x17, 0x7a, 0x9c, 0xb4, 0x10, 0xff, 0x61, 0xf2, 0x00, 0x15, 0xad]
  {
    hide Output, HashBlocks, AbcHash, AbcBlock, Padded;
    AbcPadded();
    AbcHashed();
    AbcOutput();
  }
}

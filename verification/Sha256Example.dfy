/** The worked example of FIPS 180-4: the digest of "abc", word by word and round by round. It decides
    every constant and rotation of cpp/src/core/sha256.cpp. */
module Sha256Example {
  import opened Types
  import opened Encoding
  import opened Sha256

  const ABC: Bytes := [0x61, 0x62, 0x63]

  /** The single padded block of the message. */
  predicate Abc(block: Bytes) {
    && |block| == 64 && block[0] == 0x61 && block[1] == 0x62 && block[2] == 0x63 && block[3] == 0x80 && block[63] == 24
    && forall i :: 4 <= i < 63 ==> block[i] == 0
  }

  lemma PaddedAbc()
    ensures Abc(Pad(ABC))
  {
    var length := BigEndian(24, 8);
    assert Limit(1) == 256 && length[7] == 24;
    assert length == Zeros(7) + [24];
  }

  /** Word `t` of the message schedule. */
  ghost predicate Scheduled(block: Bytes, t: nat, word: Word) {
    |block| == 64 && t < 64 && W(block, t) == word
  }

  /** Eight words from `t` on. */
  ghost predicate EightWords(block: Bytes, t: nat, a: Word, b: Word, c: Word, d: Word, e: Word, f: Word, g: Word,
                             h: Word) {
    && Scheduled(block, t, a) && Scheduled(block, t + 1, b) && Scheduled(block, t + 2, c)
    && Scheduled(block, t + 3, d) && Scheduled(block, t + 4, e) && Scheduled(block, t + 5, f)
    && Scheduled(block, t + 6, g) && Scheduled(block, t + 7, h)
  }

  lemma FirstWords(block: Bytes)
    requires Abc(block)
    ensures Scheduled(block, 0, 0x61626380) && Scheduled(block, 15, 24)
    ensures forall t :: 1 <= t < 15 ==> Scheduled(block, t, 0)
  {
    FirstWord(block);
    LengthWord(block);
    hide Scheduled;
    forall t | 1 <= t < 15 ensures Scheduled(block, t, 0) {
      ZeroWord(block, t);
    }
  }

  lemma FirstWord(block: Bytes)
    requires Abc(block)
    ensures Scheduled(block, 0, 0x61626380)
  {
    assert block[4 * 0] == 0x61 && block[1] == 0x62 && block[2] == 0x63 && block[3] == 0x80;
    assert BlockWord(block, 0) == 0x61626380;
  }

  lemma LengthWord(block: Bytes)
    requires Abc(block)
    ensures Scheduled(block, 15, 24)
  {
    assert block[60] == 0 && block[61] == 0 && block[62] == 0 && block[63] == 24;
  }

  lemma ZeroWord(block: Bytes, t: nat)
    requires Abc(block) && 1 <= t < 15
    ensures Scheduled(block, t, 0)
  {
    assert block[4 * t] == 0 && block[4 * t + 1] == 0 && block[4 * t + 2] == 0 && block[4 * t + 3] == 0;
  }

  lemma NextWord(block: Bytes, t: nat, w2: Word, w7: Word, w15: Word, w16: Word)
    requires 16 <= t < 64 && Scheduled(block, t - 2, w2) && Scheduled(block, t - 7, w7)
    requires Scheduled(block, t - 15, w15) && Scheduled(block, t - 16, w16)
    ensures Scheduled(block, t, ScheduleWord(w2, w7, w15, w16))
  {
    hide ScheduleWord;
  }

  lemma Words16(block: Bytes)
    requires Abc(block)
    ensures EightWords(block, 16, 0x61626380, 0x000f0000, 0x7da86405, 0x600003c6,
                       0x3e9d7b78, 0x0183fc00, 0x12dcbfdb, 0xe2e2c38e)
  {
    hide Scheduled, W, Abc;
    FirstWords(block);
    NextWord(block, 16, 0x00000000, 0x00000000, 0x00000000, 0x61626380);
    NextWord(block, 17, 0x00000018, 0x00000000, 0x00000000, 0x00000000);
    NextWord(block, 18, 0x61626380, 0x00000000, 0x00000000, 0x00000000);
    NextWord(block, 19, 0x000f0000, 0x00000000, 0x00000000, 0x00000000);
    NextWord(block, 20, 0x7da86405, 0x00000000, 0x00000000, 0x00000000);
    NextWord(block, 21, 0x600003c6, 0x00000000, 0x00000000, 0x00000000);
    NextWord(block, 22, 0x3e9d7b78, 0x00000018, 0x00000000, 0x00000000);
    NextWord(block, 23, 0x0183fc00, 0x61626380, 0x00000000, 0x00000000);
  }

  lemma Words24(block: Bytes)
    requires Abc(block)
    ensures EightWords(block, 24, 0xc8215c1a, 0xb73679a2, 0xe5bc3909, 0x32663c5b,
                       0x9d209d67, 0xec8726cb, 0x702138a4, 0xd3b7973b)
  {
    hide Scheduled, W, Abc;
    FirstWords(block);
    Words16(block);
    NextWord(block, 24, 0x12dcbfdb, 0x000f0000, 0x00000000, 0x00000000);
    NextWord(block, 25, 0xe2e2c38e, 0x7da86405, 0x00000000, 0x00000000);
    NextWord(block, 26, 0xc8215c1a, 0x600003c6, 0x00000000, 0x00000000);
    NextWord(block, 27, 0xb73679a2, 0x3e9d7b78, 0x00000000, 0x00000000);
    NextWord(block, 28, 0xe5bc3909, 0x0183fc00, 0x00000000, 0x00000000);
    NextWord(block, 29, 0x32663c5b, 0x12dcbfdb, 0x00000000, 0x00000000);
    NextWord(block, 30, 0x9d209d67, 0xe2e2c38e, 0x00000018, 0x00000000);
    NextWord(block, 31, 0xec8726cb, 0xc8215c1a, 0x61626380, 0x00000018);
  }

  lemma Words32(block: Bytes)
    requires Abc(block)
    ensures EightWords(block, 32, 0x93f5997f, 0x3b68ba73, 0xaff4ffc1, 0xf10a5c62,
                       0x0a8b3996, 0x72af830a, 0x9409e33e, 0x24641522)
  {
    hide Scheduled, W, Abc;
    Words16(block);
    Words24(block);
    NextWord(block, 32, 0x702138a4, 0xb73679a2, 0x000f0000, 0x61626380);
    NextWord(block, 33, 0xd3b7973b, 0xe5bc3909, 0x7da86405, 0x000f0000);
    NextWord(block, 34, 0x93f5997f, 0x32663c5b, 0x600003c6, 0x7da86405);
    NextWord(block, 35, 0x3b68ba73, 0x9d209d67, 0x3e9d7b78, 0x600003c6);
    NextWord(block, 36, 0xaff4ffc1, 0xec8726cb, 0x0183fc00, 0x3e9d7b78);
    NextWord(block, 37, 0xf10a5c62, 0x702138a4, 0x12dcbfdb, 0x0183fc00);
    NextWord(block, 38, 0x0a8b3996, 0xd3b7973b, 0xe2e2c38e, 0x12dcbfdb);
    NextWord(block, 39, 0x72af830a, 0x93f5997f, 0xc8215c1a, 0xe2e2c38e);
  }

  lemma Words40(block: Bytes)
    requires Abc(block)
    ensures EightWords(block, 40, 0x9f47bf94, 0xf0a64f5a, 0x3e246a79, 0x27333ba3,
                       0x0c4763f2, 0x840abf27, 0x7a290d5d, 0x065c43da)
  {
    hide Scheduled, W, Abc;
    Words24(block);
    Words32(block);
    NextWord(block, 40, 0x9409e33e, 0x3b68ba73, 0xb73679a2, 0xc8215c1a);
    NextWord(block, 41, 0x24641522, 0xaff4ffc1, 0xe5bc3909, 0xb73679a2);
    NextWord(block, 42, 0x9f47bf94, 0xf10a5c62, 0x32663c5b, 0xe5bc3909);
    NextWord(block, 43, 0xf0a64f5a, 0x0a8b3996, 0x9d209d67, 0x32663c5b);
    NextWord(block, 44, 0x3e246a79, 0x72af830a, 0xec8726cb, 0x9d209d67);
    NextWord(block, 45, 0x27333ba3, 0x9409e33e, 0x702138a4, 0xec8726cb);
    NextWord(block, 46, 0x0c4763f2, 0x24641522, 0xd3b7973b, 0x702138a4);
    NextWord(block, 47, 0x840abf27, 0x9f47bf94, 0x93f5997f, 0xd3b7973b);
  }

  lemma Words48(block: Bytes)
    requires Abc(block)
    ensures EightWords(block, 48, 0xfb3e89cb, 0xcc7617db, 0xb9e66c34, 0xa9993667,
                       0x84badedd, 0xc21462bc, 0x1487472c, 0xb20f7a99)
  {
    hide Scheduled, W, Abc;
    Words32(block);
    Words40(block);
    NextWord(block, 48, 0x7a290d5d, 0xf0a64f5a, 0x3b68ba73, 0x93f5997f);
    NextWord(block, 49, 0x065c43da, 0x3e246a79, 0xaff4ffc1, 0x3b68ba73);
    NextWord(block, 50, 0xfb3e89cb, 0x27333ba3, 0xf10a5c62, 0xaff4ffc1);
    NextWord(block, 51, 0xcc7617db, 0x0c4763f2, 0x0a8b3996, 0xf10a5c62);
    NextWord(block, 52, 0xb9e66c34, 0x840abf27, 0x72af830a, 0x0a8b3996);
    NextWord(block, 53, 0xa9993667, 0x7a290d5d, 0x9409e33e, 0x72af830a);
    NextWord(block, 54, 0x84badedd, 0x065c43da, 0x24641522, 0x9409e33e);
    NextWord(block, 55, 0xc21462bc, 0xfb3e89cb, 0x9f47bf94, 0x24641522);
  }

  lemma Words56(block: Bytes)
    requires Abc(block)
    ensures EightWords(block, 56, 0xef57b9cd, 0xebe6b238, 0x9fe3095e, 0x78bc8d4b,
                       0xa43fcf15, 0x668b2ff8, 0xeeaba2cc, 0x12b1edeb)
  {
    hide Scheduled, W, Abc;
    Words40(block);
    Words48(block);
    NextWord(block, 56, 0x1487472c, 0xcc7617db, 0xf0a64f5a, 0x9f47bf94);
    NextWord(block, 57, 0xb20f7a99, 0xb9e66c34, 0x3e246a79, 0xf0a64f5a);
    NextWord(block, 58, 0xef57b9cd, 0xa9993667, 0x27333ba3, 0x3e246a79);
    NextWord(block, 59, 0xebe6b238, 0x84badedd, 0x0c4763f2, 0x27333ba3);
    NextWord(block, 60, 0x9fe3095e, 0xc21462bc, 0x840abf27, 0x0c4763f2);
    NextWord(block, 61, 0x78bc8d4b, 0x1487472c, 0x7a290d5d, 0x840abf27);
    NextWord(block, 62, 0xa43fcf15, 0xb20f7a99, 0x065c43da, 0x7a290d5d);
    NextWord(block, 63, 0x668b2ff8, 0xef57b9cd, 0xfb3e89cb, 0x065c43da);
  }

  /** One round, once its two temporaries are known. */
  lemma Step(block: Bytes, t: nat, a: Word, b: Word, c: Word, d: Word, e: Word, f: Word, g: Word, h: Word, k: Word,
             w: Word, t1: Word, t2: Word)
    requires |block| == 64 && t < 64 && Rounds(INITIAL, block, t) == [a, b, c, d, e, f, g, h]
    requires K(t) == k && Scheduled(block, t, w)
    requires Temp1(e, f, g, h, k, w) == t1
    requires Temp2(a, b, c) == t2
    ensures Rounds(INITIAL, block, t + 1) == [Sum(t1, t2), a, b, c, Sum(d, t1), e, f, g]
  {
    hide Temp1, Temp2, K, W, Sum;
  }

  lemma RoundsStart(block: Bytes)
    requires |block| == 64
    ensures Rounds(INITIAL, block, 0) == INITIAL
  {
    hide W;
  }

  lemma Rounds8(block: Bytes)
    requires Abc(block)
    ensures Rounds(INITIAL, block, 8) ==
            [0x85a07b5f, 0xe5030380, 0x2b4209f5, 0x04409a6a, 0x0c657a79, 0x9b27a401, 0x714260ad, 0x43ada245]
  {
    hide W, Abc, Rounds, Scheduled;
    AbcSize(block);
    RoundsStart(block);
    FirstWords(block);
    Step(block, 0, 0x6a09e667, 0xbb67ae85, 0x3c6ef372, 0xa54ff53a, 0x510e527f, 0x9b05688c, 0x1f83d9ab,
         0x5be0cd19, 0x428a2f98, 0x61626380, 0x54da50e8, 0x08909ae5);
    Step(block, 1, 0x5d6aebcd, 0x6a09e667, 0xbb67ae85, 0x3c6ef372, 0xfa2a4622, 0x510e527f, 0x9b05688c,
         0x1f83d9ab, 0x71374491, 0x00000000, 0x3c5f8617, 0x1e0b5396);
    Step(block, 2, 0x5a6ad9ad, 0x5d6aebcd, 0x6a09e667, 0xbb67ae85, 0x78ce7989, 0xfa2a4622, 0x510e527f,
         0x9b05688c, 0xb5c0fbcf, 0x00000000, 0x3dc18b66, 0x8b01bc41);
    Step(block, 3, 0xc8c347a7, 0x5a6ad9ad, 0x5d6aebcd, 0x6a09e667, 0xf92939eb, 0x78ce7989, 0xfa2a4622,
         0x510e527f, 0xe9b5dba5, 0x00000000, 0xbad621e9, 0x1a7ad47d);
    Step(block, 4, 0xd550f666, 0xc8c347a7, 0x5a6ad9ad, 0x5d6aebcd, 0x24e00850, 0xf92939eb, 0x78ce7989,
         0xfa2a4622, 0x3956c25b, 0x00000000, 0xe642b678, 0x1dfde3f2);
    Step(block, 5, 0x04409a6a, 0xd550f666, 0xc8c347a7, 0x5a6ad9ad, 0x43ada245, 0x24e00850, 0xf92939eb,
         0x78ce7989, 0x59f111f1, 0x00000000, 0x16d78700, 0x146a82f5);
    Step(block, 6, 0x2b4209f5, 0x04409a6a, 0xd550f666, 0xc8c347a7, 0x714260ad, 0x43ada245, 0x24e00850,
         0xf92939eb, 0x923f82a4, 0x00000000, 0xd2645c5a, 0x129ea726);
    Step(block, 7, 0xe5030380, 0x2b4209f5, 0x04409a6a, 0xd550f666, 0x9b27a401, 0x714260ad, 0x43ada245,
         0x24e00850, 0xab1c5ed5, 0x00000000, 0x37148413, 0x4e8bf74c);
  }

  lemma Rounds16(block: Bytes)
    requires Abc(block)
    ensures Rounds(INITIAL, block, 16) ==
            [0xb0fa238e, 0xc0645fde, 0xd932eb16, 0x87912990, 0x07590dcd, 0x0b92f20c, 0x745a48de, 0x1e578218]
  {
    hide W, Abc, Rounds, Scheduled;
    AbcSize(block);
    Rounds8(block);
    FirstWords(block);
    Step(block, 8, 0x85a07b5f, 0xe5030380, 0x2b4209f5, 0x04409a6a, 0x0c657a79, 0x9b27a401, 0x714260ad,
         0x43ada245, 0xd807aa98, 0x00000000, 0x2e899322, 0x5f7b5997);
    Step(block, 9, 0x8e04ecb9, 0x85a07b5f, 0xe5030380, 0x2b4209f5, 0x32ca2d8c, 0x0c657a79, 0x9b27a401,
         0x714260ad, 0x12835b01, 0x00000000, 0xf1871ba1, 0x9b0018ca);
    Step(block, 10, 0x8c87346b, 0x8e04ecb9, 0x85a07b5f, 0xe5030380, 0x1cc92596, 0x32ca2d8c, 0x0c657a79,
         0x9b27a401, 0x243185be, 0x00000000, 0x5e682068, 0xe930838c);
    Step(block, 11, 0x4798a3f4, 0x8c87346b, 0x8e04ecb9, 0x85a07b5f, 0x436b23e8, 0x1cc92596, 0x32ca2d8c,
         0x0c657a79, 0x550c7dc3, 0x00000000, 0xfbcf5b8a, 0xfb506a1f);
    Step(block, 12, 0xf71fc5a9, 0x4798a3f4, 0x8c87346b, 0x8e04ecb9, 0x816fd6e9, 0x436b23e8, 0x1cc92596,
         0x32ca2d8c, 0x72be5d74, 0x00000000, 0x9052955f, 0xf73e9431);
    Step(block, 13, 0x87912990, 0xf71fc5a9, 0x4798a3f4, 0x8c87346b, 0x1e578218, 0x816fd6e9, 0x436b23e8,
         0x1cc92596, 0x80deb1fe, 0x00000000, 0xe7d31473, 0xf15fd6a3);
    Step(block, 14, 0xd932eb16, 0x87912990, 0xf71fc5a9, 0x4798a3f4, 0x745a48de, 0x1e578218, 0x816fd6e9,
         0x436b23e8, 0x9bdc06a7, 0x00000000, 0xc3fa4e18, 0xfc6a11c6);
    Step(block, 15, 0xc0645fde, 0xd932eb16, 0x87912990, 0xf71fc5a9, 0x0b92f20c, 0x745a48de, 0x1e578218,
         0x816fd6e9, 0xc19bf174, 0x00000018, 0x10394824, 0xa0c0db6a);
  }

  lemma Rounds24(block: Bytes)
    requires Abc(block)
    ensures Rounds(INITIAL, block, 24) ==
            [0xc5d53d8d, 0xa7a3623f, 0xc2606d6d, 0x9dc68b63, 0xaa47c347, 0x49f5114a, 0xe1257970, 0x8ada8930]
  {
    hide W, Abc, Rounds, Scheduled;
    AbcSize(block);
    Rounds16(block);
    Words16(block);
    Step(block, 16, 0xb0fa238e, 0xc0645fde, 0xd932eb16, 0x87912990, 0x07590dcd, 0x0b92f20c, 0x745a48de,
         0x1e578218, 0xe49b69c1, 0x61626380, 0xf8a2f90c, 0x2937a18f);
    Step(block, 17, 0x21da9a9b, 0xb0fa238e, 0xc0645fde, 0xd932eb16, 0x8034229c, 0x07590dcd, 0x0b92f20c,
         0x745a48de, 0xefbe4786, 0x000f0000, 0xab3bf93e, 0x17bfe093);
    Step(block, 18, 0xc2fbd9d1, 0x21da9a9b, 0xb0fa238e, 0xc0645fde, 0x846ee454, 0x8034229c, 0x07590dcd,
         0x0b92f20c, 0x0fc19dc6, 0x7da86405, 0x0c253983, 0xf252423c);
    Step(block, 19, 0xfe777bbf, 0xc2fbd9d1, 0x21da9a9b, 0xb0fa238e, 0xcc899961, 0x846ee454, 0x8034229c,
         0x07590dcd, 0x240ca1cc, 0x600003c6, 0xff695deb, 0xe288ae48);
    Step(block, 20, 0xe1f20c33, 0xfe777bbf, 0xc2fbd9d1, 0x21da9a9b, 0xb0638179, 0xcc899961, 0x846ee454,
         0x8034229c, 0x2de92c6f, 0x3e9d7b78, 0x68ffee95, 0x34c69cce);
    Step(block, 21, 0x9dc68b63, 0xe1f20c33, 0xfe777bbf, 0xc2fbd9d1, 0x8ada8930, 0xb0638179, 0xcc899961,
         0x846ee454, 0x4a7484aa, 0x0183fc00, 0x1e299f9f, 0xa436cdce);
    Step(block, 22, 0xc2606d6d, 0x9dc68b63, 0xe1f20c33, 0xfe777bbf, 0xe1257970, 0x8ada8930, 0xb0638179,
         0xcc899961, 0x5cb0a9dc, 0x12dcbfdb, 0x4b7d958b, 0x5c25ccb4);
    Step(block, 23, 0xa7a3623f, 0xc2606d6d, 0x9dc68b63, 0xe1f20c33, 0x49f5114a, 0xe1257970, 0x8ada8930,
         0xb0638179, 0x76f988da, 0xe2e2c38e, 0xc855b714, 0xfd7f8679);
  }

  lemma Rounds32(block: Bytes)
    requires Abc(block)
    ensures Rounds(INITIAL, block, 32) ==
            [0x73b33bf5, 0xea992a22, 0xa0060b30, 0x363482c9, 0xba591112, 0x0109ab3a, 0xade79437, 0x6112a3b7]
  {
    hide W, Abc, Rounds, Scheduled;
    AbcSize(block);
    Rounds24(block);
    Words24(block);
    Step(block, 24, 0xc5d53d8d, 0xa7a3623f, 0xc2606d6d, 0x9dc68b63, 0xaa47c347, 0x49f5114a, 0xe1257970,
         0x8ada8930, 0x983e5152, 0xc8215c1a, 0x8a5d642e, 0x91cec40a);
    Step(block, 25, 0x1c2c2838, 0xc5d53d8d, 0xa7a3623f, 0xc2606d6d, 0x2823ef91, 0xaa47c347, 0x49f5114a,
         0xe1257970, 0xa831c66d, 0xb73679a2, 0x51d7d021, 0x7c10335c);
    Step(block, 26, 0xcde8037d, 0x1c2c2838, 0xc5d53d8d, 0xa7a3623f, 0x14383d8e, 0x2823ef91, 0xaa47c347,
         0x49f5114a, 0xb00327c8, 0xe5bc3909, 0x1fa902d7, 0x9685c1e5);
    Step(block, 27, 0xb62ec4bc, 0xcde8037d, 0x1c2c2838, 0xc5d53d8d, 0xc74c6516, 0x14383d8e, 0x2823ef91,
         0xaa47c347, 0xbf597fc7, 0x32663c5b, 0x282a826b, 0x4fa8f2bd);
    Step(block, 28, 0x77d37528, 0xb62ec4bc, 0xcde8037d, 0x1c2c2838, 0xedffbff8, 0xc74c6516, 0x14383d8e,
         0x2823ef91, 0xc6e00bf3, 0x9d209d67, 0x44e67b7f, 0xf14e074a);
    Step(block, 29, 0x363482c9, 0x77d37528, 0xb62ec4bc, 0xcde8037d, 0x6112a3b7, 0xedffbff8, 0xc74c6516,
         0x14383d8e, 0xd5a79147, 0xec8726cb, 0xdfff90ba, 0xc0067a76);
    Step(block, 30, 0xa0060b30, 0x363482c9, 0x77d37528, 0xb62ec4bc, 0xade79437, 0x6112a3b7, 0xedffbff8,
         0xc74c6516, 0x06ca6351, 0x702138a4, 0x4adae67e, 0x9fbe43a4);
    Step(block, 31, 0xea992a22, 0xa0060b30, 0x363482c9, 0x77d37528, 0x0109ab3a, 0xade79437, 0x6112a3b7,
         0xedffbff8, 0x14292967, 0xd3b7973b, 0x42859bea, 0x312da00b);
  }

  lemma Rounds40(block: Bytes)
    requires Abc(block)
    ensures Rounds(INITIAL, block, 40) ==
            [0x79ea687a, 0x6dc57a8a, 0x34df1604, 0x41a65cb1, 0x1efbc0a0, 0xf0781bc8, 0xa507a53d, 0x0772a26b]
  {
    hide W, Abc, Rounds, Scheduled;
    AbcSize(block);
    Rounds32(block);
    Words32(block);
    Step(block, 32, 0x73b33bf5, 0xea992a22, 0xa0060b30, 0x363482c9, 0xba591112, 0x0109ab3a, 0xade79437,
         0x6112a3b7, 0x27b70a85, 0x93f5997f, 0x66a5732d, 0x323bb1da);
    Step(block, 33, 0x98e12507, 0x73b33bf5, 0xea992a22, 0xa0060b30, 0x9cd9f5f6, 0xba591112, 0x0109ab3a,
         0xade79437, 0x2e1b2138, 0x3b68ba73, 0xb91e92a3, 0x4541bb52);
    Step(block, 34, 0xfe604df5, 0x98e12507, 0x73b33bf5, 0xea992a22, 0x59249dd3, 0x9cd9f5f6, 0xba591112,
         0x0109ab3a, 0x4d2c6dfc, 0xaff4ffc1, 0x1dc60e11, 0x8be1657b);
    Step(block, 35, 0xa9a7738c, 0xfe604df5, 0x98e12507, 0x73b33bf5, 0x085f3833, 0x59249dd3, 0x9cd9f5f6,
         0xba591112, 0x53380d13, 0xf10a5c62, 0x80fcc6e1, 0xe4a40903);
    Step(block, 36, 0x65a0cfe4, 0xa9a7738c, 0xfe604df5, 0x98e12507, 0xf4b002d6, 0x085f3833, 0x59249dd3,
         0x9cd9f5f6, 0x650a7354, 0x0a8b3996, 0x6e917d64, 0xd314df4d);
    Step(block, 37, 0x41a65cb1, 0x65a0cfe4, 0xa9a7738c, 0xfe604df5, 0x0772a26b, 0xf4b002d6, 0x085f3833,
         0x59249dd3, 0x766a0abb, 0x72af830a, 0xa6a75748, 0x8e37bebc);
    Step(block, 38, 0x34df1604, 0x41a65cb1, 0x65a0cfe4, 0xa9a7738c, 0xa507a53d, 0x0772a26b, 0xf4b002d6,
         0x085f3833, 0x81c2c92e, 0x9409e33e, 0x46d0a83c, 0x26f4d24e);
    Step(block, 39, 0x6dc57a8a, 0x34df1604, 0x41a65cb1, 0x65a0cfe4, 0xf0781bc8, 0xa507a53d, 0x0772a26b,
         0xf4b002d6, 0x92722c85, 0x24641522, 0xb95af0bc, 0xc08f77be);
  }

  lemma Rounds48(block: Bytes)
    requires Abc(block)
    ensures Rounds(INITIAL, block, 48) ==
            [0x4172328d, 0xa14c14b0, 0x72ab4b91, 0x26628815, 0xfecf0bc6, 0xd57b94a9, 0xb7755da1, 0xa80f11f0]
  {
    hide W, Abc, Rounds, Scheduled;
    AbcSize(block);
    Rounds40(block);
    Words40(block);
    Step(block, 40, 0x79ea687a, 0x6dc57a8a, 0x34df1604, 0x41a65cb1, 0x1efbc0a0, 0xf0781bc8, 0xa507a53d,
         0x0772a26b, 0xa2bfe8a1, 0x9f47bf94, 0xe48ed0b2, 0xf1d836b4);
    Step(block, 41, 0xd6670766, 0x79ea687a, 0x6dc57a8a, 0x34df1604, 0x26352d63, 0x1efbc0a0, 0xf0781bc8,
         0xa507a53d, 0xa81a664b, 0xf0a64f5a, 0x4eac110d, 0x909a5422);
    Step(block, 42, 0xdf46652f, 0xd6670766, 0x79ea687a, 0x6dc57a8a, 0x838b2711, 0x26352d63, 0x1efbc0a0,
         0xf0781bc8, 0xc24b8b70, 0x3e246a79, 0x7107cc8b, 0xa6a24173);
    Step(block, 43, 0x17aa0dfe, 0xdf46652f, 0xd6670766, 0x79ea687a, 0xdecd4715, 0x838b2711, 0x26352d63,
         0x1efbc0a0, 0xc76c51a3, 0x27333ba3, 0x83b7e3b4, 0x1993cbdf);
    Step(block, 44, 0x9d4baf93, 0x17aa0dfe, 0xdf46652f, 0xd6670766, 0xfda24c2e, 0xdecd4715, 0x838b2711,
         0x26352d63, 0xd192e819, 0x0c4763f2, 0xd1a80a8a, 0x54ba7d8b);
    Step(block, 45, 0x26628815, 0x9d4baf93, 0x17aa0dfe, 0xdf46652f, 0xa80f11f0, 0xfda24c2e, 0xdecd4715,
         0x838b2711, 0xd6990624, 0x840abf27, 0xd82ef872, 0x9a7c531f);
    Step(block, 46, 0x72ab4b91, 0x26628815, 0x9d4baf93, 0x17aa0dfe, 0xb7755da1, 0xa80f11f0, 0xfda24c2e,
         0xdecd4715, 0xf40e3585, 0x7a290d5d, 0xbdd186ab, 0xe37a8e05);
    Step(block, 47, 0xa14c14b0, 0x72ab4b91, 0x26628815, 0x9d4baf93, 0xd57b94a9, 0xb7755da1, 0xa80f11f0,
         0xfda24c2e, 0x106aa070, 0x065c43da, 0x61835c33, 0xdfeed65a);
  }

  lemma Rounds56(block: Bytes)
    requires Abc(block)
    ensures Rounds(INITIAL, block, 56) ==
            [0x38cc9913, 0x3ec45cdb, 0xf5702fdb, 0x101fd28f, 0x54cb266b, 0xe50e1b4f, 0x9f4787c3, 0x529e7d00]
  {
    hide W, Abc, Rounds, Scheduled;
    AbcSize(block);
    Rounds48(block);
    Words48(block);
    Step(block, 48, 0x4172328d, 0xa14c14b0, 0x72ab4b91, 0x26628815, 0xfecf0bc6, 0xd57b94a9, 0xb7755da1,
         0xa80f11f0, 0x19a4c116, 0xfb3e89cb, 0x970eb823, 0x6e66c4c8);
    Step(block, 49, 0x05757ceb, 0x4172328d, 0xa14c14b0, 0x72ab4b91, 0xbd714038, 0xfecf0bc6, 0xd57b94a9,
         0xb7755da1, 0x1e376c08, 0xcc7617db, 0xfbb0ed7b, 0xf56b0d2d);
    Step(block, 50, 0xf11bfaa8, 0x05757ceb, 0x4172328d, 0xa14c14b0, 0x6e5c390c, 0xbd714038, 0xfecf0bc6,
         0xd57b94a9, 0x2748774c, 0xb9e66c34, 0xb1a5b847, 0xc85f505a);
    Step(block, 51, 0x7a0508a1, 0xf11bfaa8, 0x05757ceb, 0x4172328d, 0x52f1ccf7, 0x6e5c390c, 0xbd714038,
         0xfecf0bc6, 0x34b0bcb5, 0xa9993667, 0x07b0e991, 0x80bd9091);
    Step(block, 52, 0x886e7a22, 0x7a0508a1, 0xf11bfaa8, 0x05757ceb, 0x49231c1e, 0x52f1ccf7, 0x6e5c390c,
         0xbd714038, 0x391c0cb3, 0x84badedd, 0x4d290015, 0xc2f6d27a);
    Step(block, 53, 0x101fd28f, 0x886e7a22, 0x7a0508a1, 0xf11bfaa8, 0x529e7d00, 0x49231c1e, 0x52f1ccf7,
         0x6e5c390c, 0x4ed8aa4a, 0xc21462bc, 0xae2b8d1b, 0x4744a2c0);
    Step(block, 54, 0xf5702fdb, 0x101fd28f, 0x886e7a22, 0x7a0508a1, 0x9f4787c3, 0x529e7d00, 0x49231c1e,
         0x52f1ccf7, 0x5b9cca4f, 0x1487472c, 0x6b0912ae, 0xd3bb4a2d);
    Step(block, 55, 0x3ec45cdb, 0xf5702fdb, 0x101fd28f, 0x886e7a22, 0xe50e1b4f, 0x9f4787c3, 0x529e7d00,
         0x49231c1e, 0x682e6ff3, 0xb20f7a99, 0xcc5cac49, 0x6c6fecca);
  }

  lemma Rounds64(block: Bytes)
    requires Abc(block)
    ensures Rounds(INITIAL, block, 64) ==
            [0x506e3058, 0xd39a2165, 0x04d24d6c, 0xb85e2ce9, 0x5ef50f24, 0xfb121210, 0x948d25b6, 0x961f4894]
  {
    hide W, Abc, Rounds, Scheduled;
    AbcSize(block);
    Rounds56(block);
    Words56(block);
    Step(block, 56, 0x38cc9913, 0x3ec45cdb, 0xf5702fdb, 0x101fd28f, 0x54cb266b, 0xe50e1b4f, 0x9f4787c3,
         0x529e7d00, 0x748f82ee, 0xef57b9cd, 0x8b3ebddd, 0x7192ca9e);
    Step(block, 57, 0xfcd1887b, 0x38cc9913, 0x3ec45cdb, 0xf5702fdb, 0x9b5e906c, 0x54cb266b, 0xe50e1b4f,
         0x9f4787c3, 0x78a5636f, 0xebe6b238, 0x88d3d0b3, 0x378f03bc);
    Step(block, 58, 0xc062d46f, 0xfcd1887b, 0x38cc9913, 0x3ec45cdb, 0x7e44008e, 0x9b5e906c, 0x54cb266b,
         0xe50e1b4f, 0x84c87814, 0x9fe3095e, 0x2ebf62eb, 0xd0f7a187);
    Step(block, 59, 0xffb70472, 0xc062d46f, 0xfcd1887b, 0x38cc9913, 0x6d83bfc6, 0x7e44008e, 0x9b5e906c,
         0x54cb266b, 0x8cc70208, 0x78bc8d4b, 0x794f142a, 0x3d5f7bd5);
    Step(block, 60, 0xb6ae8fff, 0xffb70472, 0xc062d46f, 0xfcd1887b, 0xb21bad3d, 0x6d83bfc6, 0x7e44008e,
         0x9b5e906c, 0x90befffa, 0xa43fcf15, 0x994dc019, 0x1f106cd0);
    Step(block, 61, 0xb85e2ce9, 0xb6ae8fff, 0xffb70472, 0xc062d46f, 0x961f4894, 0xb21bad3d, 0x6d83bfc6,
         0x7e44008e, 0xa4506ceb, 0x668b2ff8, 0xd42a5147, 0x30a7fc25);
    Step(block, 62, 0x04d24d6c, 0xb85e2ce9, 0xb6ae8fff, 0xffb70472, 0x948d25b6, 0x961f4894, 0xb21bad3d,
         0x6d83bfc6, 0xbef9a3f7, 0xeeaba2cc, 0xfb5b0d9e, 0xd83f13c7);
    Step(block, 63, 0xd39a2165, 0x04d24d6c, 0xb85e2ce9, 0xb6ae8fff, 0xfb121210, 0x948d25b6, 0x961f4894,
         0xb21bad3d, 0xc67178f2, 0x12b1edeb, 0xa8467f25, 0xa827b133);
  }

  lemma {:induction false} WordBytesAt(h: seq<Word>, k: nat)
    requires k < |h|
    ensures WordBytes(h)[4 * k..4 * k + 4] == BigEndian(h[k] as nat, 4)
  {
    hide BigEndian;
    if k < |h| - 1 {
      WordBytesAt(h[..|h| - 1], k);
    }
  }

  lemma CompressedAbc(block: Bytes)
    requires Abc(block)
    ensures Compress(INITIAL, block) ==
            [0xba7816bf, 0x8f01cfea, 0x414140de, 0x5dae2223, 0xb00361a3, 0x96177a9c, 0xb410ff61, 0xf20015ad]
  {
    hide Rounds, Abc;
    Rounds64(block);
    AbcSize(block);
  }

  lemma AbcSize(block: Bytes)
    requires Abc(block)
    ensures |block| == 64
  {
  }

  lemma FourBytes(value: nat, a: U8, b: U8, c: U8, d: U8)
    requires value == 256 * (256 * (256 * a + b) + c) + d
    ensures BigEndian(value, 4) == [a, b, c, d]
  {
    assert BigEndian(a, 1) == [a];
    assert BigEndian(256 * a + b, 2) == [a, b];
    assert BigEndian(256 * (256 * a + b) + c, 3) == [a, b, c];
  }

  lemma DigestWords()
    ensures BigEndian(0xba7816bf, 4) == [0xba, 0x78, 0x16, 0xbf]
    ensures BigEndian(0x8f01cfea, 4) == [0x8f, 0x01, 0xcf, 0xea]
    ensures BigEndian(0x414140de, 4) == [0x41, 0x41, 0x40, 0xde]
    ensures BigEndian(0x5dae2223, 4) == [0x5d, 0xae, 0x22, 0x23]
    ensures BigEndian(0xb00361a3, 4) == [0xb0, 0x03, 0x61, 0xa3]
    ensures BigEndian(0x96177a9c, 4) == [0x96, 0x17, 0x7a, 0x9c]
    ensures BigEndian(0xb410ff61, 4) == [0xb4, 0x10, 0xff, 0x61]
    ensures BigEndian(0xf20015ad, 4) == [0xf2, 0x00, 0x15, 0xad]
  {
    hide BigEndian;
    FourBytes(0xba7816bf, 0xba, 0x78, 0x16, 0xbf);
    FourBytes(0x8f01cfea, 0x8f, 0x01, 0xcf, 0xea);
    FourBytes(0x414140de, 0x41, 0x41, 0x40, 0xde);
    FourBytes(0x5dae2223, 0x5d, 0xae, 0x22, 0x23);
    FourBytes(0xb00361a3, 0xb0, 0x03, 0x61, 0xa3);
    FourBytes(0x96177a9c, 0x96, 0x17, 0x7a, 0x9c);
    FourBytes(0xb410ff61, 0xb4, 0x10, 0xff, 0x61);
    FourBytes(0xf20015ad, 0xf2, 0x00, 0x15, 0xad);
  }

  /** The digest of "abc" is the one that the standard prints, here word by word. */
  lemma DigestOfAbc()
    ensures Hash(ABC)[0..4] == [0xba, 0x78, 0x16, 0xbf]
    ensures Hash(ABC)[4..8] == [0x8f, 0x01, 0xcf, 0xea]
    ensures Hash(ABC)[8..12] == [0x41, 0x41, 0x40, 0xde]
    ensures Hash(ABC)[12..16] == [0x5d, 0xae, 0x22, 0x23]
    ensures Hash(ABC)[16..20] == [0xb0, 0x03, 0x61, 0xa3]
    ensures Hash(ABC)[20..24] == [0x96, 0x17, 0x7a, 0x9c]
    ensures Hash(ABC)[24..28] == [0xb4, 0x10, 0xff, 0x61]
    ensures Hash(ABC)[28..32] == [0xf2, 0x00, 0x15, 0xad]
  {
    hide Compress, BigEndian, Pad, Abc, WordBytes;
    var block := Pad(ABC);
    PaddedAbc();
    AbcSize(block);
    assert Fold([]) == INITIAL && [] + block == block;
    FoldBlock([], block);
    CompressedAbc(block);
    DigestWords();
    var h := Fold(block);
    WordBytesAt(h, 0);
    WordBytesAt(h, 1);
    WordBytesAt(h, 2);
    WordBytesAt(h, 3);
    WordBytesAt(h, 4);
    WordBytesAt(h, 5);
    WordBytesAt(h, 6);
    WordBytesAt(h, 7);
  }
}

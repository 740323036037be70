/** The digest of "abc", the published one-block example of SHA-256, computed step by step from the definition. */
module FipsExample {
  import opened Sha256
  import opened FipsConstants

  const ABC: seq<Octet> := [0x61, 0x62, 0x63]

  /** The message schedule of its only block. */
  const W: seq<Word> :=
    [0x61626380, 0x00000000, 0x00000000, 0x00000000, 0x00000000, 0x00000000, 0x00000000, 0x00000000] +
    [0x00000000, 0x00000000, 0x00000000, 0x00000000, 0x00000000, 0x00000000, 0x00000000, 0x00000018] +
    [0x61626380, 0x000f0000, 0x7da86405, 0x600003c6, 0x3e9d7b78, 0x0183fc00, 0x12dcbfdb, 0xe2e2c38e] +
    [0xc8215c1a, 0xb73679a2, 0xe5bc3909, 0x32663c5b, 0x9d209d67, 0xec8726cb, 0x702138a4, 0xd3b7973b] +
    [0x93f5997f, 0x3b68ba73, 0xaff4ffc1, 0xf10a5c62, 0x0a8b3996, 0x72af830a, 0x9409e33e, 0x24641522] +
    [0x9f47bf94, 0xf0a64f5a, 0x3e246a79, 0x27333ba3, 0x0c4763f2, 0x840abf27, 0x7a290d5d, 0x065c43da] +
    [0xfb3e89cb, 0xcc7617db, 0xb9e66c34, 0xa9993667, 0x84badedd, 0xc21462bc, 0x1487472c, 0xb20f7a99] +
    [0xef57b9cd, 0xebe6b238, 0x9fe3095e, 0x78bc8d4b, 0xa43fcf15, 0x668b2ff8, 0xeeaba2cc, 0x12b1edeb]

  // ----- the block -----

  lemma BlockOctets()
    ensures Padded(ABC) == ABC + [0x80] + Zeros(52) + [0, 0, 0, 0, 0, 0, 0, 24]
  {
    LengthIs24();
  }

  lemma LengthIs24()
    ensures LengthOctets(24) == [0, 0, 0, 0, 0, 0, 0, 24]
  {
    LengthZero(1);
    LengthZero(2);
    LengthZero(3);
    LengthZero(4);
    LengthZero(5);
    LengthZero(6);
    LengthZero(7);
    assert Power256(0) == 1;
  }

  lemma LengthZero(k: nat)
    requires 0 < k < 8
    ensures 24 / Power256(k) == 0
  {
    hide Power256;
    PowerAtLeast(k);
    SmallQuotient(24, Power256(k));
  }

  lemma SmallQuotient(n: nat, d: nat)
    requires n < d
    ensures n / d == 0
  {
  }

  lemma {:induction false} PowerAtLeast(k: nat)
    requires k > 0
    ensures Power256(k) >= 256
  {
    if k == 1 {
    } else {
      PowerAtLeast(k - 1);
    }
  }

  lemma OctetsAt()
    ensures var b := Padded(ABC);
            && |b| == 64 && b[0] == 0x61 && b[1] == 0x62 && b[2] == 0x63 && b[3] == 0x80
            && (forall k :: 4 <= k < 63 ==> b[k] == 0) && b[63] == 24
  {
    hide Padded;
    BlockOctets();
  }

  lemma FirstWords()
    ensures |Padded(ABC)| == 64 && |W| == 64 && ToWords(Padded(ABC)) == W[..16]
  {
    hide Padded, W, WordAt;
    OctetsAt();
    FirstListed();
    SixtyFour();
    WordsJoined();
    var b := Padded(ABC);
    forall i | 0 <= i < 16 ensures ToWords(b)[i] == W[i] {
      assert ToWords(b)[i] == WordAt(b[4 * i], b[4 * i + 1], b[4 * i + 2], b[4 * i + 3]);
    }
  }

  lemma WordsJoined()
    ensures WordAt(0x61, 0x62, 0x63, 0x80) == 0x61626380 && WordAt(0, 0, 0, 0) == 0 && WordAt(0, 0, 0, 24) == 0x18
  {
  }

  lemma FirstListed()
    ensures W[0] == 0x61626380 && W[1] == 0x00000000 && W[2] == 0x00000000 && W[3] == 0x00000000
    ensures W[4] == 0x00000000 && W[5] == 0x00000000 && W[6] == 0x00000000 && W[7] == 0x00000000
    ensures W[8] == 0x00000000 && W[9] == 0x00000000 && W[10] == 0x00000000 && W[11] == 0x00000000
    ensures W[12] == 0x00000000 && W[13] == 0x00000000 && W[14] == 0x00000000 && W[15] == 0x00000018
  {
  }

  // ----- the schedule -----

  /** The next word of a schedule from the four it depends on. */
  function Mix(a: Word, b: Word, c: Word, d: Word): Word {
    Sum(Sum(Sum(a, Sigma0(b)), c), Sigma1(d))
  }

  predicate MixedAt(i: nat)
    requires 16 <= i < 64
  {
    Mix(W[i - 16], W[i - 15], W[i - 7], W[i - 2]) == W[i]
  }

  lemma Scheduled0To7()
    ensures W[0] == 0x61626380 && W[1] == 0x00000000 && W[2] == 0x00000000 && W[3] == 0x00000000
    ensures W[4] == 0x00000000 && W[5] == 0x00000000 && W[6] == 0x00000000 && W[7] == 0x00000000
  {
  }

  lemma Scheduled8To15()
    ensures W[8] == 0x00000000 && W[9] == 0x00000000 && W[10] == 0x00000000 && W[11] == 0x00000000
    ensures W[12] == 0x00000000 && W[13] == 0x00000000 && W[14] == 0x00000000 && W[15] == 0x00000018
  {
  }

  lemma Scheduled16To23()
    ensures W[16] == 0x61626380 && W[17] == 0x000f0000 && W[18] == 0x7da86405 && W[19] == 0x600003c6
    ensures W[20] == 0x3e9d7b78 && W[21] == 0x0183fc00 && W[22] == 0x12dcbfdb && W[23] == 0xe2e2c38e
  {
  }

  lemma Scheduled24To31()
    ensures W[24] == 0xc8215c1a && W[25] == 0xb73679a2 && W[26] == 0xe5bc3909 && W[27] == 0x32663c5b
    ensures W[28] == 0x9d209d67 && W[29] == 0xec8726cb && W[30] == 0x702138a4 && W[31] == 0xd3b7973b
  {
  }

  lemma Scheduled32To39()
    ensures W[32] == 0x93f5997f && W[33] == 0x3b68ba73 && W[34] == 0xaff4ffc1 && W[35] == 0xf10a5c62
    ensures W[36] == 0x0a8b3996 && W[37] == 0x72af830a && W[38] == 0x9409e33e && W[39] == 0x24641522
  {
  }

  lemma Scheduled40To47()
    ensures W[40] == 0x9f47bf94 && W[41] == 0xf0a64f5a && W[42] == 0x3e246a79 && W[43] == 0x27333ba3
    ensures W[44] == 0x0c4763f2 && W[45] == 0x840abf27 && W[46] == 0x7a290d5d && W[47] == 0x065c43da
  {
  }

  lemma Scheduled48To55()
    ensures W[48] == 0xfb3e89cb && W[49] == 0xcc7617db && W[50] == 0xb9e66c34 && W[51] == 0xa9993667
    ensures W[52] == 0x84badedd && W[53] == 0xc21462bc && W[54] == 0x1487472c && W[55] == 0xb20f7a99
  {
  }

  lemma Scheduled56To63()
    ensures W[56] == 0xef57b9cd && W[57] == 0xebe6b238 && W[58] == 0x9fe3095e && W[59] == 0x78bc8d4b
    ensures W[60] == 0xa43fcf15 && W[61] == 0x668b2ff8 && W[62] == 0xeeaba2cc && W[63] == 0x12b1edeb
  {
  }

  lemma Mixed16To23()
    ensures Mix(0x61626380, 0x00000000, 0x00000000, 0x00000000) == 0x61626380
    ensures Mix(0x00000000, 0x00000000, 0x00000000, 0x00000018) == 0x000f0000
    ensures Mix(0x00000000, 0x00000000, 0x00000000, 0x61626380) == 0x7da86405
    ensures Mix(0x00000000, 0x00000000, 0x00000000, 0x000f0000) == 0x600003c6
    ensures Mix(0x00000000, 0x00000000, 0x00000000, 0x7da86405) == 0x3e9d7b78
    ensures Mix(0x00000000, 0x00000000, 0x00000000, 0x600003c6) == 0x0183fc00
    ensures Mix(0x00000000, 0x00000000, 0x00000018, 0x3e9d7b78) == 0x12dcbfdb
    ensures Mix(0x00000000, 0x00000000, 0x61626380, 0x0183fc00) == 0xe2e2c38e
  {
  }

  lemma Schedule16To23()
    ensures MixedAt(16) && MixedAt(17) && MixedAt(18) && MixedAt(19)
    ensures MixedAt(20) && MixedAt(21) && MixedAt(22) && MixedAt(23)
  {
    hide Mix, W;
    Scheduled0To7();
    Scheduled8To15();
    Scheduled16To23();
    Mixed16To23();
  }

  lemma Mixed24To31()
    ensures Mix(0x00000000, 0x00000000, 0x000f0000, 0x12dcbfdb) == 0xc8215c1a
    ensures Mix(0x00000000, 0x00000000, 0x7da86405, 0xe2e2c38e) == 0xb73679a2
    ensures Mix(0x00000000, 0x00000000, 0x600003c6, 0xc8215c1a) == 0xe5bc3909
    ensures Mix(0x00000000, 0x00000000, 0x3e9d7b78, 0xb73679a2) == 0x32663c5b
    ensures Mix(0x00000000, 0x00000000, 0x0183fc00, 0xe5bc3909) == 0x9d209d67
    ensures Mix(0x00000000, 0x00000000, 0x12dcbfdb, 0x32663c5b) == 0xec8726cb
    ensures Mix(0x00000000, 0x00000018, 0xe2e2c38e, 0x9d209d67) == 0x702138a4
    ensures Mix(0x00000018, 0x61626380, 0xc8215c1a, 0xec8726cb) == 0xd3b7973b
  {
  }

  lemma Schedule24To31()
    ensures MixedAt(24) && MixedAt(25) && MixedAt(26) && MixedAt(27)
    ensures MixedAt(28) && MixedAt(29) && MixedAt(30) && MixedAt(31)
  {
    hide Mix, W;
    Scheduled8To15();
    Scheduled16To23();
    Scheduled24To31();
    Mixed24To31();
  }

  lemma Mixed32To39()
    ensures Mix(0x61626380, 0x000f0000, 0xb73679a2, 0x702138a4) == 0x93f5997f
    ensures Mix(0x000f0000, 0x7da86405, 0xe5bc3909, 0xd3b7973b) == 0x3b68ba73
    ensures Mix(0x7da86405, 0x600003c6, 0x32663c5b, 0x93f5997f) == 0xaff4ffc1
    ensures Mix(0x600003c6, 0x3e9d7b78, 0x9d209d67, 0x3b68ba73) == 0xf10a5c62
    ensures Mix(0x3e9d7b78, 0x0183fc00, 0xec8726cb, 0xaff4ffc1) == 0x0a8b3996
    ensures Mix(0x0183fc00, 0x12dcbfdb, 0x702138a4, 0xf10a5c62) == 0x72af830a
    ensures Mix(0x12dcbfdb, 0xe2e2c38e, 0xd3b7973b, 0x0a8b3996) == 0x9409e33e
    ensures Mix(0xe2e2c38e, 0xc8215c1a, 0x93f5997f, 0x72af830a) == 0x24641522
  {
  }

  lemma Schedule32To39()
    ensures MixedAt(32) && MixedAt(33) && MixedAt(34) && MixedAt(35)
    ensures MixedAt(36) && MixedAt(37) && MixedAt(38) && MixedAt(39)
  {
    hide Mix, W;
    Scheduled16To23();
    Scheduled24To31();
    Scheduled32To39();
    Mixed32To39();
  }

  lemma Mixed40To47()
    ensures Mix(0xc8215c1a, 0xb73679a2, 0x3b68ba73, 0x9409e33e) == 0x9f47bf94
    ensures Mix(0xb73679a2, 0xe5bc3909, 0xaff4ffc1, 0x24641522) == 0xf0a64f5a
    ensures Mix(0xe5bc3909, 0x32663c5b, 0xf10a5c62, 0x9f47bf94) == 0x3e246a79
    ensures Mix(0x32663c5b, 0x9d209d67, 0x0a8b3996, 0xf0a64f5a) == 0x27333ba3
    ensures Mix(0x9d209d67, 0xec8726cb, 0x72af830a, 0x3e246a79) == 0x0c4763f2
    ensures Mix(0xec8726cb, 0x702138a4, 0x9409e33e, 0x27333ba3) == 0x840abf27
    ensures Mix(0x702138a4, 0xd3b7973b, 0x24641522, 0x0c4763f2) == 0x7a290d5d
    ensures Mix(0xd3b7973b, 0x93f5997f, 0x9f47bf94, 0x840abf27) == 0x065c43da
  {
  }

  lemma Schedule40To47()
    ensures MixedAt(40) && MixedAt(41) && MixedAt(42) && MixedAt(43)
    ensures MixedAt(44) && MixedAt(45) && MixedAt(46) && MixedAt(47)
  {
    hide Mix, W;
    Scheduled24To31();
    Scheduled32To39();
    Scheduled40To47();
    Mixed40To47();
  }

  lemma Mixed48To55()
    ensures Mix(0x93f5997f, 0x3b68ba73, 0xf0a64f5a, 0x7a290d5d) == 0xfb3e89cb
    ensures Mix(0x3b68ba73, 0xaff4ffc1, 0x3e246a79, 0x065c43da) == 0xcc7617db
    ensures Mix(0xaff4ffc1, 0xf10a5c62, 0x27333ba3, 0xfb3e89cb) == 0xb9e66c34
    ensures Mix(0xf10a5c62, 0x0a8b3996, 0x0c4763f2, 0xcc7617db) == 0xa9993667
    ensures Mix(0x0a8b3996, 0x72af830a, 0x840abf27, 0xb9e66c34) == 0x84badedd
    ensures Mix(0x72af830a, 0x9409e33e, 0x7a290d5d, 0xa9993667) == 0xc21462bc
    ensures Mix(0x9409e33e, 0x24641522, 0x065c43da, 0x84badedd) == 0x1487472c
    ensures Mix(0x24641522, 0x9f47bf94, 0xfb3e89cb, 0xc21462bc) == 0xb20f7a99
  {
  }

  lemma Schedule48To55()
    ensures MixedAt(48) && MixedAt(49) && MixedAt(50) && MixedAt(51)
    ensures MixedAt(52) && MixedAt(53) && MixedAt(54) && MixedAt(55)
  {
    hide Mix, W;
    Scheduled32To39();
    Scheduled40To47();
    Scheduled48To55();
    Mixed48To55();
  }

  lemma Mixed56To63()
    ensures Mix(0x9f47bf94, 0xf0a64f5a, 0xcc7617db, 0x1487472c) == 0xef57b9cd
    ensures Mix(0xf0a64f5a, 0x3e246a79, 0xb9e66c34, 0xb20f7a99) == 0xebe6b238
    ensures Mix(0x3e246a79, 0x27333ba3, 0xa9993667, 0xef57b9cd) == 0x9fe3095e
    ensures Mix(0x27333ba3, 0x0c4763f2, 0x84badedd, 0xebe6b238) == 0x78bc8d4b
    ensures Mix(0x0c4763f2, 0x840abf27, 0xc21462bc, 0x9fe3095e) == 0xa43fcf15
    ensures Mix(0x840abf27, 0x7a290d5d, 0x1487472c, 0x78bc8d4b) == 0x668b2ff8
    ensures Mix(0x7a290d5d, 0x065c43da, 0xb20f7a99, 0xa43fcf15) == 0xeeaba2cc
    ensures Mix(0x065c43da, 0xfb3e89cb, 0xef57b9cd, 0x668b2ff8) == 0x12b1edeb
  {
  }

  lemma Schedule56To63()
    ensures MixedAt(56) && MixedAt(57) && MixedAt(58) && MixedAt(59)
    ensures MixedAt(60) && MixedAt(61) && MixedAt(62) && MixedAt(63)
  {
    hide Mix, W;
    Scheduled40To47();
    Scheduled48To55();
    Scheduled56To63();
    Mixed56To63();
  }

  lemma AllMixed(i: nat)
    requires 16 <= i < 64
    ensures MixedAt(i)
  {
    hide MixedAt;
    if i < 24 {
      Schedule16To23();
    } else if i < 32 {
      Schedule24To31();
    } else if i < 40 {
      Schedule32To39();
    } else if i < 48 {
      Schedule40To47();
    } else if i < 56 {
      Schedule48To55();
    } else {
      Schedule56To63();
    }
  }

  lemma {:induction false} ScheduleIs(n: nat)
    requires 16 <= n <= 64
    ensures Schedule(W[..16], n) == W[..n]
  {
    hide W, Sum, Sigma0, Sigma1;
    SixtyFour();
    if n == 16 {
    } else {
      ScheduleIs(n - 1);
      AllMixed(n - 1);
      var w := W[..n - 1];
      assert w[n - 17] == W[n - 17] && w[n - 16] == W[n - 16] && w[n - 8] == W[n - 8] && w[n - 3] == W[n - 3];
      assert W[..n] == w + [W[n - 1]];
    }
  }

  lemma SixtyFour()
    ensures |W| == 64 && |K| == 64 && |IV| == 8
  {
  }

  // ----- the rounds -----

  function Temp1(e: Word, f: Word, g: Word, h: Word, k: Word, w: Word): Word {
    Sum(Sum(Sum(Sum(h, BigSigma1(e)), Ch(e, f, g)), k), w)
  }

  function Temp2(a: Word, b: Word, c: Word): Word {
    Sum(BigSigma0(a), Maj(a, b, c))
  }

  function Mixed(r: Registers, k: Word, w: Word): Registers {
    var t1, t2 := Temp1(r.e, r.f, r.g, r.h, k, w), Temp2(r.a, r.b, r.c);
    Registers(Sum(t1, t2), r.a, r.b, r.c, Sum(r.d, t1), r.e, r.f, r.g)
  }

  lemma RoundIs(r: Registers, k: Word, w: Word)
    ensures Round(r, k, w) == Mixed(r, k, w)
  {
  }

  const START: Registers := Load(IV)

  lemma Sigmas0To7()
    ensures BigSigma1(0x510e527f) == 0x3587272b && Ch(0x510e527f, 0x9b05688c, 0x1f83d9ab) == 0x1f85c98c
    ensures BigSigma0(0x6a09e667) == 0xce20b47e && Maj(0x6a09e667, 0xbb67ae85, 0x3c6ef372) == 0x3a6fe667
    ensures BigSigma1(0xfa2a4622) == 0x5a94fd2d && Ch(0xfa2a4622, 0x510e527f, 0x9b05688c) == 0x510f6aae
    ensures BigSigma0(0x5d6aebcd) == 0xa29f64d1 && Maj(0x5d6aebcd, 0x6a09e667, 0xbb67ae85) == 0x7b6beec5
    ensures BigSigma1(0x78ce7989) == 0x73f0e495 && Ch(0x78ce7989, 0xfa2a4622, 0x510e527f) == 0x790a4276
    ensures BigSigma0(0x5a6ad9ad) == 0x3096d054 && Maj(0x5a6ad9ad, 0x5d6aebcd, 0x6a09e667) == 0x5a6aebed
    ensures BigSigma1(0xf92939eb) == 0x0607743c && Ch(0xf92939eb, 0x78ce7989, 0xfa2a4622) == 0x7a0a7f89
    ensures BigSigma0(0xc8c347a7) == 0xc21008d0 && Maj(0xc8c347a7, 0x5a6ad9ad, 0x5d6aebcd) == 0x586acbad
    ensures BigSigma1(0x24e00850) == 0x3a933432 && Ch(0x24e00850, 0xf92939eb, 0x78ce7989) == 0x782e79c9
    ensures BigSigma0(0xd550f666) == 0x45bb0c4b && Maj(0xd550f666, 0xc8c347a7, 0x5a6ad9ad) == 0xd842d7a7
    ensures BigSigma1(0x43ada245) == 0x8b77e19c && Ch(0x43ada245, 0x24e00850, 0xf92939eb) == 0xb8a019ea
    ensures BigSigma0(0x04409a6a) == 0x5029ac8f && Maj(0x04409a6a, 0xd550f666, 0xc8c347a7) == 0xc440d666
    ensures BigSigma1(0x714260ad) == 0x015b7776 && Ch(0x714260ad, 0x43ada245, 0x24e00850) == 0x45a02855
    ensures BigSigma0(0x2b4209f5) == 0x0d5e0cc0 && Maj(0x2b4209f5, 0x04409a6a, 0xd550f666) == 0x05409a66
    ensures BigSigma1(0x9b27a401) == 0x158dfaa9 && Ch(0x9b27a401, 0x714260ad, 0x43ada245) == 0x518a2245
    ensures BigSigma0(0xe5030380) == 0x2949eb6c && Maj(0xe5030380, 0x2b4209f5, 0x04409a6a) == 0x25420be0
  {
  }

  lemma Sums0To7()
    ensures Sum(0x5be0cd19, 0x3587272b) == 0x9167f444 && Sum(0x9167f444, 0x1f85c98c) == 0xb0edbdd0
    ensures Sum(0xb0edbdd0, 0x428a2f98) == 0xf377ed68 && Sum(0xf377ed68, 0x61626380) == 0x54da50e8
    ensures Sum(0xce20b47e, 0x3a6fe667) == 0x08909ae5 && Sum(0x54da50e8, 0x08909ae5) == 0x5d6aebcd
    ensures Sum(0xa54ff53a, 0x54da50e8) == 0xfa2a4622
    ensures Sum(0x1f83d9ab, 0x5a94fd2d) == 0x7a18d6d8 && Sum(0x7a18d6d8, 0x510f6aae) == 0xcb284186
    ensures Sum(0xcb284186, 0x71374491) == 0x3c5f8617 && Sum(0x3c5f8617, 0x00000000) == 0x3c5f8617
    ensures Sum(0xa29f64d1, 0x7b6beec5) == 0x1e0b5396 && Sum(0x3c5f8617, 0x1e0b5396) == 0x5a6ad9ad
    ensures Sum(0x3c6ef372, 0x3c5f8617) == 0x78ce7989
    ensures Sum(0x9b05688c, 0x73f0e495) == 0x0ef64d21 && Sum(0x0ef64d21, 0x790a4276) == 0x88008f97
    ensures Sum(0x88008f97, 0xb5c0fbcf) == 0x3dc18b66 && Sum(0x3dc18b66, 0x00000000) == 0x3dc18b66
    ensures Sum(0x3096d054, 0x5a6aebed) == 0x8b01bc41 && Sum(0x3dc18b66, 0x8b01bc41) == 0xc8c347a7
    ensures Sum(0xbb67ae85, 0x3dc18b66) == 0xf92939eb
    ensures Sum(0x510e527f, 0x0607743c) == 0x5715c6bb && Sum(0x5715c6bb, 0x7a0a7f89) == 0xd1204644
    ensures Sum(0xd1204644, 0xe9b5dba5) == 0xbad621e9 && Sum(0xbad621e9, 0x00000000) == 0xbad621e9
    ensures Sum(0xc21008d0, 0x586acbad) == 0x1a7ad47d && Sum(0xbad621e9, 0x1a7ad47d) == 0xd550f666
    ensures Sum(0x6a09e667, 0xbad621e9) == 0x24e00850
    ensures Sum(0xfa2a4622, 0x3a933432) == 0x34bd7a54 && Sum(0x34bd7a54, 0x782e79c9) == 0xacebf41d
    ensures Sum(0xacebf41d, 0x3956c25b) == 0xe642b678 && Sum(0xe642b678, 0x00000000) == 0xe642b678
    ensures Sum(0x45bb0c4b, 0xd842d7a7) == 0x1dfde3f2 && Sum(0xe642b678, 0x1dfde3f2) == 0x04409a6a
    ensures Sum(0x5d6aebcd, 0xe642b678) == 0x43ada245
    ensures Sum(0x78ce7989, 0x8b77e19c) == 0x04465b25 && Sum(0x04465b25, 0xb8a019ea) == 0xbce6750f
    ensures Sum(0xbce6750f, 0x59f111f1) == 0x16d78700 && Sum(0x16d78700, 0x00000000) == 0x16d78700
    ensures Sum(0x5029ac8f, 0xc440d666) == 0x146a82f5 && Sum(0x16d78700, 0x146a82f5) == 0x2b4209f5
    ensures Sum(0x5a6ad9ad, 0x16d78700) == 0x714260ad
    ensures Sum(0xf92939eb, 0x015b7776) == 0xfa84b161 && Sum(0xfa84b161, 0x45a02855) == 0x4024d9b6
    ensures Sum(0x4024d9b6, 0x923f82a4) == 0xd2645c5a && Sum(0xd2645c5a, 0x00000000) == 0xd2645c5a
    ensures Sum(0x0d5e0cc0, 0x05409a66) == 0x129ea726 && Sum(0xd2645c5a, 0x129ea726) == 0xe5030380
    ensures Sum(0xc8c347a7, 0xd2645c5a) == 0x9b27a401
    ensures Sum(0x24e00850, 0x158dfaa9) == 0x3a6e02f9 && Sum(0x3a6e02f9, 0x518a2245) == 0x8bf8253e
    ensures Sum(0x8bf8253e, 0xab1c5ed5) == 0x37148413 && Sum(0x37148413, 0x00000000) == 0x37148413
    ensures Sum(0x2949eb6c, 0x25420be0) == 0x4e8bf74c && Sum(0x37148413, 0x4e8bf74c) == 0x85a07b5f
    ensures Sum(0xd550f666, 0x37148413) == 0x0c657a79
  {
  }

  lemma Rounds0To3()
    ensures Rounds(START, W, 4)
         == Registers(0xd550f666, 0xc8c347a7, 0x5a6ad9ad, 0x5d6aebcd, 0x24e00850, 0xf92939eb, 0x78ce7989, 0xfa2a4622)
  {
    hide Round, W, K, PRIMES, Rounds, START, BigSigma0, BigSigma1, Ch, Maj, Sum;
    SixtyFour();
    Listed0To7();
    Scheduled0To7();
    Sigmas0To7();
    Sums0To7();
    StartingPoint();
    OneRound(0);
    OneRound(1);
    OneRound(2);
    OneRound(3);
  }

  lemma Rounds0To7()
    ensures Rounds(START, W, 8)
         == Registers(0x85a07b5f, 0xe5030380, 0x2b4209f5, 0x04409a6a, 0x0c657a79, 0x9b27a401, 0x714260ad, 0x43ada245)
  {
    hide Round, W, K, PRIMES, Rounds, START, BigSigma0, BigSigma1, Ch, Maj, Sum;
    SixtyFour();
    Listed0To7();
    Scheduled0To7();
    Sigmas0To7();
    Sums0To7();
    Rounds0To3();
    OneRound(4);
    OneRound(5);
    OneRound(6);
    OneRound(7);
  }

  lemma Sigmas8To15()
    ensures BigSigma1(0x0c657a79) == 0x99ad25c0 && Ch(0x0c657a79, 0x9b27a401, 0x714260ad) == 0x79272085
    ensures BigSigma0(0x85a07b5f) == 0xba794dc2 && Maj(0x85a07b5f, 0xe5030380, 0x2b4209f5) == 0xa5020bd5
    ensures BigSigma1(0x32ca2d8c) == 0xe45bb7ea && Ch(0x32ca2d8c, 0x0c657a79, 0x9b27a401) == 0x8965a809
    ensures BigSigma0(0x8e04ecb9) == 0x15ffad31 && Maj(0x8e04ecb9, 0x85a07b5f, 0xe5030380) == 0x85006b99
    ensures BigSigma1(0x1cc92596) == 0x8e2276bc && Ch(0x1cc92596, 0x32ca2d8c, 0x0c657a79) == 0x10ec7fed
    ensures BigSigma0(0x8c87346b) == 0x5cac0711 && Maj(0x8c87346b, 0x8e04ecb9, 0x85a07b5f) == 0x8c847c7b
    ensures BigSigma1(0x436b23e8) == 0x699435ca && Ch(0x436b23e8, 0x1cc92596, 0x32ca2d8c) == 0x30c92d84
    ensures BigSigma0(0x4798a3f4) == 0x6ccbc526 && Maj(0x4798a3f4, 0x8c87346b, 0x8e04ecb9) == 0x8e84a4f9
    ensures BigSigma1(0x816fd6e9) == 0xccdee661 && Ch(0x816fd6e9, 0x436b23e8, 0x1cc92596) == 0x1deb23fe
    ensures BigSigma0(0xf71fc5a9) == 0x2f9eee48 && Maj(0xf71fc5a9, 0x4798a3f4, 0x8c87346b) == 0xc79fa5e9
    ensures BigSigma1(0x1e578218) == 0x08bb98f7 && Ch(0x1e578218, 0x816fd6e9, 0x436b23e8) == 0x416fa3e8
    ensures BigSigma0(0x87912990) == 0x29c634f3 && Maj(0x87912990, 0xf71fc5a9, 0x4798a3f4) == 0xc799a1b0
    ensures BigSigma1(0x745a48de) == 0x4f3b8d50 && Ch(0x745a48de, 0x1e578218, 0x816fd6e9) == 0x95779639
    ensures BigSigma0(0xd932eb16) == 0x25562836 && Maj(0xd932eb16, 0x87912990, 0xf71fc5a9) == 0xd713e990
    ensures BigSigma1(0x0b92f20c) == 0xb8d63f93 && Ch(0x0b92f20c, 0x745a48de, 0x1e578218) == 0x1457401c
    ensures BigSigma0(0xc0645fde) == 0xdf906fd4 && Maj(0xc0645fde, 0xd932eb16, 0x87912990) == 0xc1306b96
  {
  }

  lemma Sums8To15()
    ensures Sum(0x43ada245, 0x99ad25c0) == 0xdd5ac805 && Sum(0xdd5ac805, 0x79272085) == 0x5681e88a
    ensures Sum(0x5681e88a, 0xd807aa98) == 0x2e899322 && Sum(0x2e899322, 0x00000000) == 0x2e899322
    ensures Sum(0xba794dc2, 0xa5020bd5) == 0x5f7b5997 && Sum(0x2e899322, 0x5f7b5997) == 0x8e04ecb9
    ensures Sum(0x04409a6a, 0x2e899322) == 0x32ca2d8c
    ensures Sum(0x714260ad, 0xe45bb7ea) == 0x559e1897 && Sum(0x559e1897, 0x8965a809) == 0xdf03c0a0
    ensures Sum(0xdf03c0a0, 0x12835b01) == 0xf1871ba1 && Sum(0xf1871ba1, 0x00000000) == 0xf1871ba1
    ensures Sum(0x15ffad31, 0x85006b99) == 0x9b0018ca && Sum(0xf1871ba1, 0x9b0018ca) == 0x8c87346b
    ensures Sum(0x2b4209f5, 0xf1871ba1) == 0x1cc92596
    ensures Sum(0x9b27a401, 0x8e2276bc) == 0x294a1abd && Sum(0x294a1abd, 0x10ec7fed) == 0x3a369aaa
    ensures Sum(0x3a369aaa, 0x243185be) == 0x5e682068 && Sum(0x5e682068, 0x00000000) == 0x5e682068
    ensures Sum(0x5cac0711, 0x8c847c7b) == 0xe930838c && Sum(0x5e682068, 0xe930838c) == 0x4798a3f4
    ensures Sum(0xe5030380, 0x5e682068) == 0x436b23e8
    ensures Sum(0x0c657a79, 0x699435ca) == 0x75f9b043 && Sum(0x75f9b043, 0x30c92d84) == 0xa6c2ddc7
    ensures Sum(0xa6c2ddc7, 0x550c7dc3) == 0xfbcf5b8a && Sum(0xfbcf5b8a, 0x00000000) == 0xfbcf5b8a
    ensures Sum(0x6ccbc526, 0x8e84a4f9) == 0xfb506a1f && Sum(0xfbcf5b8a, 0xfb506a1f) == 0xf71fc5a9
    ensures Sum(0x85a07b5f, 0xfbcf5b8a) == 0x816fd6e9
    ensures Sum(0x32ca2d8c, 0xccdee661) == 0xffa913ed && Sum(0xffa913ed, 0x1deb23fe) == 0x1d9437eb
    ensures Sum(0x1d9437eb, 0x72be5d74) == 0x9052955f && Sum(0x9052955f, 0x00000000) == 0x9052955f
    ensures Sum(0x2f9eee48, 0xc79fa5e9) == 0xf73e9431 && Sum(0x9052955f, 0xf73e9431) == 0x87912990
    ensures Sum(0x8e04ecb9, 0x9052955f) == 0x1e578218
    ensures Sum(0x1cc92596, 0x08bb98f7) == 0x2584be8d && Sum(0x2584be8d, 0x416fa3e8) == 0x66f46275
    ensures Sum(0x66f46275, 0x80deb1fe) == 0xe7d31473 && Sum(0xe7d31473, 0x00000000) == 0xe7d31473
    ensures Sum(0x29c634f3, 0xc799a1b0) == 0xf15fd6a3 && Sum(0xe7d31473, 0xf15fd6a3) == 0xd932eb16
    ensures Sum(0x8c87346b, 0xe7d31473) == 0x745a48de
    ensures Sum(0x436b23e8, 0x4f3b8d50) == 0x92a6b138 && Sum(0x92a6b138, 0x95779639) == 0x281e4771
    ensures Sum(0x281e4771, 0x9bdc06a7) == 0xc3fa4e18 && Sum(0xc3fa4e18, 0x00000000) == 0xc3fa4e18
    ensures Sum(0x25562836, 0xd713e990) == 0xfc6a11c6 && Sum(0xc3fa4e18, 0xfc6a11c6) == 0xc0645fde
    ensures Sum(0x4798a3f4, 0xc3fa4e18) == 0x0b92f20c
    ensures Sum(0x816fd6e9, 0xb8d63f93) == 0x3a46167c && Sum(0x3a46167c, 0x1457401c) == 0x4e9d5698
    ensures Sum(0x4e9d5698, 0xc19bf174) == 0x1039480c && Sum(0x1039480c, 0x00000018) == 0x10394824
    ensures Sum(0xdf906fd4, 0xc1306b96) == 0xa0c0db6a && Sum(0x10394824, 0xa0c0db6a) == 0xb0fa238e
    ensures Sum(0xf71fc5a9, 0x10394824) == 0x07590dcd
  {
  }

  lemma Rounds8To15()
    ensures Rounds(START, W, 16)
         == Registers(0xb0fa238e, 0xc0645fde, 0xd932eb16, 0x87912990, 0x07590dcd, 0x0b92f20c, 0x745a48de, 0x1e578218)
  {
    hide Round, W, K, PRIMES, Rounds, START, BigSigma0, BigSigma1, Ch, Maj, Sum;
    SixtyFour();
    Listed8To15();
    Scheduled8To15();
    Sigmas8To15();
    Sums8To15();
    Rounds0To7();
    OneRound(8);
    OneRound(9);
    OneRound(10);
    OneRound(11);
    OneRound(12);
    OneRound(13);
    OneRound(14);
    OneRound(15);
  }

  lemma Sigmas16To23()
    ensures BigSigma1(0x07590dcd) == 0x213b6995 && Ch(0x07590dcd, 0x0b92f20c, 0x745a48de) == 0x7312401e
    ensures BigSigma0(0xb0fa238e) == 0x58c535f1 && Maj(0xb0fa238e, 0xc0645fde, 0xd932eb16) == 0xd0726b9e
    ensures BigSigma1(0x8034229c) == 0x3b81984e && Ch(0x8034229c, 0x07590dcd, 0x0b92f20c) == 0x0b92d08c
    ensures BigSigma0(0x21da9a9b) == 0x76c5c4f5 && Maj(0x21da9a9b, 0xb0fa238e, 0xc0645fde) == 0xa0fa1b9e
    ensures BigSigma1(0x846ee454) == 0xeff31c0f && Ch(0x846ee454, 0x8034229c, 0x07590dcd) == 0x8335299d
    ensures BigSigma0(0xc2fbd9d1) == 0x5157a6a1 && Maj(0xc2fbd9d1, 0x21da9a9b, 0xb0fa238e) == 0xa0fa9b9b
    ensures BigSigma1(0xcc899961) == 0xefc707b0 && Ch(0xcc899961, 0x846ee454, 0x8034229c) == 0x843ca2dc
    ensures BigSigma0(0xfe777bbf) == 0xff8cd2ad && Maj(0xfe777bbf, 0xc2fbd9d1, 0x21da9a9b) == 0xe2fbdb9b
    ensures BigSigma1(0xb0638179) == 0xf8373ead && Ch(0xb0638179, 0xcc899961, 0x846ee454) == 0x840de565
    ensures BigSigma0(0xe1f20c33) == 0x51d3431b && Maj(0xe1f20c33, 0xfe777bbf, 0xc2fbd9d1) == 0xe2f359b3
    ensures BigSigma1(0x8ada8930) == 0x897ea930 && Ch(0x8ada8930, 0xb0638179, 0xcc899961) == 0xc4439171
    ensures BigSigma0(0x9dc68b63) == 0xa640c29b && Maj(0x9dc68b63, 0xe1f20c33, 0xfe777bbf) == 0xfdf60b33
    ensures BigSigma1(0xe1257970) == 0x7f24093a && Ch(0xe1257970, 0x8ada8930, 0xb0638179) == 0x90428939
    ensures BigSigma0(0xc2606d6d) == 0x9a43bf51 && Maj(0xc2606d6d, 0x9dc68b63, 0xe1f20c33) == 0xc1e20d63
    ensures BigSigma1(0x49f5114a) == 0xfae64fc3 && Ch(0x49f5114a, 0xe1257970, 0x8ada8930) == 0xc32f9970
    ensures BigSigma0(0xa7a3623f) == 0x759d1b0a && Maj(0xa7a3623f, 0xc2606d6d, 0x9dc68b63) == 0x87e26b6f
  {
  }

  lemma Sums16To23()
    ensures Sum(0x1e578218, 0x213b6995) == 0x3f92ebad && Sum(0x3f92ebad, 0x7312401e) == 0xb2a52bcb
    ensures Sum(0xb2a52bcb, 0xe49b69c1) == 0x9740958c && Sum(0x9740958c, 0x61626380) == 0xf8a2f90c
    ensures Sum(0x58c535f1, 0xd0726b9e) == 0x2937a18f && Sum(0xf8a2f90c, 0x2937a18f) == 0x21da9a9b
    ensures Sum(0x87912990, 0xf8a2f90c) == 0x8034229c
    ensures Sum(0x745a48de, 0x3b81984e) == 0xafdbe12c && Sum(0xafdbe12c, 0x0b92d08c) == 0xbb6eb1b8
    ensures Sum(0xbb6eb1b8, 0xefbe4786) == 0xab2cf93e && Sum(0xab2cf93e, 0x000f0000) == 0xab3bf93e
    ensures Sum(0x76c5c4f5, 0xa0fa1b9e) == 0x17bfe093 && Sum(0xab3bf93e, 0x17bfe093) == 0xc2fbd9d1
    ensures Sum(0xd932eb16, 0xab3bf93e) == 0x846ee454
    ensures Sum(0x0b92f20c, 0xeff31c0f) == 0xfb860e1b && Sum(0xfb860e1b, 0x8335299d) == 0x7ebb37b8
    ensures Sum(0x7ebb37b8, 0x0fc19dc6) == 0x8e7cd57e && Sum(0x8e7cd57e, 0x7da86405) == 0x0c253983
    ensures Sum(0x5157a6a1, 0xa0fa9b9b) == 0xf252423c && Sum(0x0c253983, 0xf252423c) == 0xfe777bbf
    ensures Sum(0xc0645fde, 0x0c253983) == 0xcc899961
    ensures Sum(0x07590dcd, 0xefc707b0) == 0xf720157d && Sum(0xf720157d, 0x843ca2dc) == 0x7b5cb859
    ensures Sum(0x7b5cb859, 0x240ca1cc) == 0x9f695a25 && Sum(0x9f695a25, 0x600003c6) == 0xff695deb
    ensures Sum(0xff8cd2ad, 0xe2fbdb9b) == 0xe288ae48 && Sum(0xff695deb, 0xe288ae48) == 0xe1f20c33
    ensures Sum(0xb0fa238e, 0xff695deb) == 0xb0638179
    ensures Sum(0x8034229c, 0xf8373ead) == 0x786b6149 && Sum(0x786b6149, 0x840de565) == 0xfc7946ae
    ensures Sum(0xfc7946ae, 0x2de92c6f) == 0x2a62731d && Sum(0x2a62731d, 0x3e9d7b78) == 0x68ffee95
    ensures Sum(0x51d3431b, 0xe2f359b3) == 0x34c69cce && Sum(0x68ffee95, 0x34c69cce) == 0x9dc68b63
    ensures Sum(0x21da9a9b, 0x68ffee95) == 0x8ada8930
    ensures Sum(0x846ee454, 0x897ea930) == 0x0ded8d84 && Sum(0x0ded8d84, 0xc4439171) == 0xd2311ef5
    ensures Sum(0xd2311ef5, 0x4a7484aa) == 0x1ca5a39f && Sum(0x1ca5a39f, 0x0183fc00) == 0x1e299f9f
    ensures Sum(0xa640c29b, 0xfdf60b33) == 0xa436cdce && Sum(0x1e299f9f, 0xa436cdce) == 0xc2606d6d
    ensures Sum(0xc2fbd9d1, 0x1e299f9f) == 0xe1257970
    ensures Sum(0xcc899961, 0x7f24093a) == 0x4bada29b && Sum(0x4bada29b, 0x90428939) == 0xdbf02bd4
    ensures Sum(0xdbf02bd4, 0x5cb0a9dc) == 0x38a0d5b0 && Sum(0x38a0d5b0, 0x12dcbfdb) == 0x4b7d958b
    ensures Sum(0x9a43bf51, 0xc1e20d63) == 0x5c25ccb4 && Sum(0x4b7d958b, 0x5c25ccb4) == 0xa7a3623f
    ensures Sum(0xfe777bbf, 0x4b7d958b) == 0x49f5114a
    ensures Sum(0xb0638179, 0xfae64fc3) == 0xab49d13c && Sum(0xab49d13c, 0xc32f9970) == 0x6e796aac
    ensures Sum(0x6e796aac, 0x76f988da) == 0xe572f386 && Sum(0xe572f386, 0xe2e2c38e) == 0xc855b714
    ensures Sum(0x759d1b0a, 0x87e26b6f) == 0xfd7f8679 && Sum(0xc855b714, 0xfd7f8679) == 0xc5d53d8d
    ensures Sum(0xe1f20c33, 0xc855b714) == 0xaa47c347
  {
  }

  lemma Rounds16To23()
    ensures Rounds(START, W, 24)
         == Registers(0xc5d53d8d, 0xa7a3623f, 0xc2606d6d, 0x9dc68b63, 0xaa47c347, 0x49f5114a, 0xe1257970, 0x8ada8930)
  {
    hide Round, W, K, PRIMES, Rounds, START, BigSigma0, BigSigma1, Ch, Maj, Sum;
    SixtyFour();
    Listed16To23();
    Scheduled16To23();
    Sigmas16To23();
    Sums16To23();
    Rounds8To15();
    OneRound(16);
    OneRound(17);
    OneRound(18);
    OneRound(19);
    OneRound(20);
    OneRound(21);
    OneRound(22);
    OneRound(23);
  }

  lemma Sigmas24To31()
    ensures BigSigma1(0xaa47c347) == 0x55bdf420 && Ch(0xaa47c347, 0x49f5114a, 0xe1257970) == 0x49653972
    ensures BigSigma0(0xc5d53d8d) == 0xc9ed56dd && Maj(0xc5d53d8d, 0xa7a3623f, 0xc2606d6d) == 0xc7e16d2d
    ensures BigSigma1(0x2823ef91) == 0xa7724357 && Ch(0x2823ef91, 0xaa47c347, 0x49f5114a) == 0x69d7d34b
    ensures BigSigma0(0x1c2c2838) == 0xf66b0b1f && Maj(0x1c2c2838, 0xc5d53d8d, 0xa7a3623f) == 0x85a5283d
    ensures BigSigma1(0x14383d8e) == 0x958ca0fb && Ch(0x14383d8e, 0x2823ef91, 0xaa47c347) == 0xaa67efc1
    ensures BigSigma0(0xcde8037d) == 0xc89998a8 && Maj(0xcde8037d, 0x1c2c2838, 0xc5d53d8d) == 0xcdec293d
    ensures BigSigma1(0xc74c6516) == 0x5ff7537b && Ch(0xc74c6516, 0x14383d8e, 0x2823ef91) == 0x2c2baf87
    ensures BigSigma0(0xb62ec4bc) == 0xb37cf281 && Maj(0xb62ec4bc, 0xcde8037d, 0x1c2c2838) == 0x9c2c003c
    ensures BigSigma1(0xedffbff8) == 0xe375bd7e && Ch(0xedffbff8, 0xc74c6516, 0x14383d8e) == 0xd54c2516
    ensures BigSigma0(0x77d37528) == 0xf963c20e && Maj(0x77d37528, 0xb62ec4bc, 0xcde8037d) == 0xf7ea453c
    ensures BigSigma1(0x6112a3b7) == 0x2239b36a && Ch(0x6112a3b7, 0xedffbff8, 0xc74c6516) == 0xe75ee7b0
    ensures BigSigma0(0x363482c9) == 0x89cfb5ce && Maj(0x363482c9, 0x77d37528, 0xb62ec4bc) == 0x3636c4a8
    ensures BigSigma1(0xade79437) == 0xab883974 && Ch(0xade79437, 0x6112a3b7, 0xedffbff8) == 0x611aabff
    ensures BigSigma0(0xa0060b30) == 0x69a8407c && Maj(0xa0060b30, 0x363482c9, 0x77d37528) == 0x36160328
    ensures BigSigma1(0x0109ab3a) == 0x0b919a99 && Ch(0x0109ab3a, 0xade79437, 0x6112a3b7) == 0x611380b7
    ensures BigSigma0(0xea992a22) == 0x8f1995eb && Maj(0xea992a22, 0xa0060b30, 0x363482c9) == 0xa2140a20
  {
  }

  lemma Sums24To31()
    ensures Sum(0x8ada8930, 0x55bdf420) == 0xe0987d50 && Sum(0xe0987d50, 0x49653972) == 0x29fdb6c2
    ensures Sum(0x29fdb6c2, 0x983e5152) == 0xc23c0814 && Sum(0xc23c0814, 0xc8215c1a) == 0x8a5d642e
    ensures Sum(0xc9ed56dd, 0xc7e16d2d) == 0x91cec40a && Sum(0x8a5d642e, 0x91cec40a) == 0x1c2c2838
    ensures Sum(0x9dc68b63, 0x8a5d642e) == 0x2823ef91
    ensures Sum(0xe1257970, 0xa7724357) == 0x8897bcc7 && Sum(0x8897bcc7, 0x69d7d34b) == 0xf26f9012
    ensures Sum(0xf26f9012, 0xa831c66d) == 0x9aa1567f && Sum(0x9aa1567f, 0xb73679a2) == 0x51d7d021
    ensures Sum(0xf66b0b1f, 0x85a5283d) == 0x7c10335c && Sum(0x51d7d021, 0x7c10335c) == 0xcde8037d
    ensures Sum(0xc2606d6d, 0x51d7d021) == 0x14383d8e
    ensures Sum(0x49f5114a, 0x958ca0fb) == 0xdf81b245 && Sum(0xdf81b245, 0xaa67efc1) == 0x89e9a206
    ensures Sum(0x89e9a206, 0xb00327c8) == 0x39ecc9ce && Sum(0x39ecc9ce, 0xe5bc3909) == 0x1fa902d7
    ensures Sum(0xc89998a8, 0xcdec293d) == 0x9685c1e5 && Sum(0x1fa902d7, 0x9685c1e5) == 0xb62ec4bc
    ensures Sum(0xa7a3623f, 0x1fa902d7) == 0xc74c6516
    ensures Sum(0xaa47c347, 0x5ff7537b) == 0x0a3f16c2 && Sum(0x0a3f16c2, 0x2c2baf87) == 0x366ac649
    ensures Sum(0x366ac649, 0xbf597fc7) == 0xf5c44610 && Sum(0xf5c44610, 0x32663c5b) == 0x282a826b
    ensures Sum(0xb37cf281, 0x9c2c003c) == 0x4fa8f2bd && Sum(0x282a826b, 0x4fa8f2bd) == 0x77d37528
    ensures Sum(0xc5d53d8d, 0x282a826b) == 0xedffbff8
    ensures Sum(0x2823ef91, 0xe375bd7e) == 0x0b99ad0f && Sum(0x0b99ad0f, 0xd54c2516) == 0xe0e5d225
    ensures Sum(0xe0e5d225, 0xc6e00bf3) == 0xa7c5de18 && Sum(0xa7c5de18, 0x9d209d67) == 0x44e67b7f
    ensures Sum(0xf963c20e, 0xf7ea453c) == 0xf14e074a && Sum(0x44e67b7f, 0xf14e074a) == 0x363482c9
    ensures Sum(0x1c2c2838, 0x44e67b7f) == 0x6112a3b7
    ensures Sum(0x14383d8e, 0x2239b36a) == 0x3671f0f8 && Sum(0x3671f0f8, 0xe75ee7b0) == 0x1dd0d8a8
    ensures Sum(0x1dd0d8a8, 0xd5a79147) == 0xf37869ef && Sum(0xf37869ef, 0xec8726cb) == 0xdfff90ba
    ensures Sum(0x89cfb5ce, 0x3636c4a8) == 0xc0067a76 && Sum(0xdfff90ba, 0xc0067a76) == 0xa0060b30
    ensures Sum(0xcde8037d, 0xdfff90ba) == 0xade79437
    ensures Sum(0xc74c6516, 0xab883974) == 0x72d49e8a && Sum(0x72d49e8a, 0x611aabff) == 0xd3ef4a89
    ensures Sum(0xd3ef4a89, 0x06ca6351) == 0xdab9adda && Sum(0xdab9adda, 0x702138a4) == 0x4adae67e
    ensures Sum(0x69a8407c, 0x36160328) == 0x9fbe43a4 && Sum(0x4adae67e, 0x9fbe43a4) == 0xea992a22
    ensures Sum(0xb62ec4bc, 0x4adae67e) == 0x0109ab3a
    ensures Sum(0xedffbff8, 0x0b919a99) == 0xf9915a91 && Sum(0xf9915a91, 0x611380b7) == 0x5aa4db48
    ensures Sum(0x5aa4db48, 0x14292967) == 0x6ece04af && Sum(0x6ece04af, 0xd3b7973b) == 0x42859bea
    ensures Sum(0x8f1995eb, 0xa2140a20) == 0x312da00b && Sum(0x42859bea, 0x312da00b) == 0x73b33bf5
    ensures Sum(0x77d37528, 0x42859bea) == 0xba591112
  {
  }

  lemma Rounds24To31()
    ensures Rounds(START, W, 32)
         == Registers(0x73b33bf5, 0xea992a22, 0xa0060b30, 0x363482c9, 0xba591112, 0x0109ab3a, 0xade79437, 0x6112a3b7)
  {
    hide Round, W, K, PRIMES, Rounds, START, BigSigma0, BigSigma1, Ch, Maj, Sum;
    SixtyFour();
    Listed24To31();
    Scheduled24To31();
    Sigmas24To31();
    Sums24To31();
    Rounds16To23();
    OneRound(24);
    OneRound(25);
    OneRound(26);
    OneRound(27);
    OneRound(28);
    OneRound(29);
    OneRound(30);
    OneRound(31);
  }

  lemma Sigmas32To39()
    ensures BigSigma1(0xba591112) == 0x4436a63b && Ch(0xba591112, 0x0109ab3a, 0xade79437) == 0x05af8537
    ensures BigSigma0(0x73b33bf5) == 0x4fa886aa && Maj(0x73b33bf5, 0xea992a22, 0xa0060b30) == 0xe2932b30
    ensures BigSigma1(0x9cd9f5f6) == 0x085a07a7 && Ch(0x9cd9f5f6, 0xba591112, 0x0109ab3a) == 0x99591b1a
    ensures BigSigma0(0x98e12507) == 0x4a90902b && Maj(0x98e12507, 0x73b33bf5, 0xea992a22) == 0xfab12b27
    ensures BigSigma1(0x59249dd3) == 0x65415f48 && Ch(0x59249dd3, 0x9cd9f5f6, 0xba591112) == 0xba5995d2
    ensures BigSigma0(0xfe604df5) == 0x91003786 && Maj(0xfe604df5, 0x98e12507, 0x73b33bf5) == 0xfae12df5
    ensures BigSigma1(0x085f3833) == 0xe5dc6e83 && Ch(0x085f3833, 0x59249dd3, 0x9cd9f5f6) == 0x9c84ddd7
    ensures BigSigma0(0xa9a7738c) == 0x2bc2a37e && Maj(0xa9a7738c, 0xfe604df5, 0x98e12507) == 0xb8e16585
    ensures BigSigma1(0xf4b002d6) == 0x590d3d71 && Ch(0xf4b002d6, 0x085f3833, 0x59249dd3) == 0x09149d13
    ensures BigSigma0(0x65a0cfe4) == 0xe5748f69 && Maj(0x65a0cfe4, 0xa9a7738c, 0xfe604df5) == 0xeda04fe4
    ensures BigSigma1(0x0772a26b) == 0x582c115e && Ch(0x0772a26b, 0xf4b002d6, 0x085f3833) == 0x0c3d1a52
    ensures BigSigma0(0x41a65cb1) == 0x2c915f18 && Maj(0x41a65cb1, 0x65a0cfe4, 0xa9a7738c) == 0x61a65fa4
    ensures BigSigma1(0xa507a53d) == 0xd2f220b2 && Ch(0xa507a53d, 0x0772a26b, 0xf4b002d6) == 0x55b2a2eb
    ensures BigSigma0(0x34df1604) == 0xc14e73aa && Maj(0x34df1604, 0x41a65cb1, 0x65a0cfe4) == 0x65a65ea4
    ensures BigSigma1(0xf0781bc8) == 0x66d20b14 && Ch(0xf0781bc8, 0xa507a53d, 0x0772a26b) == 0xa702a12b
    ensures BigSigma0(0x6dc57a8a) == 0x5ac8193e && Maj(0x6dc57a8a, 0x34df1604, 0x41a65cb1) == 0x65c75e80
  {
  }

  lemma Sums32To39()
    ensures Sum(0x6112a3b7, 0x4436a63b) == 0xa54949f2 && Sum(0xa54949f2, 0x05af8537) == 0xaaf8cf29
    ensures Sum(0xaaf8cf29, 0x27b70a85) == 0xd2afd9ae && Sum(0xd2afd9ae, 0x93f5997f) == 0x66a5732d
    ensures Sum(0x4fa886aa, 0xe2932b30) == 0x323bb1da && Sum(0x66a5732d, 0x323bb1da) == 0x98e12507
    ensures Sum(0x363482c9, 0x66a5732d) == 0x9cd9f5f6
    ensures Sum(0xade79437, 0x085a07a7) == 0xb6419bde && Sum(0xb6419bde, 0x99591b1a) == 0x4f9ab6f8
    ensures Sum(0x4f9ab6f8, 0x2e1b2138) == 0x7db5d830 && Sum(0x7db5d830, 0x3b68ba73) == 0xb91e92a3
    ensures Sum(0x4a90902b, 0xfab12b27) == 0x4541bb52 && Sum(0xb91e92a3, 0x4541bb52) == 0xfe604df5
    ensures Sum(0xa0060b30, 0xb91e92a3) == 0x59249dd3
    ensures Sum(0x0109ab3a, 0x65415f48) == 0x664b0a82 && Sum(0x664b0a82, 0xba5995d2) == 0x20a4a054
    ensures Sum(0x20a4a054, 0x4d2c6dfc) == 0x6dd10e50 && Sum(0x6dd10e50, 0xaff4ffc1) == 0x1dc60e11
    ensures Sum(0x91003786, 0xfae12df5) == 0x8be1657b && Sum(0x1dc60e11, 0x8be1657b) == 0xa9a7738c
    ensures Sum(0xea992a22, 0x1dc60e11) == 0x085f3833
    ensures Sum(0xba591112, 0xe5dc6e83) == 0xa0357f95 && Sum(0xa0357f95, 0x9c84ddd7) == 0x3cba5d6c
    ensures Sum(0x3cba5d6c, 0x53380d13) == 0x8ff26a7f && Sum(0x8ff26a7f, 0xf10a5c62) == 0x80fcc6e1
    ensures Sum(0x2bc2a37e, 0xb8e16585) == 0xe4a40903 && Sum(0x80fcc6e1, 0xe4a40903) == 0x65a0cfe4
    ensures Sum(0x73b33bf5, 0x80fcc6e1) == 0xf4b002d6
    ensures Sum(0x9cd9f5f6, 0x590d3d71) == 0xf5e73367 && Sum(0xf5e73367, 0x09149d13) == 0xfefbd07a
    ensures Sum(0xfefbd07a, 0x650a7354) == 0x640643ce && Sum(0x640643ce, 0x0a8b3996) == 0x6e917d64
    ensures Sum(0xe5748f69, 0xeda04fe4) == 0xd314df4d && Sum(0x6e917d64, 0xd314df4d) == 0x41a65cb1
    ensures Sum(0x98e12507, 0x6e917d64) == 0x0772a26b
    ensures Sum(0x59249dd3, 0x582c115e) == 0xb150af31 && Sum(0xb150af31, 0x0c3d1a52) == 0xbd8dc983
    ensures Sum(0xbd8dc983, 0x766a0abb) == 0x33f7d43e && Sum(0x33f7d43e, 0x72af830a) == 0xa6a75748
    ensures Sum(0x2c915f18, 0x61a65fa4) == 0x8e37bebc && Sum(0xa6a75748, 0x8e37bebc) == 0x34df1604
    ensures Sum(0xfe604df5, 0xa6a75748) == 0xa507a53d
    ensures Sum(0x085f3833, 0xd2f220b2) == 0xdb5158e5 && Sum(0xdb5158e5, 0x55b2a2eb) == 0x3103fbd0
    ensures Sum(0x3103fbd0, 0x81c2c92e) == 0xb2c6c4fe && Sum(0xb2c6c4fe, 0x9409e33e) == 0x46d0a83c
    ensures Sum(0xc14e73aa, 0x65a65ea4) == 0x26f4d24e && Sum(0x46d0a83c, 0x26f4d24e) == 0x6dc57a8a
    ensures Sum(0xa9a7738c, 0x46d0a83c) == 0xf0781bc8
    ensures Sum(0xf4b002d6, 0x66d20b14) == 0x5b820dea && Sum(0x5b820dea, 0xa702a12b) == 0x0284af15
    ensures Sum(0x0284af15, 0x92722c85) == 0x94f6db9a && Sum(0x94f6db9a, 0x24641522) == 0xb95af0bc
    ensures Sum(0x5ac8193e, 0x65c75e80) == 0xc08f77be && Sum(0xb95af0bc, 0xc08f77be) == 0x79ea687a
    ensures Sum(0x65a0cfe4, 0xb95af0bc) == 0x1efbc0a0
  {
  }

  lemma Rounds32To39()
    ensures Rounds(START, W, 40)
         == Registers(0x79ea687a, 0x6dc57a8a, 0x34df1604, 0x41a65cb1, 0x1efbc0a0, 0xf0781bc8, 0xa507a53d, 0x0772a26b)
  {
    hide Round, W, K, PRIMES, Rounds, START, BigSigma0, BigSigma1, Ch, Maj, Sum;
    SixtyFour();
    Listed32To39();
    Scheduled32To39();
    Sigmas32To39();
    Sums32To39();
    Rounds24To31();
    OneRound(32);
    OneRound(33);
    OneRound(34);
    OneRound(35);
    OneRound(36);
    OneRound(37);
    OneRound(38);
    OneRound(39);
  }

  lemma Sigmas40To47()
    ensures BigSigma1(0x1efbc0a0) == 0xe9986075 && Ch(0x1efbc0a0, 0xf0781bc8, 0xa507a53d) == 0xb17c259d
    ensures BigSigma0(0x79ea687a) == 0x7408bcaa && Maj(0x79ea687a, 0x6dc57a8a, 0x34df1604) == 0x7dcf7a0a
    ensures BigSigma1(0x26352d63) == 0x3a6aa383 && Ch(0x26352d63, 0x1efbc0a0, 0xf0781bc8) == 0xd67912a8
    ensures BigSigma0(0xd6670766) == 0x12b2e9b8 && Maj(0xd6670766, 0x79ea687a, 0x6dc57a8a) == 0x7de76a6a
    ensures BigSigma1(0x838b2711) == 0x61add539 && Ch(0x838b2711, 0x26352d63, 0x1efbc0a0) == 0x1e71e5a1
    ensures BigSigma0(0xdf46652f) == 0xc73bdc05 && Maj(0xdf46652f, 0xd6670766, 0x79ea687a) == 0xdf66656e
    ensures BigSigma1(0xdecd4715) == 0xd363665b && Ch(0xdecd4715, 0x838b2711, 0x26352d63) == 0xa2b92f73
    ensures BigSigma0(0x17aa0dfe) == 0x422dc671 && Maj(0x17aa0dfe, 0xdf46652f, 0xd6670766) == 0xd766056e
    ensures BigSigma1(0xfda24c2e) == 0xef0f2a07 && Ch(0xfda24c2e, 0xdecd4715, 0x838b2711) == 0xde896715
    ensures BigSigma0(0x9d4baf93) == 0xb5704fcc && Maj(0x9d4baf93, 0x17aa0dfe, 0xdf46652f) == 0x9f4a2dbf
    ensures BigSigma1(0xa80f11f0) == 0xfb3dc5f1 && Ch(0xa80f11f0, 0xfda24c2e, 0xdecd4715) == 0xfec24625
    ensures BigSigma0(0x26628815) == 0x8311c588 && Maj(0x26628815, 0x9d4baf93, 0x17aa0dfe) == 0x176a8d97
    ensures BigSigma1(0xb7755da1) == 0x8845eb06 && Ch(0xb7755da1, 0xa80f11f0, 0xfda24c2e) == 0xe88711ae
    ensures BigSigma0(0x72ab4b91) == 0xad0f0274 && Maj(0x72ab4b91, 0x26628815, 0x9d4baf93) == 0x366b8b91
    ensures BigSigma1(0xd57b94a9) == 0x8fa515ca && Ch(0xd57b94a9, 0xb7755da1, 0xa80f11f0) == 0xbd7515f1
    ensures BigSigma0(0xa14c14b0) == 0xbd84cdc9 && Maj(0xa14c14b0, 0x72ab4b91, 0x26628815) == 0x226a0891
  {
  }

  lemma Sums40To47()
    ensures Sum(0x0772a26b, 0xe9986075) == 0xf10b02e0 && Sum(0xf10b02e0, 0xb17c259d) == 0xa287287d
    ensures Sum(0xa287287d, 0xa2bfe8a1) == 0x4547111e && Sum(0x4547111e, 0x9f47bf94) == 0xe48ed0b2
    ensures Sum(0x7408bcaa, 0x7dcf7a0a) == 0xf1d836b4 && Sum(0xe48ed0b2, 0xf1d836b4) == 0xd6670766
    ensures Sum(0x41a65cb1, 0xe48ed0b2) == 0x26352d63
    ensures Sum(0xa507a53d, 0x3a6aa383) == 0xdf7248c0 && Sum(0xdf7248c0, 0xd67912a8) == 0xb5eb5b68
    ensures Sum(0xb5eb5b68, 0xa81a664b) == 0x5e05c1b3 && Sum(0x5e05c1b3, 0xf0a64f5a) == 0x4eac110d
    ensures Sum(0x12b2e9b8, 0x7de76a6a) == 0x909a5422 && Sum(0x4eac110d, 0x909a5422) == 0xdf46652f
    ensures Sum(0x34df1604, 0x4eac110d) == 0x838b2711
    ensures Sum(0xf0781bc8, 0x61add539) == 0x5225f101 && Sum(0x5225f101, 0x1e71e5a1) == 0x7097d6a2
    ensures Sum(0x7097d6a2, 0xc24b8b70) == 0x32e36212 && Sum(0x32e36212, 0x3e246a79) == 0x7107cc8b
    ensures Sum(0xc73bdc05, 0xdf66656e) == 0xa6a24173 && Sum(0x7107cc8b, 0xa6a24173) == 0x17aa0dfe
    ensures Sum(0x6dc57a8a, 0x7107cc8b) == 0xdecd4715
    ensures Sum(0x1efbc0a0, 0xd363665b) == 0xf25f26fb && Sum(0xf25f26fb, 0xa2b92f73) == 0x9518566e
    ensures Sum(0x9518566e, 0xc76c51a3) == 0x5c84a811 && Sum(0x5c84a811, 0x27333ba3) == 0x83b7e3b4
    ensures Sum(0x422dc671, 0xd766056e) == 0x1993cbdf && Sum(0x83b7e3b4, 0x1993cbdf) == 0x9d4baf93
    ensures Sum(0x79ea687a, 0x83b7e3b4) == 0xfda24c2e
    ensures Sum(0x26352d63, 0xef0f2a07) == 0x1544576a && Sum(0x1544576a, 0xde896715) == 0xf3cdbe7f
    ensures Sum(0xf3cdbe7f, 0xd192e819) == 0xc560a698 && Sum(0xc560a698, 0x0c4763f2) == 0xd1a80a8a
    ensures Sum(0xb5704fcc, 0x9f4a2dbf) == 0x54ba7d8b && Sum(0xd1a80a8a, 0x54ba7d8b) == 0x26628815
    ensures Sum(0xd6670766, 0xd1a80a8a) == 0xa80f11f0
    ensures Sum(0x838b2711, 0xfb3dc5f1) == 0x7ec8ed02 && Sum(0x7ec8ed02, 0xfec24625) == 0x7d8b3327
    ensures Sum(0x7d8b3327, 0xd6990624) == 0x5424394b && Sum(0x5424394b, 0x840abf27) == 0xd82ef872
    ensures Sum(0x8311c588, 0x176a8d97) == 0x9a7c531f && Sum(0xd82ef872, 0x9a7c531f) == 0x72ab4b91
    ensures Sum(0xdf46652f, 0xd82ef872) == 0xb7755da1
    ensures Sum(0xdecd4715, 0x8845eb06) == 0x6713321b && Sum(0x6713321b, 0xe88711ae) == 0x4f9a43c9
    ensures Sum(0x4f9a43c9, 0xf40e3585) == 0x43a8794e && Sum(0x43a8794e, 0x7a290d5d) == 0xbdd186ab
    ensures Sum(0xad0f0274, 0x366b8b91) == 0xe37a8e05 && Sum(0xbdd186ab, 0xe37a8e05) == 0xa14c14b0
    ensures Sum(0x17aa0dfe, 0xbdd186ab) == 0xd57b94a9
    ensures Sum(0xfda24c2e, 0x8fa515ca) == 0x8d4761f8 && Sum(0x8d4761f8, 0xbd7515f1) == 0x4abc77e9
    ensures Sum(0x4abc77e9, 0x106aa070) == 0x5b271859 && Sum(0x5b271859, 0x065c43da) == 0x61835c33
    ensures Sum(0xbd84cdc9, 0x226a0891) == 0xdfeed65a && Sum(0x61835c33, 0xdfeed65a) == 0x4172328d
    ensures Sum(0x9d4baf93, 0x61835c33) == 0xfecf0bc6
  {
  }

  lemma Rounds40To47()
    ensures Rounds(START, W, 48)
         == Registers(0x4172328d, 0xa14c14b0, 0x72ab4b91, 0x26628815, 0xfecf0bc6, 0xd57b94a9, 0xb7755da1, 0xa80f11f0)
  {
    hide Round, W, K, PRIMES, Rounds, START, BigSigma0, BigSigma1, Ch, Maj, Sum;
    SixtyFour();
    Listed40To47();
    Scheduled40To47();
    Sigmas40To47();
    Sums40To47();
    Rounds32To39();
    OneRound(40);
    OneRound(41);
    OneRound(42);
    OneRound(43);
    OneRound(44);
    OneRound(45);
    OneRound(46);
    OneRound(47);
  }

  lemma Sigmas48To55()
    ensures BigSigma1(0xfecf0bc6) == 0x04a106b1 && Ch(0xfecf0bc6, 0xd57b94a9, 0xb7755da1) == 0xd57b54a1
    ensures BigSigma0(0x4172328d) == 0x0cfcb237 && Maj(0x4172328d, 0xa14c14b0, 0x72ab4b91) == 0x616a1291
    ensures BigSigma1(0xbd714038) == 0x5d427776 && Ch(0xbd714038, 0xfecf0bc6, 0xd57b94a9) == 0xfc4b9481
    ensures BigSigma0(0x05757ceb) == 0xf3f6d884 && Maj(0x05757ceb, 0x4172328d, 0xa14c14b0) == 0x017434a9
    ensures BigSigma1(0x6e5c390c) == 0x3e283d54 && Ch(0x6e5c390c, 0xbd714038, 0xfecf0bc6) == 0xbcd302ca
    ensures BigSigma0(0xf11bfaa8) == 0x86ebd5b1 && Maj(0xf11bfaa8, 0x05757ceb, 0x4172328d) == 0x41737aa9
    ensures BigSigma1(0x52f1ccf7) == 0x3b47e2a3 && Ch(0x52f1ccf7, 0x6e5c390c, 0xbd714038) == 0xef50080c
    ensures BigSigma0(0x7a0508a1) == 0x0fa817e8 && Maj(0x7a0508a1, 0xf11bfaa8, 0x05757ceb) == 0x711578a9
    ensures BigSigma1(0x49231c1e) == 0x6b63a737 && Ch(0x49231c1e, 0x52f1ccf7, 0x6e5c390c) == 0x667d2d16
    ensures BigSigma0(0x886e7a22) == 0xcae757da && Maj(0x886e7a22, 0x7a0508a1, 0xf11bfaa8) == 0xf80f7aa0
    ensures BigSigma1(0x529e7d00) == 0xee7eaa12 && Ch(0x529e7d00, 0x49231c1e, 0x52f1ccf7) == 0x40639cf7
    ensures BigSigma0(0x101fd28f) == 0x2f35481d && Maj(0x101fd28f, 0x886e7a22, 0x7a0508a1) == 0x180f5aa3
    ensures BigSigma1(0x9f4787c3) == 0x55cd1720 && Ch(0x9f4787c3, 0x529e7d00, 0x49231c1e) == 0x52261d1c
    ensures BigSigma0(0xf5702fdb) == 0x433ccfa2 && Maj(0xf5702fdb, 0x101fd28f, 0x886e7a22) == 0x907e7a8b
    ensures BigSigma1(0xe50e1b4f) == 0xd1653e5c && Ch(0xe50e1b4f, 0x9f4787c3, 0x529e7d00) == 0x97966743
    ensures BigSigma0(0x3ec45cdb) == 0x381b8def && Maj(0x3ec45cdb, 0xf5702fdb, 0x101fd28f) == 0x34545edb
  {
  }

  lemma Sums48To55()
    ensures Sum(0xa80f11f0, 0x04a106b1) == 0xacb018a1 && Sum(0xacb018a1, 0xd57b54a1) == 0x822b6d42
    ensures Sum(0x822b6d42, 0x19a4c116) == 0x9bd02e58 && Sum(0x9bd02e58, 0xfb3e89cb) == 0x970eb823
    ensures Sum(0x0cfcb237, 0x616a1291) == 0x6e66c4c8 && Sum(0x970eb823, 0x6e66c4c8) == 0x05757ceb
    ensures Sum(0x26628815, 0x970eb823) == 0xbd714038
    ensures Sum(0xb7755da1, 0x5d427776) == 0x14b7d517 && Sum(0x14b7d517, 0xfc4b9481) == 0x11036998
    ensures Sum(0x11036998, 0x1e376c08) == 0x2f3ad5a0 && Sum(0x2f3ad5a0, 0xcc7617db) == 0xfbb0ed7b
    ensures Sum(0xf3f6d884, 0x017434a9) == 0xf56b0d2d && Sum(0xfbb0ed7b, 0xf56b0d2d) == 0xf11bfaa8
    ensures Sum(0x72ab4b91, 0xfbb0ed7b) == 0x6e5c390c
    ensures Sum(0xd57b94a9, 0x3e283d54) == 0x13a3d1fd && Sum(0x13a3d1fd, 0xbcd302ca) == 0xd076d4c7
    ensures Sum(0xd076d4c7, 0x2748774c) == 0xf7bf4c13 && Sum(0xf7bf4c13, 0xb9e66c34) == 0xb1a5b847
    ensures Sum(0x86ebd5b1, 0x41737aa9) == 0xc85f505a && Sum(0xb1a5b847, 0xc85f505a) == 0x7a0508a1
    ensures Sum(0xa14c14b0, 0xb1a5b847) == 0x52f1ccf7
    ensures Sum(0xfecf0bc6, 0x3b47e2a3) == 0x3a16ee69 && Sum(0x3a16ee69, 0xef50080c) == 0x2966f675
    ensures Sum(0x2966f675, 0x34b0bcb5) == 0x5e17b32a && Sum(0x5e17b32a, 0xa9993667) == 0x07b0e991
    ensures Sum(0x0fa817e8, 0x711578a9) == 0x80bd9091 && Sum(0x07b0e991, 0x80bd9091) == 0x886e7a22
    ensures Sum(0x4172328d, 0x07b0e991) == 0x49231c1e
    ensures Sum(0xbd714038, 0x6b63a737) == 0x28d4e76f && Sum(0x28d4e76f, 0x667d2d16) == 0x8f521485
    ensures Sum(0x8f521485, 0x391c0cb3) == 0xc86e2138 && Sum(0xc86e2138, 0x84badedd) == 0x4d290015
    ensures Sum(0xcae757da, 0xf80f7aa0) == 0xc2f6d27a && Sum(0x4d290015, 0xc2f6d27a) == 0x101fd28f
    ensures Sum(0x05757ceb, 0x4d290015) == 0x529e7d00
    ensures Sum(0x6e5c390c, 0xee7eaa12) == 0x5cdae31e && Sum(0x5cdae31e, 0x40639cf7) == 0x9d3e8015
    ensures Sum(0x9d3e8015, 0x4ed8aa4a) == 0xec172a5f && Sum(0xec172a5f, 0xc21462bc) == 0xae2b8d1b
    ensures Sum(0x2f35481d, 0x180f5aa3) == 0x4744a2c0 && Sum(0xae2b8d1b, 0x4744a2c0) == 0xf5702fdb
    ensures Sum(0xf11bfaa8, 0xae2b8d1b) == 0x9f4787c3
    ensures Sum(0x52f1ccf7, 0x55cd1720) == 0xa8bee417 && Sum(0xa8bee417, 0x52261d1c) == 0xfae50133
    ensures Sum(0xfae50133, 0x5b9cca4f) == 0x5681cb82 && Sum(0x5681cb82, 0x1487472c) == 0x6b0912ae
    ensures Sum(0x433ccfa2, 0x907e7a8b) == 0xd3bb4a2d && Sum(0x6b0912ae, 0xd3bb4a2d) == 0x3ec45cdb
    ensures Sum(0x7a0508a1, 0x6b0912ae) == 0xe50e1b4f
    ensures Sum(0x49231c1e, 0xd1653e5c) == 0x1a885a7a && Sum(0x1a885a7a, 0x97966743) == 0xb21ec1bd
    ensures Sum(0xb21ec1bd, 0x682e6ff3) == 0x1a4d31b0 && Sum(0x1a4d31b0, 0xb20f7a99) == 0xcc5cac49
    ensures Sum(0x381b8def, 0x34545edb) == 0x6c6fecca && Sum(0xcc5cac49, 0x6c6fecca) == 0x38cc9913
    ensures Sum(0x886e7a22, 0xcc5cac49) == 0x54cb266b
  {
  }

  lemma Rounds48To55()
    ensures Rounds(START, W, 56)
         == Registers(0x38cc9913, 0x3ec45cdb, 0xf5702fdb, 0x101fd28f, 0x54cb266b, 0xe50e1b4f, 0x9f4787c3, 0x529e7d00)
  {
    hide Round, W, K, PRIMES, Rounds, START, BigSigma0, BigSigma1, Ch, Maj, Sum;
    SixtyFour();
    Listed48To55();
    Scheduled48To55();
    Sigmas48To55();
    Sums48To55();
    Rounds40To47();
    OneRound(48);
    OneRound(49);
    OneRound(50);
    OneRound(51);
    OneRound(52);
    OneRound(53);
    OneRound(54);
    OneRound(55);
  }

  lemma Sigmas56To63()
    ensures BigSigma1(0x54cb266b) == 0x05aa8057 && Ch(0x54cb266b, 0xe50e1b4f, 0x9f4787c3) == 0xcf0e83cb
    ensures BigSigma0(0x38cc9913) == 0x34ceacc3 && Maj(0x38cc9913, 0x3ec45cdb, 0xf5702fdb) == 0x3cc41ddb
    ensures BigSigma1(0x9b5e906c) == 0x10b627de && Ch(0x9b5e906c, 0x54cb266b, 0xe50e1b4f) == 0x744a0b6b
    ensures BigSigma0(0xfcd1887b) == 0xfaca6b61 && Maj(0xfcd1887b, 0x38cc9913, 0x3ec45cdb) == 0x3cc4985b
    ensures BigSigma1(0x7e44008e) == 0x0a369fbd && Ch(0x7e44008e, 0x9b5e906c, 0x54cb266b) == 0x1acf266d
    ensures BigSigma0(0xc062d46f) == 0xd837090c && Maj(0xc062d46f, 0xfcd1887b, 0x38cc9913) == 0xf8c0987b
    ensures BigSigma1(0x6d83bfc6) == 0x20a45dbe && Ch(0x6d83bfc6, 0x7e44008e, 0x9b5e906c) == 0xfe5c00ae
    ensures BigSigma0(0xffb70472) == 0x406bf75a && Maj(0xffb70472, 0xc062d46f, 0xfcd1887b) == 0xfcf3847b
    ensures BigSigma1(0xb21bad3d) == 0x5ca8b318 && Ch(0xb21bad3d, 0x6d83bfc6, 0x7e44008e) == 0x6c47ad86
    ensures BigSigma0(0xb6ae8fff) == 0x2869e851 && Maj(0xb6ae8fff, 0xffb70472, 0xc062d46f) == 0xf6a6847f
    ensures BigSigma1(0x961f4894) == 0x4f6ef480 && Ch(0x961f4894, 0xb21bad3d, 0x6d83bfc6) == 0xfb9bbf56
    ensures BigSigma0(0xb85e2ce9) == 0x71e9ef2a && Maj(0xb85e2ce9, 0xb6ae8fff, 0xffb70472) == 0xbebe0cfb
    ensures BigSigma1(0x948d25b6) == 0x2a127e78 && Ch(0x948d25b6, 0x961f4894, 0xb21bad3d) == 0xb61f889d
    ensures BigSigma0(0x04d24d6c) == 0x236105da && Maj(0x04d24d6c, 0xb85e2ce9, 0xb6ae8fff) == 0xb4de0ded
    ensures BigSigma1(0xfb121210) == 0x88fa2277 && Ch(0xfb121210, 0x948d25b6, 0x961f4894) == 0x940d4894
    ensures BigSigma0(0xd39a2165) == 0x174d83c6 && Maj(0xd39a2165, 0x04d24d6c, 0xb85e2ce9) == 0x90da2d6d
  {
  }

  lemma Sums56To63()
    ensures Sum(0x529e7d00, 0x05aa8057) == 0x5848fd57 && Sum(0x5848fd57, 0xcf0e83cb) == 0x27578122
    ensures Sum(0x27578122, 0x748f82ee) == 0x9be70410 && Sum(0x9be70410, 0xef57b9cd) == 0x8b3ebddd
    ensures Sum(0x34ceacc3, 0x3cc41ddb) == 0x7192ca9e && Sum(0x8b3ebddd, 0x7192ca9e) == 0xfcd1887b
    ensures Sum(0x101fd28f, 0x8b3ebddd) == 0x9b5e906c
    ensures Sum(0x9f4787c3, 0x10b627de) == 0xaffdafa1 && Sum(0xaffdafa1, 0x744a0b6b) == 0x2447bb0c
    ensures Sum(0x2447bb0c, 0x78a5636f) == 0x9ced1e7b && Sum(0x9ced1e7b, 0xebe6b238) == 0x88d3d0b3
    ensures Sum(0xfaca6b61, 0x3cc4985b) == 0x378f03bc && Sum(0x88d3d0b3, 0x378f03bc) == 0xc062d46f
    ensures Sum(0xf5702fdb, 0x88d3d0b3) == 0x7e44008e
    ensures Sum(0xe50e1b4f, 0x0a369fbd) == 0xef44bb0c && Sum(0xef44bb0c, 0x1acf266d) == 0x0a13e179
    ensures Sum(0x0a13e179, 0x84c87814) == 0x8edc598d && Sum(0x8edc598d, 0x9fe3095e) == 0x2ebf62eb
    ensures Sum(0xd837090c, 0xf8c0987b) == 0xd0f7a187 && Sum(0x2ebf62eb, 0xd0f7a187) == 0xffb70472
    ensures Sum(0x3ec45cdb, 0x2ebf62eb) == 0x6d83bfc6
    ensures Sum(0x54cb266b, 0x20a45dbe) == 0x756f8429 && Sum(0x756f8429, 0xfe5c00ae) == 0x73cb84d7
    ensures Sum(0x73cb84d7, 0x8cc70208) == 0x009286df && Sum(0x009286df, 0x78bc8d4b) == 0x794f142a
    ensures Sum(0x406bf75a, 0xfcf3847b) == 0x3d5f7bd5 && Sum(0x794f142a, 0x3d5f7bd5) == 0xb6ae8fff
    ensures Sum(0x38cc9913, 0x794f142a) == 0xb21bad3d
    ensures Sum(0x9b5e906c, 0x5ca8b318) == 0xf8074384 && Sum(0xf8074384, 0x6c47ad86) == 0x644ef10a
    ensures Sum(0x644ef10a, 0x90befffa) == 0xf50df104 && Sum(0xf50df104, 0xa43fcf15) == 0x994dc019
    ensures Sum(0x2869e851, 0xf6a6847f) == 0x1f106cd0 && Sum(0x994dc019, 0x1f106cd0) == 0xb85e2ce9
    ensures Sum(0xfcd1887b, 0x994dc019) == 0x961f4894
    ensures Sum(0x7e44008e, 0x4f6ef480) == 0xcdb2f50e && Sum(0xcdb2f50e, 0xfb9bbf56) == 0xc94eb464
    ensures Sum(0xc94eb464, 0xa4506ceb) == 0x6d9f214f && Sum(0x6d9f214f, 0x668b2ff8) == 0xd42a5147
    ensures Sum(0x71e9ef2a, 0xbebe0cfb) == 0x30a7fc25 && Sum(0xd42a5147, 0x30a7fc25) == 0x04d24d6c
    ensures Sum(0xc062d46f, 0xd42a5147) == 0x948d25b6
    ensures Sum(0x6d83bfc6, 0x2a127e78) == 0x97963e3e && Sum(0x97963e3e, 0xb61f889d) == 0x4db5c6db
    ensures Sum(0x4db5c6db, 0xbef9a3f7) == 0x0caf6ad2 && Sum(0x0caf6ad2, 0xeeaba2cc) == 0xfb5b0d9e
    ensures Sum(0x236105da, 0xb4de0ded) == 0xd83f13c7 && Sum(0xfb5b0d9e, 0xd83f13c7) == 0xd39a2165
    ensures Sum(0xffb70472, 0xfb5b0d9e) == 0xfb121210
    ensures Sum(0xb21bad3d, 0x88fa2277) == 0x3b15cfb4 && Sum(0x3b15cfb4, 0x940d4894) == 0xcf231848
    ensures Sum(0xcf231848, 0xc67178f2) == 0x9594913a && Sum(0x9594913a, 0x12b1edeb) == 0xa8467f25
    ensures Sum(0x174d83c6, 0x90da2d6d) == 0xa827b133 && Sum(0xa8467f25, 0xa827b133) == 0x506e3058
    ensures Sum(0xb6ae8fff, 0xa8467f25) == 0x5ef50f24
  {
  }

  lemma Rounds56To63()
    ensures Rounds(START, W, 64)
         == Registers(0x506e3058, 0xd39a2165, 0x04d24d6c, 0xb85e2ce9, 0x5ef50f24, 0xfb121210, 0x948d25b6, 0x961f4894)
  {
    hide Round, W, K, PRIMES, Rounds, START, BigSigma0, BigSigma1, Ch, Maj, Sum;
    SixtyFour();
    Listed56To63();
    Scheduled56To63();
    Sigmas56To63();
    Sums56To63();
    Rounds48To55();
    OneRound(56);
    OneRound(57);
    OneRound(58);
    OneRound(59);
    OneRound(60);
    OneRound(61);
    OneRound(62);
    OneRound(63);
  }

  lemma StartingPoint()
    ensures Rounds(START, W, 0)
         == Registers(0x6a09e667, 0xbb67ae85, 0x3c6ef372, 0xa54ff53a, 0x510e527f, 0x9b05688c, 0x1f83d9ab, 0x5be0cd19)
  {
  }

  lemma OneRound(n: nat)
    requires n < 64 && n < |W| && n < |K|
    ensures Rounds(START, W, n + 1) == Mixed(Rounds(START, W, n), K[n], W[n])
  {
    hide Round, W, K, IV, Load, Mixed, START;
    RoundIs(Rounds(START, W, n), K[n], W[n]);
  }

  // ----- the digest -----

  /** SHA-256 of "abc" is ba7816bf 8f01cfea 414140de 5dae2223 b00361a3 96177a9c b410ff61 f20015ad. */
  lemma DigestOfAbc()
    ensures Digest(ABC) == ToOctets([0xba7816bf, 0x8f01cfea, 0x414140de, 0x5dae2223,
                                     0xb00361a3, 0x96177a9c, 0xb410ff61, 0xf20015ad])
  {
    hide Padded, ToOctets, W, IV, CompressWords;
    FirstWords();
    SixtyFour();
    CompressedAbc();
    var m := Padded(ABC);
    assert m[64 * 0..64 * 1] == m;
    assert Absorb(IV, m, 0) == IV;
    assert Absorb(IV, m, 1) == Compress(IV, m);
  }

  lemma CompressedAbc()
    ensures |W| == 64
    ensures CompressWords(IV, W[..16])
         == [0xba7816bf, 0x8f01cfea, 0x414140de, 0x5dae2223,
             0xb00361a3, 0x96177a9c, 0xb410ff61, 0xf20015ad]
  {
    hide W, Rounds, Schedule, Load, IV, Sum;
    SixtyFour();
    ScheduleIs(64);
    assert W[..64] == W;
    Rounds56To63();
    FinalSums();
  }

  lemma FinalSums()
    ensures Sum(IV[0], 0x506e3058) == 0xba7816bf && Sum(IV[1], 0xd39a2165) == 0x8f01cfea
    ensures Sum(IV[2], 0x04d24d6c) == 0x414140de && Sum(IV[3], 0xb85e2ce9) == 0x5dae2223
    ensures Sum(IV[4], 0x5ef50f24) == 0xb00361a3 && Sum(IV[5], 0xfb121210) == 0x96177a9c
    ensures Sum(IV[6], 0x948d25b6) == 0xb410ff61 && Sum(IV[7], 0x961f4894) == 0xf20015ad
  {
  }
}

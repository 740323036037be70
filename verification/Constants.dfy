/** Where the constants of SHA-256 come from: the first 32 bits of the fractional parts of the cube roots of the
    first sixty-four primes and of the square roots of the first eight (FIPS 180-4, sections 4.2.2 and 5.3.3). */
module FipsConstants {
  import opened Sha256

  const TWO32: nat := 0x1_0000_0000

  const PRIMES: seq<nat> :=
    [2, 3, 5, 7, 11, 13, 17, 19] +
    [23, 29, 31, 37, 41, 43, 47, 53] +
    [59, 61, 67, 71, 73, 79, 83, 89] +
    [97, 101, 103, 107, 109, 113, 127, 131] +
    [137, 139, 149, 151, 157, 163, 167, 173] +
    [179, 181, 191, 193, 197, 199, 211, 223] +
    [227, 229, 233, 239, 241, 251, 257, 263] +
    [269, 271, 277, 281, 283, 293, 307, 311]

  function Cube(v: nat): nat {
    v * v * v
  }

  function AsWord(x: nat): Word
    requires x < TWO32
  {
    x as Word
  }

  /** The prime's cube root lies between two neighbouring 32-bit fractions, x over 2^32 and the next, above n. */
  predicate CubeRootAt(prime: nat, n: nat, x: nat) {
    Cube(n * TWO32 + x) <= prime * Cube(TWO32) < Cube(n * TWO32 + x + 1)
  }

  predicate SquareRootAt(prime: nat, n: nat, x: nat) {
    (n * TWO32 + x) * (n * TWO32 + x) <= prime * TWO32 * TWO32 < (n * TWO32 + x + 1) * (n * TWO32 + x + 1)
  }

  ghost predicate IsCubeRoot(prime: nat, w: Word) {
    exists n: nat, x: nat :: x < TWO32 && AsWord(x) == w && CubeRootAt(prime, n, x)
  }

  ghost predicate IsSquareRoot(prime: nat, w: Word) {
    exists n: nat, x: nat :: x < TWO32 && AsWord(x) == w && SquareRootAt(prime, n, x)
  }

  lemma Roots0To7()
    ensures CubeRootAt(2, 1, 0x428a2f98) && CubeRootAt(3, 1, 0x71374491)
    ensures CubeRootAt(5, 1, 0xb5c0fbcf) && CubeRootAt(7, 1, 0xe9b5dba5)
    ensures CubeRootAt(11, 2, 0x3956c25b) && CubeRootAt(13, 2, 0x59f111f1)
    ensures CubeRootAt(17, 2, 0x923f82a4) && CubeRootAt(19, 2, 0xab1c5ed5)
  {
  }

  lemma Words0To7()
    ensures AsWord(0x428a2f98) == 0x428a2f98 && AsWord(0x71374491) == 0x71374491
    ensures AsWord(0xb5c0fbcf) == 0xb5c0fbcf && AsWord(0xe9b5dba5) == 0xe9b5dba5
    ensures AsWord(0x3956c25b) == 0x3956c25b && AsWord(0x59f111f1) == 0x59f111f1
    ensures AsWord(0x923f82a4) == 0x923f82a4 && AsWord(0xab1c5ed5) == 0xab1c5ed5
  {
  }

  lemma Listed0To7()
    ensures PRIMES[0] == 2 && K[0] == 0x428a2f98 && PRIMES[1] == 3 && K[1] == 0x71374491
    ensures PRIMES[2] == 5 && K[2] == 0xb5c0fbcf && PRIMES[3] == 7 && K[3] == 0xe9b5dba5
    ensures PRIMES[4] == 11 && K[4] == 0x3956c25b && PRIMES[5] == 13 && K[5] == 0x59f111f1
    ensures PRIMES[6] == 17 && K[6] == 0x923f82a4 && PRIMES[7] == 19 && K[7] == 0xab1c5ed5
  {
  }

  lemma Constants0To7()
    ensures IsCubeRoot(PRIMES[0], K[0]) && IsCubeRoot(PRIMES[1], K[1])
    ensures IsCubeRoot(PRIMES[2], K[2]) && IsCubeRoot(PRIMES[3], K[3])
    ensures IsCubeRoot(PRIMES[4], K[4]) && IsCubeRoot(PRIMES[5], K[5])
    ensures IsCubeRoot(PRIMES[6], K[6]) && IsCubeRoot(PRIMES[7], K[7])
  {
    hide CubeRootAt, AsWord, IsCubeRoot, K, PRIMES;
    Roots0To7();
    Words0To7();
    Listed0To7();
    CubeRoot(2, 1, 0x428a2f98);
    CubeRoot(3, 1, 0x71374491);
    CubeRoot(5, 1, 0xb5c0fbcf);
    CubeRoot(7, 1, 0xe9b5dba5);
    CubeRoot(11, 2, 0x3956c25b);
    CubeRoot(13, 2, 0x59f111f1);
    CubeRoot(17, 2, 0x923f82a4);
    CubeRoot(19, 2, 0xab1c5ed5);
  }

  lemma Roots8To15()
    ensures CubeRootAt(23, 2, 0xd807aa98) && CubeRootAt(29, 3, 0x12835b01)
    ensures CubeRootAt(31, 3, 0x243185be) && CubeRootAt(37, 3, 0x550c7dc3)
    ensures CubeRootAt(41, 3, 0x72be5d74) && CubeRootAt(43, 3, 0x80deb1fe)
    ensures CubeRootAt(47, 3, 0x9bdc06a7) && CubeRootAt(53, 3, 0xc19bf174)
  {
  }

  lemma Words8To15()
    ensures AsWord(0xd807aa98) == 0xd807aa98 && AsWord(0x12835b01) == 0x12835b01
    ensures AsWord(0x243185be) == 0x243185be && AsWord(0x550c7dc3) == 0x550c7dc3
    ensures AsWord(0x72be5d74) == 0x72be5d74 && AsWord(0x80deb1fe) == 0x80deb1fe
    ensures AsWord(0x9bdc06a7) == 0x9bdc06a7 && AsWord(0xc19bf174) == 0xc19bf174
  {
  }

  lemma Listed8To15()
    ensures PRIMES[8] == 23 && K[8] == 0xd807aa98 && PRIMES[9] == 29 && K[9] == 0x12835b01
    ensures PRIMES[10] == 31 && K[10] == 0x243185be && PRIMES[11] == 37 && K[11] == 0x550c7dc3
    ensures PRIMES[12] == 41 && K[12] == 0x72be5d74 && PRIMES[13] == 43 && K[13] == 0x80deb1fe
    ensures PRIMES[14] == 47 && K[14] == 0x9bdc06a7 && PRIMES[15] == 53 && K[15] == 0xc19bf174
  {
  }

  lemma Constants8To15()
    ensures IsCubeRoot(PRIMES[8], K[8]) && IsCubeRoot(PRIMES[9], K[9])
    ensures IsCubeRoot(PRIMES[10], K[10]) && IsCubeRoot(PRIMES[11], K[11])
    ensures IsCubeRoot(PRIMES[12], K[12]) && IsCubeRoot(PRIMES[13], K[13])
    ensures IsCubeRoot(PRIMES[14], K[14]) && IsCubeRoot(PRIMES[15], K[15])
  {
    hide CubeRootAt, AsWord, IsCubeRoot, K, PRIMES;
    Roots8To15();
    Words8To15();
    Listed8To15();
    CubeRoot(23, 2, 0xd807aa98);
    CubeRoot(29, 3, 0x12835b01);
    CubeRoot(31, 3, 0x243185be);
    CubeRoot(37, 3, 0x550c7dc3);
    CubeRoot(41, 3, 0x72be5d74);
    CubeRoot(43, 3, 0x80deb1fe);
    CubeRoot(47, 3, 0x9bdc06a7);
    CubeRoot(53, 3, 0xc19bf174);
  }

  lemma Roots16To23()
    ensures CubeRootAt(59, 3, 0xe49b69c1) && CubeRootAt(61, 3, 0xefbe4786)
    ensures CubeRootAt(67, 4, 0x0fc19dc6) && CubeRootAt(71, 4, 0x240ca1cc)
    ensures CubeRootAt(73, 4, 0x2de92c6f) && CubeRootAt(79, 4, 0x4a7484aa)
    ensures CubeRootAt(83, 4, 0x5cb0a9dc) && CubeRootAt(89, 4, 0x76f988da)
  {
  }

  lemma Words16To23()
    ensures AsWord(0xe49b69c1) == 0xe49b69c1 && AsWord(0xefbe4786) == 0xefbe4786
    ensures AsWord(0x0fc19dc6) == 0x0fc19dc6 && AsWord(0x240ca1cc) == 0x240ca1cc
    ensures AsWord(0x2de92c6f) == 0x2de92c6f && AsWord(0x4a7484aa) == 0x4a7484aa
    ensures AsWord(0x5cb0a9dc) == 0x5cb0a9dc && AsWord(0x76f988da) == 0x76f988da
  {
  }

  lemma Listed16To23()
    ensures PRIMES[16] == 59 && K[16] == 0xe49b69c1 && PRIMES[17] == 61 && K[17] == 0xefbe4786
    ensures PRIMES[18] == 67 && K[18] == 0x0fc19dc6 && PRIMES[19] == 71 && K[19] == 0x240ca1cc
    ensures PRIMES[20] == 73 && K[20] == 0x2de92c6f && PRIMES[21] == 79 && K[21] == 0x4a7484aa
    ensures PRIMES[22] == 83 && K[22] == 0x5cb0a9dc && PRIMES[23] == 89 && K[23] == 0x76f988da
  {
  }

  lemma Constants16To23()
    ensures IsCubeRoot(PRIMES[16], K[16]) && IsCubeRoot(PRIMES[17], K[17])
    ensures IsCubeRoot(PRIMES[18], K[18]) && IsCubeRoot(PRIMES[19], K[19])
    ensures IsCubeRoot(PRIMES[20], K[20]) && IsCubeRoot(PRIMES[21], K[21])
    ensures IsCubeRoot(PRIMES[22], K[22]) && IsCubeRoot(PRIMES[23], K[23])
  {
    hide CubeRootAt, AsWord, IsCubeRoot, K, PRIMES;
    Roots16To23();
    Words16To23();
    Listed16To23();
    CubeRoot(59, 3, 0xe49b69c1);
    CubeRoot(61, 3, 0xefbe4786);
    CubeRoot(67, 4, 0x0fc19dc6);
    CubeRoot(71, 4, 0x240ca1cc);
    CubeRoot(73, 4, 0x2de92c6f);
    CubeRoot(79, 4, 0x4a7484aa);
    CubeRoot(83, 4, 0x5cb0a9dc);
    CubeRoot(89, 4, 0x76f988da);
  }

  lemma Roots24To31()
    ensures CubeRootAt(97, 4, 0x983e5152) && CubeRootAt(101, 4, 0xa831c66d)
    ensures CubeRootAt(103, 4, 0xb00327c8) && CubeRootAt(107, 4, 0xbf597fc7)
    ensures CubeRootAt(109, 4, 0xc6e00bf3) && CubeRootAt(113, 4, 0xd5a79147)
    ensures CubeRootAt(127, 5, 0x06ca6351) && CubeRootAt(131, 5, 0x14292967)
  {
  }

  lemma Words24To31()
    ensures AsWord(0x983e5152) == 0x983e5152 && AsWord(0xa831c66d) == 0xa831c66d
    ensures AsWord(0xb00327c8) == 0xb00327c8 && AsWord(0xbf597fc7) == 0xbf597fc7
    ensures AsWord(0xc6e00bf3) == 0xc6e00bf3 && AsWord(0xd5a79147) == 0xd5a79147
    ensures AsWord(0x06ca6351) == 0x06ca6351 && AsWord(0x14292967) == 0x14292967
  {
  }

  lemma Listed24To31()
    ensures PRIMES[24] == 97 && K[24] == 0x983e5152 && PRIMES[25] == 101 && K[25] == 0xa831c66d
    ensures PRIMES[26] == 103 && K[26] == 0xb00327c8 && PRIMES[27] == 107 && K[27] == 0xbf597fc7
    ensures PRIMES[28] == 109 && K[28] == 0xc6e00bf3 && PRIMES[29] == 113 && K[29] == 0xd5a79147
    ensures PRIMES[30] == 127 && K[30] == 0x06ca6351 && PRIMES[31] == 131 && K[31] == 0x14292967
  {
  }

  lemma Constants24To31()
    ensures IsCubeRoot(PRIMES[24], K[24]) && IsCubeRoot(PRIMES[25], K[25])
    ensures IsCubeRoot(PRIMES[26], K[26]) && IsCubeRoot(PRIMES[27], K[27])
    ensures IsCubeRoot(PRIMES[28], K[28]) && IsCubeRoot(PRIMES[29], K[29])
    ensures IsCubeRoot(PRIMES[30], K[30]) && IsCubeRoot(PRIMES[31], K[31])
  {
    hide CubeRootAt, AsWord, IsCubeRoot, K, PRIMES;
    Roots24To31();
    Words24To31();
    Listed24To31();
    CubeRoot(97, 4, 0x983e5152);
    CubeRoot(101, 4, 0xa831c66d);
    CubeRoot(103, 4, 0xb00327c8);
    CubeRoot(107, 4, 0xbf597fc7);
    CubeRoot(109, 4, 0xc6e00bf3);
    CubeRoot(113, 4, 0xd5a79147);
    CubeRoot(127, 5, 0x06ca6351);
    CubeRoot(131, 5, 0x14292967);
  }

  lemma Roots32To39()
    ensures CubeRootAt(137, 5, 0x27b70a85) && CubeRootAt(139, 5, 0x2e1b2138)
    ensures CubeRootAt(149, 5, 0x4d2c6dfc) && CubeRootAt(151, 5, 0x53380d13)
    ensures CubeRootAt(157, 5, 0x650a7354) && CubeRootAt(163, 5, 0x766a0abb)
    ensures CubeRootAt(167, 5, 0x81c2c92e) && CubeRootAt(173, 5, 0x92722c85)
  {
  }

  lemma Words32To39()
    ensures AsWord(0x27b70a85) == 0x27b70a85 && AsWord(0x2e1b2138) == 0x2e1b2138
    ensures AsWord(0x4d2c6dfc) == 0x4d2c6dfc && AsWord(0x53380d13) == 0x53380d13
    ensures AsWord(0x650a7354) == 0x650a7354 && AsWord(0x766a0abb) == 0x766a0abb
    ensures AsWord(0x81c2c92e) == 0x81c2c92e && AsWord(0x92722c85) == 0x92722c85
  {
  }

  lemma Listed32To39()
    ensures PRIMES[32] == 137 && K[32] == 0x27b70a85 && PRIMES[33] == 139 && K[33] == 0x2e1b2138
    ensures PRIMES[34] == 149 && K[34] == 0x4d2c6dfc && PRIMES[35] == 151 && K[35] == 0x53380d13
    ensures PRIMES[36] == 157 && K[36] == 0x650a7354 && PRIMES[37] == 163 && K[37] == 0x766a0abb
    ensures PRIMES[38] == 167 && K[38] == 0x81c2c92e && PRIMES[39] == 173 && K[39] == 0x92722c85
  {
  }

  lemma Constants32To39()
    ensures IsCubeRoot(PRIMES[32], K[32]) && IsCubeRoot(PRIMES[33], K[33])
    ensures IsCubeRoot(PRIMES[34], K[34]) && IsCubeRoot(PRIMES[35], K[35])
    ensures IsCubeRoot(PRIMES[36], K[36]) && IsCubeRoot(PRIMES[37], K[37])
    ensures IsCubeRoot(PRIMES[38], K[38]) && IsCubeRoot(PRIMES[39], K[39])
  {
    hide CubeRootAt, AsWord, IsCubeRoot, K, PRIMES;
    Roots32To39();
    Words32To39();
    Listed32To39();
    CubeRoot(137, 5, 0x27b70a85);
    CubeRoot(139, 5, 0x2e1b2138);
    CubeRoot(149, 5, 0x4d2c6dfc);
    CubeRoot(151, 5, 0x53380d13);
    CubeRoot(157, 5, 0x650a7354);
    CubeRoot(163, 5, 0x766a0abb);
    CubeRoot(167, 5, 0x81c2c92e);
    CubeRoot(173, 5, 0x92722c85);
  }

  lemma Roots40To47()
    ensures CubeRootAt(179, 5, 0xa2bfe8a1) && CubeRootAt(181, 5, 0xa81a664b)
    ensures CubeRootAt(191, 5, 0xc24b8b70) && CubeRootAt(193, 5, 0xc76c51a3)
    ensures CubeRootAt(197, 5, 0xd192e819) && CubeRootAt(199, 5, 0xd6990624)
    ensures CubeRootAt(211, 5, 0xf40e3585) && CubeRootAt(223, 6, 0x106aa070)
  {
  }

  lemma Words40To47()
    ensures AsWord(0xa2bfe8a1) == 0xa2bfe8a1 && AsWord(0xa81a664b) == 0xa81a664b
    ensures AsWord(0xc24b8b70) == 0xc24b8b70 && AsWord(0xc76c51a3) == 0xc76c51a3
    ensures AsWord(0xd192e819) == 0xd192e819 && AsWord(0xd6990624) == 0xd6990624
    ensures AsWord(0xf40e3585) == 0xf40e3585 && AsWord(0x106aa070) == 0x106aa070
  {
  }

  lemma Listed40To47()
    ensures PRIMES[40] == 179 && K[40] == 0xa2bfe8a1 && PRIMES[41] == 181 && K[41] == 0xa81a664b
    ensures PRIMES[42] == 191 && K[42] == 0xc24b8b70 && PRIMES[43] == 193 && K[43] == 0xc76c51a3
    ensures PRIMES[44] == 197 && K[44] == 0xd192e819 && PRIMES[45] == 199 && K[45] == 0xd6990624
    ensures PRIMES[46] == 211 && K[46] == 0xf40e3585 && PRIMES[47] == 223 && K[47] == 0x106aa070
  {
  }

  lemma Constants40To47()
    ensures IsCubeRoot(PRIMES[40], K[40]) && IsCubeRoot(PRIMES[41], K[41])
    ensures IsCubeRoot(PRIMES[42], K[42]) && IsCubeRoot(PRIMES[43], K[43])
    ensures IsCubeRoot(PRIMES[44], K[44]) && IsCubeRoot(PRIMES[45], K[45])
    ensures IsCubeRoot(PRIMES[46], K[46]) && IsCubeRoot(PRIMES[47], K[47])
  {
    hide CubeRootAt, AsWord, IsCubeRoot, K, PRIMES;
    Roots40To47();
    Words40To47();
    Listed40To47();
    CubeRoot(179, 5, 0xa2bfe8a1);
    CubeRoot(181, 5, 0xa81a664b);
    CubeRoot(191, 5, 0xc24b8b70);
    CubeRoot(193, 5, 0xc76c51a3);
    CubeRoot(197, 5, 0xd192e819);
    CubeRoot(199, 5, 0xd6990624);
    CubeRoot(211, 5, 0xf40e3585);
    CubeRoot(223, 6, 0x106aa070);
  }

  lemma Roots48To55()
    ensures CubeRootAt(227, 6, 0x19a4c116) && CubeRootAt(229, 6, 0x1e376c08)
    ensures CubeRootAt(233, 6, 0x2748774c) && CubeRootAt(239, 6, 0x34b0bcb5)
    ensures CubeRootAt(241, 6, 0x391c0cb3) && CubeRootAt(251, 6, 0x4ed8aa4a)
    ensures CubeRootAt(257, 6, 0x5b9cca4f) && CubeRootAt(263, 6, 0x682e6ff3)
  {
  }

  lemma Words48To55()
    ensures AsWord(0x19a4c116) == 0x19a4c116 && AsWord(0x1e376c08) == 0x1e376c08
    ensures AsWord(0x2748774c) == 0x2748774c && AsWord(0x34b0bcb5) == 0x34b0bcb5
    ensures AsWord(0x391c0cb3) == 0x391c0cb3 && AsWord(0x4ed8aa4a) == 0x4ed8aa4a
    ensures AsWord(0x5b9cca4f) == 0x5b9cca4f && AsWord(0x682e6ff3) == 0x682e6ff3
  {
  }

  lemma Listed48To55()
    ensures PRIMES[48] == 227 && K[48] == 0x19a4c116 && PRIMES[49] == 229 && K[49] == 0x1e376c08
    ensures PRIMES[50] == 233 && K[50] == 0x2748774c && PRIMES[51] == 239 && K[51] == 0x34b0bcb5
    ensures PRIMES[52] == 241 && K[52] == 0x391c0cb3 && PRIMES[53] == 251 && K[53] == 0x4ed8aa4a
    ensures PRIMES[54] == 257 && K[54] == 0x5b9cca4f && PRIMES[55] == 263 && K[55] == 0x682e6ff3
  {
  }

  lemma Constants48To55()
    ensures IsCubeRoot(PRIMES[48], K[48]) && IsCubeRoot(PRIMES[49], K[49])
    ensures IsCubeRoot(PRIMES[50], K[50]) && IsCubeRoot(PRIMES[51], K[51])
    ensures IsCubeRoot(PRIMES[52], K[52]) && IsCubeRoot(PRIMES[53], K[53])
    ensures IsCubeRoot(PRIMES[54], K[54]) && IsCubeRoot(PRIMES[55], K[55])
  {
    hide CubeRootAt, AsWord, IsCubeRoot, K, PRIMES;
    Roots48To55();
    Words48To55();
    Listed48To55();
    CubeRoot(227, 6, 0x19a4c116);
    CubeRoot(229, 6, 0x1e376c08);
    CubeRoot(233, 6, 0x2748774c);
    CubeRoot(239, 6, 0x34b0bcb5);
    CubeRoot(241, 6, 0x391c0cb3);
    CubeRoot(251, 6, 0x4ed8aa4a);
    CubeRoot(257, 6, 0x5b9cca4f);
    CubeRoot(263, 6, 0x682e6ff3);
  }

  lemma Roots56To63()
    ensures CubeRootAt(269, 6, 0x748f82ee) && CubeRootAt(271, 6, 0x78a5636f)
    ensures CubeRootAt(277, 6, 0x84c87814) && CubeRootAt(281, 6, 0x8cc70208)
    ensures CubeRootAt(283, 6, 0x90befffa) && CubeRootAt(293, 6, 0xa4506ceb)
    ensures CubeRootAt(307, 6, 0xbef9a3f7) && CubeRootAt(311, 6, 0xc67178f2)
  {
  }

  lemma Words56To63()
    ensures AsWord(0x748f82ee) == 0x748f82ee && AsWord(0x78a5636f) == 0x78a5636f
    ensures AsWord(0x84c87814) == 0x84c87814 && AsWord(0x8cc70208) == 0x8cc70208
    ensures AsWord(0x90befffa) == 0x90befffa && AsWord(0xa4506ceb) == 0xa4506ceb
    ensures AsWord(0xbef9a3f7) == 0xbef9a3f7 && AsWord(0xc67178f2) == 0xc67178f2
  {
  }

  lemma Listed56To63()
    ensures PRIMES[56] == 269 && K[56] == 0x748f82ee && PRIMES[57] == 271 && K[57] == 0x78a5636f
    ensures PRIMES[58] == 277 && K[58] == 0x84c87814 && PRIMES[59] == 281 && K[59] == 0x8cc70208
    ensures PRIMES[60] == 283 && K[60] == 0x90befffa && PRIMES[61] == 293 && K[61] == 0xa4506ceb
    ensures PRIMES[62] == 307 && K[62] == 0xbef9a3f7 && PRIMES[63] == 311 && K[63] == 0xc67178f2
  {
  }

  lemma Constants56To63()
    ensures IsCubeRoot(PRIMES[56], K[56]) && IsCubeRoot(PRIMES[57], K[57])
    ensures IsCubeRoot(PRIMES[58], K[58]) && IsCubeRoot(PRIMES[59], K[59])
    ensures IsCubeRoot(PRIMES[60], K[60]) && IsCubeRoot(PRIMES[61], K[61])
    ensures IsCubeRoot(PRIMES[62], K[62]) && IsCubeRoot(PRIMES[63], K[63])
  {
    hide CubeRootAt, AsWord, IsCubeRoot, K, PRIMES;
    Roots56To63();
    Words56To63();
    Listed56To63();
    CubeRoot(269, 6, 0x748f82ee);
    CubeRoot(271, 6, 0x78a5636f);
    CubeRoot(277, 6, 0x84c87814);
    CubeRoot(281, 6, 0x8cc70208);
    CubeRoot(283, 6, 0x90befffa);
    CubeRoot(293, 6, 0xa4506ceb);
    CubeRoot(307, 6, 0xbef9a3f7);
    CubeRoot(311, 6, 0xc67178f2);
  }

  lemma CubeRoot(prime: nat, n: nat, x: nat)
    requires x < TWO32 && CubeRootAt(prime, n, x)
    ensures IsCubeRoot(prime, AsWord(x))
  {
    hide CubeRootAt, AsWord;
  }

  lemma SquareRoot(prime: nat, n: nat, x: nat)
    requires x < TWO32 && SquareRootAt(prime, n, x)
    ensures IsSquareRoot(prime, AsWord(x))
  {
    hide SquareRootAt, AsWord;
  }

  /** Every round constant comes from the cube root of its prime. */
  lemma RoundConstants(i: nat)
    requires i < 64
    ensures IsCubeRoot(PRIMES[i], K[i])
  {
    hide IsCubeRoot, PRIMES, K;
    if i < 8 {
      Constants0To7();
    } else if i < 16 {
      Constants8To15();
    } else if i < 24 {
      Constants16To23();
    } else if i < 32 {
      Constants24To31();
    } else if i < 40 {
      Constants32To39();
    } else if i < 48 {
      Constants40To47();
    } else if i < 56 {
      Constants48To55();
    } else {
      Constants56To63();
    }
  }

  lemma SquareRoots()
    ensures SquareRootAt(2, 1, 0x6a09e667) && SquareRootAt(3, 1, 0xbb67ae85)
    ensures SquareRootAt(5, 2, 0x3c6ef372) && SquareRootAt(7, 2, 0xa54ff53a)
    ensures SquareRootAt(11, 3, 0x510e527f) && SquareRootAt(13, 3, 0x9b05688c)
    ensures SquareRootAt(17, 4, 0x1f83d9ab) && SquareRootAt(19, 4, 0x5be0cd19)
  {
  }

  lemma InitialWords()
    ensures AsWord(0x6a09e667) == 0x6a09e667 && AsWord(0xbb67ae85) == 0xbb67ae85
    ensures AsWord(0x3c6ef372) == 0x3c6ef372 && AsWord(0xa54ff53a) == 0xa54ff53a
    ensures AsWord(0x510e527f) == 0x510e527f && AsWord(0x9b05688c) == 0x9b05688c
    ensures AsWord(0x1f83d9ab) == 0x1f83d9ab && AsWord(0x5be0cd19) == 0x5be0cd19
  {
  }

  lemma InitialListed()
    ensures IV[0] == 0x6a09e667 && PRIMES[0] == 2 && IV[1] == 0xbb67ae85 && PRIMES[1] == 3
    ensures IV[2] == 0x3c6ef372 && PRIMES[2] == 5 && IV[3] == 0xa54ff53a && PRIMES[3] == 7
    ensures IV[4] == 0x510e527f && PRIMES[4] == 11 && IV[5] == 0x9b05688c && PRIMES[5] == 13
    ensures IV[6] == 0x1f83d9ab && PRIMES[6] == 17 && IV[7] == 0x5be0cd19 && PRIMES[7] == 19
  {
  }

  /** Every word of the initial value comes from the square root of its prime. */
  lemma InitialValue(i: nat)
    requires i < 8
    ensures IsSquareRoot(PRIMES[i], IV[i])
  {
    hide IsSquareRoot, SquareRootAt, AsWord, IV, PRIMES;
    SquareRoots();
    InitialWords();
    InitialListed();
    SquareRoot(2, 1, 0x6a09e667);
    SquareRoot(3, 1, 0xbb67ae85);
    SquareRoot(5, 2, 0x3c6ef372);
    SquareRoot(7, 2, 0xa54ff53a);
    SquareRoot(11, 3, 0x510e527f);
    SquareRoot(13, 3, 0x9b05688c);
    SquareRoot(17, 4, 0x1f83d9ab);
    SquareRoot(19, 4, 0x5be0cd19);
  }
}

/** SHA-256 as FIPS 180-4 defines it: the padding of section 5.1.1, the initial value of 5.3.3 and the
    hash computation of 6.2.2. */
module Sha256 {

  type Word = bv32
  type Octet = bv8

  const K: seq<Word> :=
    [0x428a2f98, 0x71374491, 0xb5c0fbcf, 0xe9b5dba5, 0x3956c25b, 0x59f111f1, 0x923f82a4, 0xab1c5ed5] +
    [0xd807aa98, 0x12835b01, 0x243185be, 0x550c7dc3, 0x72be5d74, 0x80deb1fe, 0x9bdc06a7, 0xc19bf174] +
    [0xe49b69c1, 0xefbe4786, 0x0fc19dc6, 0x240ca1cc, 0x2de92c6f, 0x4a7484aa, 0x5cb0a9dc, 0x76f988da] +
    [0x983e5152, 0xa831c66d, 0xb00327c8, 0xbf597fc7, 0xc6e00bf3, 0xd5a79147, 0x06ca6351, 0x14292967] +
    [0x27b70a85, 0x2e1b2138, 0x4d2c6dfc, 0x53380d13, 0x650a7354, 0x766a0abb, 0x81c2c92e, 0x92722c85] +
    [0xa2bfe8a1, 0xa81a664b, 0xc24b8b70, 0xc76c51a3, 0xd192e819, 0xd6990624, 0xf40e3585, 0x106aa070] +
    [0x19a4c116, 0x1e376c08, 0x2748774c, 0x34b0bcb5, 0x391c0cb3, 0x4ed8aa4a, 0x5b9cca4f, 0x682e6ff3] +
    [0x748f82ee, 0x78a5636f, 0x84c87814, 0x8cc70208, 0x90befffa, 0xa4506ceb, 0xbef9a3f7, 0xc67178f2]

  const IV: seq<Word> := [
    0x6a09e667, 0xbb67ae85, 0x3c6ef372, 0xa54ff53a, 0x510e527f, 0x9b05688c, 0x1f83d9ab, 0x5be0cd19]

  // ----- words and octets, big-endian -----

  function WordAt(b0: Octet, b1: Octet, b2: Octet, b3: Octet): Word {
    ((b0 as Word) << 24) | ((b1 as Word) << 16) | ((b2 as Word) << 8) | (b3 as Word)
  }

  function OctetsOf(w: Word): (b: seq<Octet>)
    ensures |b| == 4
  {
    [((w >> 24) & 0xFF) as Octet, ((w >> 16) & 0xFF) as Octet, ((w >> 8) & 0xFF) as Octet, (w & 0xFF) as Octet]
  }

  function ToWords(b: seq<Octet>): (w: seq<Word>)
    requires |b| % 4 == 0
    ensures |w| == |b| / 4
    ensures forall i :: 0 <= i < |w| ==> w[i] == WordAt(b[4 * i], b[4 * i + 1], b[4 * i + 2], b[4 * i + 3])
  {
    seq(|b| / 4, i requires 0 <= i < |b| / 4 => WordAt(b[4 * i], b[4 * i + 1], b[4 * i + 2], b[4 * i + 3]))
  }

  function ToOctets(w: seq<Word>): (b: seq<Octet>)
    ensures |b| == 4 * |w|
  {
    if |w| == 0 then [] else ToOctets(w[..|w| - 1]) + OctetsOf(w[|w| - 1])
  }

  // ----- the compression function -----

  function Rotr(x: Word, n: nat): Word
    requires 0 < n < 32
  {
    (x >> n) | (x << (32 - n))
  }

  function Sigma0(x: Word): Word {
    Rotr(x, 7) ^ Rotr(x, 18) ^ (x >> 3)
  }

  function Sigma1(x: Word): Word {
    Rotr(x, 17) ^ Rotr(x, 19) ^ (x >> 10)
  }

  function BigSigma0(x: Word): Word {
    Rotr(x, 2) ^ Rotr(x, 13) ^ Rotr(x, 22)
  }

  function BigSigma1(x: Word): Word {
    Rotr(x, 6) ^ Rotr(x, 11) ^ Rotr(x, 25)
  }

  function Ch(x: Word, y: Word, z: Word): Word {
    (x & y) ^ (!x & z)
  }

  function Maj(x: Word, y: Word, z: Word): Word {
    (x & y) ^ (x & z) ^ (y & z)
  }

  function Sum(x: Word, y: Word): Word {
    x + y
  }

  function Expand(w: seq<Word>): Word
    requires |w| >= 16
  {
    var n := |w|;
    Sum(Sum(Sum(w[n - 16], Sigma0(w[n - 15])), w[n - 7]), Sigma1(w[n - 2]))
  }

  /** The first n words of the message schedule. */
  function Schedule(m: seq<Word>, n: nat): (w: seq<Word>)
    requires |m| == 16 && n >= 16
    ensures |w| == n
  {
    if n == 16 then m
    else
      var w := Schedule(m, n - 1);
      w + [Expand(w)]
  }

  datatype Registers = Registers(a: Word, b: Word, c: Word, d: Word, e: Word, f: Word, g: Word, h: Word)

  function Round(r: Registers, k: Word, w: Word): Registers {
    var t1 := Sum(Sum(Sum(Sum(r.h, BigSigma1(r.e)), Ch(r.e, r.f, r.g)), k), w);
    var t2 := Sum(BigSigma0(r.a), Maj(r.a, r.b, r.c));
    Registers(Sum(t1, t2), r.a, r.b, r.c, Sum(r.d, t1), r.e, r.f, r.g)
  }

  function Rounds(r: Registers, w: seq<Word>, n: nat): Registers
    requires n <= |w| && n <= 64
  {
    if n == 0 then r else Round(Rounds(r, w, n - 1), K[n - 1], w[n - 1])
  }

  function Load(h: seq<Word>): Registers
    requires |h| == 8
  {
    Registers(h[0], h[1], h[2], h[3], h[4], h[5], h[6], h[7])
  }

  /** One message block of sixteen words into the hash value. */
  function CompressWords(h: seq<Word>, m: seq<Word>): (r: seq<Word>)
    requires |h| == 8 && |m| == 16
    ensures |r| == 8
  {
    var x := Rounds(Load(h), Schedule(m, 64), 64);
    [Sum(h[0], x.a), Sum(h[1], x.b), Sum(h[2], x.c), Sum(h[3], x.d),
     Sum(h[4], x.e), Sum(h[5], x.f), Sum(h[6], x.g), Sum(h[7], x.h)]
  }

  function Compress(h: seq<Word>, block: seq<Octet>): (r: seq<Word>)
    requires |h| == 8 && |block| == 64
    ensures |r| == 8
  {
    CompressWords(h, ToWords(block))
  }

  // ----- whole messages -----

  /** The length in bits as eight octets, most significant first. */
  function LengthOctets(n: nat): (b: seq<Octet>)
    ensures |b| == 8
  {
    seq(8, i requires 0 <= i < 8 => ((n / Power256(7 - i)) % 256) as Octet)
  }

  function Power256(n: nat): (r: nat)
    ensures r > 0
  {
    if n == 0 then 1 else 256 * Power256(n - 1)
  }

  function Zeros(n: nat): (z: seq<Octet>)
    ensures |z| == n && forall i :: 0 <= i < n ==> z[i] == 0
  {
    seq(n, i => 0)
  }

  /** How many zero octets follow the marker so that the length ends a block. */
  function PadZeros(len: nat): (k: nat)
    ensures (len + 1 + k + 8) % 64 == 0 && k < 64
  {
    (55 - len) % 64
  }

  function Padded(msg: seq<Octet>): (m: seq<Octet>)
    ensures |m| % 64 == 0
  {
    msg + [0x80] + Zeros(PadZeros(|msg|)) + LengthOctets(8 * |msg|)
  }

  /** The hash value after the first n blocks. */
  function Absorb(h: seq<Word>, m: seq<Octet>, n: nat): (r: seq<Word>)
    requires |h| == 8 && 64 * n <= |m|
    ensures |r| == 8
  {
    if n == 0 then h else Compress(Absorb(h, m, n - 1), m[64 * (n - 1)..64 * n])
  }

  function Digest(msg: seq<Octet>): (d: seq<Octet>)
    ensures |d| == 32
  {
    var m := Padded(msg);
    ToOctets(Absorb(IV, m, |m| / 64))
  }

  // ----- facts about words and octets -----

  lemma OctetsRoundTrip(w: Word)
    ensures var b := OctetsOf(w); WordAt(b[0], b[1], b[2], b[3]) == w
  {
  }

  lemma {:induction false} ToOctetsAt(w: seq<Word>, i: nat)
    requires i < |w|
    ensures ToOctets(w)[4 * i..4 * i + 4] == OctetsOf(w[i])
  {
    if i >= |w| - 1 {
    } else {
      ToOctetsAt(w[..|w| - 1], i);
      assert ToOctets(w)[4 * i..4 * i + 4] == ToOctets(w[..|w| - 1])[4 * i..4 * i + 4];
    }
  }

  /** Words written out and read back are the same words. */
  lemma WordsRoundTrip(w: seq<Word>)
    ensures ToWords(ToOctets(w)) == w
  {
    hide OctetsOf, WordAt;
    var b := ToOctets(w);
    forall i | 0 <= i < |w| ensures ToWords(b)[i] == w[i] {
      ToOctetsAt(w, i);
      OctetsRoundTrip(w[i]);
      var o := OctetsOf(w[i]);
      assert b[4 * i..4 * i + 4][0] == b[4 * i] && b[4 * i..4 * i + 4][1] == b[4 * i + 1];
      assert b[4 * i..4 * i + 4][2] == b[4 * i + 2] && b[4 * i..4 * i + 4][3] == b[4 * i + 3];
    }
  }

  /** What has been absorbed depends only on the blocks read so far. */
  lemma {:induction false} AbsorbPrefix(h: seq<Word>, m: seq<Octet>, n: seq<Octet>, k: nat)
    requires |h| == 8 && 64 * k <= |m| && 64 * k <= |n| && m[..64 * k] == n[..64 * k]
    ensures Absorb(h, m, k) == Absorb(h, n, k)
  {
    hide Compress;
    if k == 0 {
    } else {
      assert m[..64 * (k - 1)] == m[..64 * k][..64 * (k - 1)];
      assert n[..64 * (k - 1)] == n[..64 * k][..64 * (k - 1)];
      AbsorbPrefix(h, m, n, k - 1);
      assert m[64 * (k - 1)..64 * k] == m[..64 * k][64 * (k - 1)..];
      assert n[64 * (k - 1)..64 * k] == n[..64 * k][64 * (k - 1)..];
    }
  }
}

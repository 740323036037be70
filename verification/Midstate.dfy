/** The miner's fast form of the header hash: everything but the last block is absorbed once, and each
    trial compresses one block with two words filled in. */
module MidstateHash {
  import opened Sha256

  // ----- the compression function in place -----

  /** Fills in the message schedule from its first sixteen words. */
  method ExpandSchedule(w: array<Word>)
    requires w.Length == 64
    modifies w
    ensures w[..] == Schedule(old(w[..16]), 64)
  {
    ghost var m := w[..16];
    for i := 16 to 64
      invariant w[..i] == Schedule(m, i)
    {
      ghost var before := w[..i];
      var s0 := Sigma0(w[i - 15]);
      var s1 := Sigma1(w[i - 2]);
      w[i] := Sum(Sum(Sum(w[i - 16], s0), w[i - 7]), s1);
      assert w[..i + 1] == before + [w[i]];
    }
    assert w[..] == w[..64];
  }

  /** The sixty-four rounds on the eight working variables. */
  method MixRounds(h: array<Word>, w: array<Word>) returns (x: Registers)
    requires h.Length == 8 && w.Length == 64
    ensures x == Rounds(Load(h[..]), w[..], 64)
  {
    hide Sum, BigSigma0, BigSigma1, Ch, Maj;
    ghost var start, words := Load(h[..]), w[..];
    var a, b, c, d, e, f, g, hh := h[0], h[1], h[2], h[3], h[4], h[5], h[6], h[7];
    for i := 0 to 64
      invariant Registers(a, b, c, d, e, f, g, hh) == Rounds(start, words, i)
    {
      var t1 := Sum(Sum(Sum(Sum(hh, BigSigma1(e)), Ch(e, f, g)), K[i]), w[i]);
      var t2 := Sum(BigSigma0(a), Maj(a, b, c));
      hh, g, f, e, d, c, b, a := g, f, e, Sum(d, t1), c, b, a, Sum(t1, t2);
    }
    x := Registers(a, b, c, d, e, f, g, hh);
  }

  /** The rounds, then the working variables added to the hash value. */
  method RunRounds(h: array<Word>, w: array<Word>)
    requires h.Length == 8 && w.Length == 64 && h != w
    modifies h
    ensures h[..] == AddRegisters(old(h[..]), Rounds(Load(old(h[..])), w[..], 64))
  {
    hide Sum, Rounds, Load, AddRegisters;
    ghost var start := h[..];
    var x := MixRounds(h, w);
    h[0] := Sum(h[0], x.a);
    h[1] := Sum(h[1], x.b);
    h[2] := Sum(h[2], x.c);
    h[3] := Sum(h[3], x.d);
    h[4] := Sum(h[4], x.e);
    h[5] := Sum(h[5], x.f);
    h[6] := Sum(h[6], x.g);
    h[7] := Sum(h[7], x.h);
    Added(start, x, h[..]);
  }

  lemma Added(h: seq<Word>, x: Registers, r: seq<Word>)
    requires |h| == |r| == 8
    requires r[0] == Sum(h[0], x.a) && r[1] == Sum(h[1], x.b) && r[2] == Sum(h[2], x.c) && r[3] == Sum(h[3], x.d)
    requires r[4] == Sum(h[4], x.e) && r[5] == Sum(h[5], x.f) && r[6] == Sum(h[6], x.g) && r[7] == Sum(h[7], x.h)
    ensures r == AddRegisters(h, x)
  {
    hide Sum;
  }

  function AddRegisters(h: seq<Word>, x: Registers): (r: seq<Word>)
    requires |h| == 8
  {
    [Sum(h[0], x.a), Sum(h[1], x.b), Sum(h[2], x.c), Sum(h[3], x.d),
     Sum(h[4], x.e), Sum(h[5], x.f), Sum(h[6], x.g), Sum(h[7], x.h)]
  }

  lemma CompressIs(h: seq<Word>, m: seq<Word>)
    requires |h| == 8 && |m| == 16
    ensures CompressWords(h, m) == AddRegisters(h, Rounds(Load(h), Schedule(m, 64), 64))
  {
  }

  method CompressInPlace(h: array<Word>, block: seq<Octet>)
    requires h.Length == 8 && |block| == 64
    modifies h
    ensures h[..] == Compress(old(h[..]), block)
  {
    hide WordAt, Schedule, Rounds, AddRegisters, CompressWords, Load;
    var w := new Word[64];
    for i := 0 to 16
      invariant forall k :: 0 <= k < i ==> w[k] == ToWords(block)[k]
      invariant h[..] == old(h[..])
    {
      w[i] := WordAt(block[4 * i], block[4 * i + 1], block[4 * i + 2], block[4 * i + 3]);
    }
    assert w[..16] == ToWords(block);
    ExpandSchedule(w);
    CompressIs(h[..], ToWords(block));
    RunRounds(h, w);
  }

  // ----- nonces -----

  function ReverseBytes32(x: Word): Word {
    ((x & 0xFF) << 24) | ((x & 0xFF00) << 8) | ((x & 0xFF0000) >> 8) | ((x & 0xFF000000) >> 24)
  }

  function Low(nonce: bv64): Word {
    (nonce & 0xFFFFFFFF) as Word
  }

  function High(nonce: bv64): Word {
    (nonce >> 32) as Word
  }

  /** The nonce as the header writes it, least significant octet first. */
  function NonceOctets(nonce: bv64): (b: seq<Octet>)
    ensures |b| == 8
  {
    LittleEndian(Low(nonce)) + LittleEndian(High(nonce))
  }

  function LittleEndian(x: Word): (b: seq<Octet>)
    ensures |b| == 4
  {
    [(x & 0xFF) as Octet, ((x >> 8) & 0xFF) as Octet, ((x >> 16) & 0xFF) as Octet, ((x >> 24) & 0xFF) as Octet]
  }

  /** Read big-endian, a little-endian word comes out with its bytes reversed. */
  lemma ReversedWord(x: Word)
    ensures var b := LittleEndian(x); WordAt(b[0], b[1], b[2], b[3]) == ReverseBytes32(x)
  {
  }

  // ----- midstates -----

  datatype Midstate = Midstate(h: seq<Word>, block: seq<Word>, nonceWord: nat)

  /** The header's fixed part leaves room for the nonce on a word boundary and for the padding. */
  predicate FitsMidstate(len: nat) {
    len >= 8 && ((len - 8) % 64) % 4 == 0 && (len - 8) % 64 + 8 + 1 + 8 <= 64
  }

  /** The last block with the nonce left zero. */
  function Template(hdr: seq<Octet>): (b: seq<Octet>)
    requires FitsMidstate(|hdr|)
    ensures |b| == 64
  {
    var rem := (|hdr| - 8) % 64;
    hdr[|hdr| - 8 - rem..|hdr| - 8] + Zeros(8) + [0x80] + Zeros(47 - rem) + LengthOctets(8 * |hdr|)
  }

  function MidstateOf(hdr: seq<Octet>): Midstate
    requires FitsMidstate(|hdr|)
  {
    var full, rem := (|hdr| - 8) / 64, (|hdr| - 8) % 64;
    Midstate(Absorb(IV, hdr, full), ToWords(Template(hdr)), rem / 4)
  }

  method BuildMidstate(hdr: seq<Octet>) returns (mid: Midstate, ok: bool)
    ensures ok <==> FitsMidstate(|hdr|)
    ensures ok ==> mid == MidstateOf(hdr)
  {
    hide Compress, WordAt, Absorb, LengthOctets;
    mid := Midstate([], [], 0);
    if |hdr| < 8 {
      return mid, false;
    }
    var prefixLen := |hdr| - 8;
    var full, rem := prefixLen / 64, prefixLen % 64;
    if rem % 4 != 0 || rem + 8 + 1 + 8 > 64 {
      return mid, false;
    }
    var h := new Word[8](i requires 0 <= i < 8 => IV[i]);
    assert h[..] == IV;
    AbsorbNothing(hdr);
    for i := 0 to full
      invariant h[..] == Absorb(IV, hdr, i)
    {
      AbsorbStep(hdr, i + 1);
      CompressInPlace(h, hdr[64 * i..64 * i + 64]);
    }
    var block := FillTemplate(hdr, full, rem);
    mid := Midstate(h[..], ToWords(block), rem / 4);
    ok := true;
  }

  lemma AbsorbNothing(m: seq<Octet>)
    ensures Absorb(IV, m, 0) == IV
  {
  }

  lemma AbsorbStep(m: seq<Octet>, n: nat)
    requires 0 < n && 64 * n <= |m|
    ensures Absorb(IV, m, n) == Compress(Absorb(IV, m, n - 1), m[64 * (n - 1)..64 * n])
  {
  }

  method FillTemplate(hdr: seq<Octet>, full: nat, rem: nat) returns (b: seq<Octet>)
    requires FitsMidstate(|hdr|) && full == (|hdr| - 8) / 64 && rem == (|hdr| - 8) % 64
    ensures b == Template(hdr)
  {
    hide LengthOctets, Template;
    ghost var fixed := hdr[|hdr| - 8 - rem..|hdr| - 8];
    LastOctets(hdr, full, rem, fixed);
    var block := new Octet[64](i => 0);
    for i := 0 to rem
      invariant forall k :: 0 <= k < i ==> block[k] == fixed[k]
      invariant forall k :: i <= k < 64 ==> block[k] == 0
    {
      block[i] := hdr[full * 64 + i];
    }
    block[rem + 8] := 0x80;
    var len := LengthOctets(8 * |hdr|);
    ghost var before := block[..56];
    for i := 0 to 8
      invariant forall k :: 0 <= k < 56 ==> block[k] == before[k]
      invariant forall k :: 0 <= k < i ==> block[56 + k] == len[k]
    {
      block[56 + i] := len[i];
    }
    b := block[..];
    assert b[..56] == before;
    assert before[..rem] == fixed;
    TemplateIs(hdr, rem, before, b);
  }

  lemma LastOctets(hdr: seq<Octet>, full: nat, rem: nat, fixed: seq<Octet>)
    requires |hdr| >= 8 && full == (|hdr| - 8) / 64 && rem == (|hdr| - 8) % 64
    requires fixed == hdr[|hdr| - 8 - rem..|hdr| - 8]
    ensures full * 64 + rem == |hdr| - 8
    ensures forall k :: 0 <= k < rem ==> fixed[k] == hdr[full * 64 + k]
  {
  }

  lemma TemplateIs(hdr: seq<Octet>, rem: nat, before: seq<Octet>, b: seq<Octet>)
    requires FitsMidstate(|hdr|) && rem == (|hdr| - 8) % 64 && |before| == 56 && |b| == 64 && b[..56] == before
    requires before[..rem] == hdr[|hdr| - 8 - rem..|hdr| - 8] && before[rem + 8] == 0x80
    requires forall k :: rem <= k < 56 && k != rem + 8 ==> before[k] == 0
    requires forall k :: 0 <= k < 8 ==> b[56 + k] == LengthOctets(8 * |hdr|)[k]
    ensures b == Template(hdr)
  {
    hide LengthOctets;
    var t := Template(hdr);
    forall k | 0 <= k < 64 ensures b[k] == t[k] {
      if k < 56 { assert b[k] == before[k]; }
      if k < rem { assert before[k] == before[..rem][k]; }
      if k >= 56 { assert b[k] == b[56 + (k - 56)]; }
    }
  }

  /** The digest of one trial, from a midstate. */
  method Finish(mid: Midstate, nonce: bv64) returns (out: seq<Octet>)
    requires |mid.h| == 8 && |mid.block| == 16 && mid.nonceWord + 1 < 16
    ensures out == ToOctets(CompressWords(mid.h, WithNonce(mid, nonce)))
  {
    hide OctetsOf, CompressWords, ReverseBytes32, Low, High, ToWords, WordAt, ToOctets;
    var h := new Word[8](i requires 0 <= i < 8 => mid.h[i]);
    assert h[..] == mid.h;
    var lo, hi := ReverseBytes32(Low(nonce)), ReverseBytes32(High(nonce));
    var block := mid.block[mid.nonceWord := lo][mid.nonceWord + 1 := hi];
    var bb := WriteWords(block);
    WordsRoundTrip(block);
    CompressInPlace(h, bb);
    out := WriteWords(h[..]);
  }

  function WithNonce(mid: Midstate, nonce: bv64): (m: seq<Word>)
    requires |mid.block| == 16 && mid.nonceWord + 1 < 16
    ensures |m| == 16
  {
    mid.block[mid.nonceWord := ReverseBytes32(Low(nonce))][mid.nonceWord + 1 := ReverseBytes32(High(nonce))]
  }

  /** Writes words out big-endian. */
  method WriteWords(words: seq<Word>) returns (b: seq<Octet>)
    ensures b == ToOctets(words)
  {
    hide OctetsOf;
    b := [];
    assert words[..0] == [];
    for i := 0 to |words|
      invariant b == ToOctets(words[..i])
    {
      assert words[..i + 1][..i] == words[..i];
      b := b + OctetsOf(words[i]);
    }
    assert words[..|words|] == words;
  }

  // ----- the fast form is the standard hash -----

  /** The header a trial hashes: the fixed part with the nonce written behind it. */
  function Trial(hdr: seq<Octet>, nonce: bv64): seq<Octet>
    requires |hdr| >= 8
  {
    hdr[..|hdr| - 8] + NonceOctets(nonce)
  }

  /** The last padded block of a trial. */
  lemma LastBlock(hdr: seq<Octet>, nonce: bv64)
    requires FitsMidstate(|hdr|)
    ensures var rem, full := (|hdr| - 8) % 64, (|hdr| - 8) / 64;
            var m := Padded(Trial(hdr, nonce));
            && |m| == 64 * (full + 1) && m[..64 * full] == hdr[..64 * full]
            && m[64 * full..] == hdr[64 * full..|hdr| - 8] + NonceOctets(nonce) + [0x80] + Zeros(47 - rem)
               + LengthOctets(8 * |hdr|)
  {
    hide LengthOctets, NonceOctets, Zeros;
    var rem, full, msg := (|hdr| - 8) % 64, (|hdr| - 8) / 64, Trial(hdr, nonce);
    assert |hdr| == 64 * full + rem + 8;
    assert PadZeros(|msg|) == 47 - rem by { PadZerosUnique(|hdr|, 47 - rem); }
    assert msg == hdr[..64 * full] + (hdr[64 * full..|hdr| - 8] + NonceOctets(nonce));
  }

  lemma PadZerosUnique(len: nat, k: nat)
    requires (len + 1 + k + 8) % 64 == 0 && k < 64
    ensures PadZeros(len) == k
  {
  }

  /** Filling in two words of the template is the same as filling in the nonce's octets. */
  lemma TemplateWithNonce(hdr: seq<Octet>, nonce: bv64)
    requires FitsMidstate(|hdr|)
    ensures var rem := (|hdr| - 8) % 64;
            ToWords(hdr[|hdr| - 8 - rem..|hdr| - 8] + NonceOctets(nonce) + [0x80] + Zeros(47 - rem)
              + LengthOctets(8 * |hdr|))
            == ToWords(Template(hdr))[rem / 4 := ReverseBytes32(Low(nonce))][rem / 4 + 1 := ReverseBytes32(High(nonce))]
  {
    hide LengthOctets, WordAt, LittleEndian, ReverseBytes32, Low, High, Zeros, ToWords;
    var rem := (|hdr| - 8) % 64;
    var nw := rem / 4;
    var fixed, tail := hdr[|hdr| - 8 - rem..|hdr| - 8], [0x80] + Zeros(47 - rem) + LengthOctets(8 * |hdr|);
    var block, plain := fixed + NonceOctets(nonce) + tail, fixed + Zeros(8) + tail;
    assert plain == Template(hdr);
    assert block == fixed + NonceOctets(nonce) + [0x80] + Zeros(47 - rem) + LengthOctets(8 * |hdr|);
    var lo, hi := Low(nonce), High(nonce);
    ReversedWord(lo);
    ReversedWord(hi);
    WordsWithNonce(fixed, LittleEndian(lo), LittleEndian(hi), tail);
  }

  lemma WordsWithNonce(fixed: seq<Octet>, lo: seq<Octet>, hi: seq<Octet>, tail: seq<Octet>)
    requires |lo| == 4 && |hi| == 4 && |fixed| % 4 == 0 && |fixed| + 8 + |tail| == 64
    ensures var nw := |fixed| / 4;
            nw + 1 < 16 &&
            ToWords(fixed + (lo + hi) + tail)
            == ToWords(fixed + Zeros(8) + tail)[nw := WordAt(lo[0], lo[1], lo[2], lo[3])]
               [nw + 1 := WordAt(hi[0], hi[1], hi[2], hi[3])]
  {
    hide WordAt, Zeros, ToWords;
    forall i | 0 <= i < 16
      ensures ToWords(fixed + (lo + hi) + tail)[i]
           == if i == |fixed| / 4 then WordAt(lo[0], lo[1], lo[2], lo[3])
              else if i == |fixed| / 4 + 1 then WordAt(hi[0], hi[1], hi[2], hi[3])
              else ToWords(fixed + Zeros(8) + tail)[i]
    {
      WordWithNonce(fixed, lo, hi, tail, i);
    }
  }

  /** Word i of a block, when eight octets in the middle are replaced by two little-endian words. */
  lemma WordWithNonce(fixed: seq<Octet>, lo: seq<Octet>, hi: seq<Octet>, tail: seq<Octet>, i: nat)
    requires |lo| == 4 && |hi| == 4 && |fixed| % 4 == 0 && |fixed| + 8 + |tail| == 64 && i < 16
    ensures var block, plain, nw := fixed + (lo + hi) + tail, fixed + Zeros(8) + tail, |fixed| / 4;
            ToWords(block)[i] == if i == nw then WordAt(lo[0], lo[1], lo[2], lo[3])
                                 else if i == nw + 1 then WordAt(hi[0], hi[1], hi[2], hi[3])
                                 else ToWords(plain)[i]
  {
    hide WordAt, Zeros;
    var block, plain, nw := fixed + (lo + hi) + tail, fixed + Zeros(8) + tail, |fixed| / 4;
    assert |fixed| == 4 * nw;
    if i < nw {
      assert block[4 * i + 3] == plain[4 * i + 3];
    } else if i > nw + 1 {
      assert 4 * i >= |fixed| + 8;
    }
  }

  /** For every header that fits and every nonce, finishing the midstate is hashing the whole header. */
  lemma MidstateIsDigest(hdr: seq<Octet>, nonce: bv64)
    requires FitsMidstate(|hdr|)
    ensures |MidstateOf(hdr).h| == 8 && |MidstateOf(hdr).block| == 16 && MidstateOf(hdr).nonceWord + 1 < 16
    ensures ToOctets(CompressWords(MidstateOf(hdr).h, WithNonce(MidstateOf(hdr), nonce))) == Digest(Trial(hdr, nonce))
  {
    hide CompressWords, ToOctets, ToWords, Padded, Trial, NonceOctets, Template, Zeros, LengthOctets,
         ReverseBytes32, Low, High;
    var full := (|hdr| - 8) / 64;
    var m := Padded(Trial(hdr, nonce));
    LastBlock(hdr, nonce);
    TemplateWithNonce(hdr, nonce);
    AbsorbPrefix(IV, m, hdr, full);
    assert m[64 * full..64 * (full + 1)] == m[64 * full..];
    assert |m| / 64 == full + 1;
    AbsorbLast(m, full + 1);
  }

  lemma AbsorbLast(m: seq<Octet>, n: nat)
    requires 0 < n && 64 * n == |m|
    ensures Absorb(IV, m, n) == CompressWords(Absorb(IV, m, n - 1), ToWords(m[64 * (n - 1)..64 * n]))
  {
    hide CompressWords, ToWords;
  }

  // ----- the kernel -----

  /** The GPU kernel's hash of one trial: the same schedule and rounds on the template's words. */
  method KernelHash(mid: Midstate, nonce: bv64) returns (out: seq<Word>)
    requires |mid.h| == 8 && |mid.block| == 16 && mid.nonceWord + 1 < 16
    ensures out == CompressWords(mid.h, WithNonce(mid, nonce))
  {
    hide Schedule, Rounds, AddRegisters, CompressWords, ReverseBytes32, Low, High, Load;
    var w := new Word[64];
    for i := 0 to 16
      invariant forall k :: 0 <= k < i ==> w[k] == mid.block[k]
    {
      w[i] := mid.block[i];
    }
    w[mid.nonceWord] := ReverseBytes32(Low(nonce));
    w[mid.nonceWord + 1] := ReverseBytes32(High(nonce));
    assert w[..16] == WithNonce(mid, nonce);
    ExpandSchedule(w);
    var h := new Word[8](i requires 0 <= i < 8 => mid.h[i]);
    assert h[..] == mid.h;
    CompressIs(mid.h, WithNonce(mid, nonce));
    RunRounds(h, w);
    out := h[..];
  }
}

/** The GPU kernel's nonce search against the node's proof-of-work rule, with SHA-256 itself as the hash. */
module Kernel {
  import opened Basics
  import opened Chain
  import opened Codec
  import opened MidstateHash
  import opened Sha256
  import opened Targets

  // ----- octets as bit vectors and as numbers -----

  function Bits(b: Bytes): (o: seq<Octet>)
    ensures |o| == |b|
    ensures forall i :: 0 <= i < |b| ==> o[i] == b[i] as bv8
  {
    seq(|b|, i requires 0 <= i < |b| => b[i] as bv8)
  }

  function Numbers(o: seq<Octet>): (b: Bytes)
    ensures |b| == |o|
    ensures forall i :: 0 <= i < |o| ==> b[i] == o[i] as int
  {
    seq(|o|, i requires 0 <= i < |o| => o[i] as int)
  }

  lemma NumbersOfBits(b: Bytes)
    ensures Numbers(Bits(b)) == b
  {
    forall i | 0 <= i < |b| ensures Numbers(Bits(b))[i] == b[i] {
      ByteBack(b[i]);
    }
  }

  lemma ByteBack(n: nat)
    requires n < 256
    ensures (n as bv8) as int == n
  {
    var o := OctetWith(n);
    OctetBack(o);
  }

  lemma {:induction false} OctetWith(n: nat) returns (o: Octet)
    requires n < 256
    ensures o as int == n
  {
    if n == 0 {
      o := 0;
    } else {
      var before := OctetWith(n - 1);
      NextOctet(before);
      o := before + 1;
    }
  }

  lemma NextOctet(o: Octet)
    requires o as int < 255
    ensures (o + 1) as int == o as int + 1
  {
  }

  lemma OctetBack(o: Octet)
    ensures (o as int) as bv8 == o
  {
  }

  /** Unsigned comparison of octets and of words. */
  predicate OctetBelow(a: Octet, b: Octet) {
    a < b
  }

  predicate WordBelow(x: Word, y: Word) {
    x < y
  }

  lemma OctetOrder(a: Octet, b: Octet)
    ensures OctetBelow(a, b) <==> a as int < b as int
    ensures a == b <==> a as int == b as int
  {
  }

  lemma OneOctetOrder(a: Octet, b: Octet)
    ensures a != b ==> OctetBelow(a, b) || OctetBelow(b, a)
    ensures OctetBelow(a, b) ==> a != b && !OctetBelow(b, a)
  {
  }

  lemma OneWordOrder(x: Word, y: Word)
    ensures x != y ==> WordBelow(x, y) || WordBelow(y, x)
    ensures WordBelow(x, y) ==> x != y && !WordBelow(y, x)
  {
    hide WordBelow;
    if WordBelow(x, y) {
      WordsApart(x, y);
    } else if !WordBelow(y, x) {
      WordsMeet(x, y);
    }
  }

  lemma WordsApart(x: Word, y: Word)
    requires WordBelow(x, y)
    ensures x != y && !WordBelow(y, x)
  {
  }

  lemma WordsMeet(x: Word, y: Word)
    requires !WordBelow(x, y) && !WordBelow(y, x)
    ensures x == y
  {
    hide WordAt, WordBelow, OctetsOf, DecidedAt;
    var a, b := OctetsOf(x), OctetsOf(y);
    OctetsRoundTrip(x);
    OctetsRoundTrip(y);
    if a[..4] != b[..4] {
      var k := SomeDifference(a, b, 4);
      if DecidedAt(a, b, k) { WordDecided(a, b, k); } else { WordDecided(b, a, k); }
      assert false;
    }
    assert a[..4] == a && b[..4] == b;
  }

  // A word is ordered by its first differing octet.

  lemma FirstOctet(a: Octet, b: Octet, c: Octet, d: Octet, e: Octet, f: Octet, g: Octet, h: Octet)
    requires OctetBelow(a, e)
    ensures WordBelow(WordAt(a, b, c, d), WordAt(e, f, g, h))
  {
  }

  lemma SecondOctet(a: Octet, b: Octet, c: Octet, d: Octet, f: Octet, g: Octet, h: Octet)
    requires OctetBelow(b, f)
    ensures WordBelow(WordAt(a, b, c, d), WordAt(a, f, g, h))
  {
  }

  lemma ThirdOctet(a: Octet, b: Octet, c: Octet, d: Octet, g: Octet, h: Octet)
    requires OctetBelow(c, g)
    ensures WordBelow(WordAt(a, b, c, d), WordAt(a, b, g, h))
  {
  }

  lemma FourthOctet(a: Octet, b: Octet, c: Octet, d: Octet, h: Octet)
    requires OctetBelow(d, h)
    ensures WordBelow(WordAt(a, b, c, d), WordAt(a, b, c, h))
  {
  }

  predicate OctetsLess(a: seq<Octet>, b: seq<Octet>)
    requires |a| == |b|
  {
    |a| > 0 && (OctetBelow(a[0], b[0]) || (a[0] == b[0] && OctetsLess(a[1..], b[1..])))
  }

  /** The first difference is at k, in favour of a. */
  predicate DecidedAt(a: seq<Octet>, b: seq<Octet>, k: nat)
    requires k < |a| == |b|
  {
    a[..k] == b[..k] && OctetBelow(a[k], b[k])
  }

  lemma {:induction false} OctetsDecided(a: seq<Octet>, b: seq<Octet>, k: nat)
    requires k < |a| == |b| && DecidedAt(a, b, k)
    ensures OctetsLess(a, b) && !OctetsLess(b, a)
    decreases k
  {
    hide OctetBelow;
    OneOctetOrder(a[k], b[k]);
    if k == 0 {
    } else {
      OneOctetOrder(a[0], b[0]);
      OneOctetOrder(b[0], a[0]);
      assert a[..k][0] == b[..k][0];
      assert a[1..][..k - 1] == a[..k][1..] && b[1..][..k - 1] == b[..k][1..];
      OctetsDecided(a[1..], b[1..], k - 1);
    }
  }

  lemma {:induction false} OctetsAfter(a: seq<Octet>, b: seq<Octet>, k: nat)
    requires k <= |a| == |b| && a[..k] == b[..k]
    ensures OctetsLess(a, b) <==> OctetsLess(a[k..], b[k..])
    decreases k
  {
    hide OctetBelow;
    if k == 0 {
      assert a[0..] == a && b[0..] == b;
    } else {
      OneOctetOrder(a[0], b[0]);
      assert a[..k][0] == b[..k][0];
      assert a[1..][..k - 1] == a[..k][1..] && b[1..][..k - 1] == b[..k][1..];
      OctetsAfter(a[1..], b[1..], k - 1);
      assert a[1..][k - 1..] == a[k..] && b[1..][k - 1..] == b[k..];
    }
  }

  function FirstWord(a: seq<Octet>): Word
    requires |a| >= 4
  {
    WordAt(a[0], a[1], a[2], a[3])
  }

  lemma WordDecided(a: seq<Octet>, b: seq<Octet>, k: nat)
    requires |a| == |b| >= 4 && k < 4 && DecidedAt(a, b, k)
    ensures WordBelow(FirstWord(a), FirstWord(b))
  {
    hide WordAt, OctetBelow, WordBelow;
    forall i | 0 <= i < k ensures a[i] == b[i] {
      assert a[..k][i] == b[..k][i];
    }
    match k
    case 0 => FirstOctet(a[0], a[1], a[2], a[3], b[0], b[1], b[2], b[3]);
    case 1 => SecondOctet(a[0], a[1], a[2], a[3], b[1], b[2], b[3]);
    case 2 => ThirdOctet(a[0], a[1], a[2], a[3], b[2], b[3]);
    case 3 => FourthOctet(a[0], a[1], a[2], a[3], b[3]);
  }

  lemma {:induction false} SomeDifference(a: seq<Octet>, b: seq<Octet>, n: nat) returns (k: nat)
    requires n <= |a| == |b| && a[..n] != b[..n]
    ensures k < n && (DecidedAt(a, b, k) || DecidedAt(b, a, k))
    decreases n
  {
    hide OctetBelow;
    if a[..n - 1] == b[..n - 1] {
      k := n - 1;
      assert a[..n] == a[..n - 1] + [a[n - 1]] && b[..n] == b[..n - 1] + [b[n - 1]];
      OneOctetOrder(a[k], b[k]);
    } else {
      k := SomeDifference(a, b, n - 1);
    }
  }

  /** The first word decides, and if it is the same in both, what follows it does. */
  lemma WordStep(a: seq<Octet>, b: seq<Octet>)
    requires |a| == |b| >= 4
    ensures OctetsLess(a, b) <==>
            WordBelow(FirstWord(a), FirstWord(b)) || (FirstWord(a) == FirstWord(b) && OctetsLess(a[4..], b[4..]))
  {
    hide WordAt, OctetBelow, WordBelow, OctetsLess, DecidedAt;
    OneWordOrder(FirstWord(a), FirstWord(b));
    OneWordOrder(FirstWord(b), FirstWord(a));
    if a[..4] == b[..4] {
      assert forall i :: 0 <= i < 4 ==> a[..4][i] == a[i] && b[..4][i] == b[i];
      OctetsAfter(a, b, 4);
    } else {
      var k := SomeDifference(a, b, 4);
      if DecidedAt(a, b, k) {
        OctetsDecided(a, b, k);
        WordDecided(a, b, k);
      } else {
        OctetsDecided(b, a, k);
        WordDecided(b, a, k);
      }
    }
  }

  // ----- the comparison -----

  /** The target as eight words, through its thirty-two big-endian octets. */
  function TargetWords(t: nat): (w: seq<Word>)
    ensures |w| == 8
  {
    ToWords(Bits(HashOctets(t)))
  }

  /** Whether the first differing word is smaller. */
  predicate WordsLess(h: seq<Word>, t: seq<Word>)
    requires |h| == |t|
  {
    |h| > 0 && (WordBelow(h[0], t[0]) || (h[0] == t[0] && WordsLess(h[1..], t[1..])))
  }

  /** The kernel's loop over the eight words, with its early exits. */
  method KernelLess(h: seq<Word>, target: seq<Word>) returns (less: bool)
    requires |h| == 8 && |target| == 8
    ensures less == WordsLess(h, target)
  {
    hide WordsLess, WordBelow;
    less := false;
    assert h[0..] == h && target[0..] == target;
    for i := 0 to 8
      invariant !less && WordsLess(h, target) == WordsLess(h[i..], target[i..])
    {
      WordsLessAt(h, target, i);
      if WordBelow(h[i], target[i]) {
        less := true;
        break;
      }
      if WordBelow(target[i], h[i]) {
        less := false;
        break;
      }
    }
    NothingLess(h[8..], target[8..]);
  }

  lemma WordsLessAt(h: seq<Word>, t: seq<Word>, i: nat)
    requires i < |h| == |t|
    ensures WordBelow(h[i], t[i]) ==> WordsLess(h[i..], t[i..])
    ensures WordBelow(t[i], h[i]) ==> !WordsLess(h[i..], t[i..])
    ensures !WordBelow(h[i], t[i]) && !WordBelow(t[i], h[i])
            ==> WordsLess(h[i..], t[i..]) == WordsLess(h[i + 1..], t[i + 1..])
  {
    hide WordBelow;
    OneWordOrder(h[i], t[i]);
    OneWordOrder(t[i], h[i]);
    assert h[i..][1..] == h[i + 1..] && t[i..][1..] == t[i + 1..];
  }

  lemma NothingLess(h: seq<Word>, t: seq<Word>)
    requires |h| == |t| == 0
    ensures !WordsLess(h, t)
  {
  }

  /** Comparing words is comparing octets. */
  lemma {:induction false} WordsOrder(a: seq<Octet>, b: seq<Octet>)
    requires |a| == |b| && |a| % 4 == 0
    ensures WordsLess(ToWords(a), ToWords(b)) <==> OctetsLess(a, b)
  {
    hide ToWords, FirstWord, WordBelow, WordsLess, OctetsLess;
    if |a| == 0 {
      NothingLess(ToWords(a), ToWords(b));
      NoOctetLess(a, b);
    } else {
      WordStep(a, b);
      WordsOrder(a[4..], b[4..]);
      FirstOfWords(a);
      FirstOfWords(b);
      WordsLessStep(ToWords(a), ToWords(b));
    }
  }

  lemma FirstOfWords(a: seq<Octet>)
    requires |a| >= 4 && |a| % 4 == 0
    ensures |ToWords(a)| > 0 && ToWords(a)[0] == FirstWord(a) && ToWords(a)[1..] == ToWords(a[4..])
  {
    hide WordAt;
  }

  lemma WordsLessStep(h: seq<Word>, t: seq<Word>)
    requires |h| == |t| > 0
    ensures WordsLess(h, t) <==> WordBelow(h[0], t[0]) || (h[0] == t[0] && WordsLess(h[1..], t[1..]))
  {
    hide WordBelow;
  }

  lemma NoOctetLess(a: seq<Octet>, b: seq<Octet>)
    requires |a| == |b| == 0
    ensures !OctetsLess(a, b)
  {
  }

  /** Comparing octets is comparing digits. */
  lemma {:induction false} OctetsOrder(a: seq<Octet>, b: seq<Octet>)
    requires |a| == |b|
    ensures OctetsLess(a, b) <==> LexLess(Numbers(a), Numbers(b))
  {
    hide OctetBelow;
    if |a| == 0 {
    } else {
      OctetOrder(a[0], b[0]);
      OctetsOrder(a[1..], b[1..]);
      assert Numbers(a)[1..] == Numbers(a[1..]) && Numbers(b)[1..] == Numbers(b[1..]);
    }
  }

  /** For every digest and difficulty, comparing words agrees with comparing the digest's number with the target. */
  lemma KernelAgrees(digest: seq<Octet>, difficulty: u64)
    requires |digest| == 32
    ensures WordsLess(ToWords(digest), TargetWords(Target(difficulty)))
            <==> Value(Numbers(digest), 256) < Target(difficulty)
  {
    hide Target, LexLess, OctetsLess, WordsLess, Value, ToWords, HashOctets;
    var t := Target(difficulty);
    TargetFits(difficulty);
    HashRoundTrip(t);
    NumbersOfBits(HashOctets(t));
    WordsOrder(digest, Bits(HashOctets(t)));
    OctetsOrder(digest, Bits(HashOctets(t)));
    LexIsNumeric(Numbers(digest), HashOctets(t), 256);
  }

  // ----- the nonce -----

  function Joined(lo: Word, hi: Word): bv64 {
    (lo as bv64) | ((hi as bv64) << 32)
  }

  function LittleWord(b0: Octet, b1: Octet, b2: Octet, b3: Octet): Word {
    (b0 as bv32) | ((b1 as bv32) << 8) | ((b2 as bv32) << 16) | ((b3 as bv32) << 24)
  }

  /** The 64-bit register holding a nonce. */
  function NonceOf(n: u64): bv64 {
    var b := Bits(U64Bytes(n));
    Joined(LittleWord(b[0], b[1], b[2], b[3]), LittleWord(b[4], b[5], b[6], b[7]))
  }

  lemma Halves(lo: Word, hi: Word)
    ensures Low(Joined(lo, hi)) == lo && High(Joined(lo, hi)) == hi
  {
  }

  lemma LittleWordBack(b0: Octet, b1: Octet, b2: Octet, b3: Octet)
    ensures LittleEndian(LittleWord(b0, b1, b2, b3)) == [b0, b1, b2, b3]
  {
  }

  lemma NonceWritten(n: u64)
    ensures NonceOctets(NonceOf(n)) == Bits(U64Bytes(n))
  {
    hide Low, High, Joined, LittleWord, LittleEndian, U64Bytes;
    var b := Bits(U64Bytes(n));
    Halves(LittleWord(b[0], b[1], b[2], b[3]), LittleWord(b[4], b[5], b[6], b[7]));
    LittleWordBack(b[0], b[1], b[2], b[3]);
    LittleWordBack(b[4], b[5], b[6], b[7]);
  }

  // ----- the search -----

  function HeaderOctets(b: Block): seq<Octet>
    requires OctetString(b.miner)
  {
    Bits(Write(HeaderFields(b)))
  }

  /** Every header whose miner address has the fixed length of forty octets has a midstate. */
  lemma FortyOctetAddressFits(b: Block)
    requires OctetString(b.miner) && |b.miner| == 40
    ensures FitsMidstate(|HeaderOctets(b)|)
  {
    hide FixedFields, HeaderFields, Write;
    HeaderShape(b);
  }

  /** A trial of the header is the header with that nonce. */
  lemma TrialIsHeader(b: Block, n: u64)
    requires OctetString(b.miner)
    ensures |HeaderOctets(b)| >= 8
    ensures Trial(HeaderOctets(b), NonceOf(n)) == HeaderOctets(b.(nonce := n))
  {
    hide Write, U64Bytes, NonceOf, Bits, FixedFields, HeaderFields;
    var other := b.(nonce := n);
    HeaderShape(b);
    HeaderShape(other);
    NonceWritten(n);
    SameFixed(b, n);
    var fixed := Write(FixedFields(b));
    BitsConcat(fixed, U64Bytes(b.nonce));
    BitsConcat(fixed, U64Bytes(n));
    assert (Bits(fixed) + Bits(U64Bytes(b.nonce)))[..|fixed|] == Bits(fixed);
  }

  lemma SameFixed(b: Block, n: u64)
    requires OctetString(b.miner)
    ensures FixedFields(b.(nonce := n)) == FixedFields(b)
  {
  }

  lemma BitsConcat(a: Bytes, b: Bytes)
    ensures Bits(a + b) == Bits(a) + Bits(b)
  {
  }

  /** Finishing the midstate of a header is hashing that header with the nonce in it. */
  lemma FinishHashesHeader(b: Block, n: u64)
    requires OctetString(b.miner) && |b.miner| == 40
    ensures FitsMidstate(|HeaderOctets(b)|)
    ensures var mid := MidstateOf(HeaderOctets(b));
            && |mid.h| == 8 && |mid.block| == 16 && mid.nonceWord + 1 < 16
            && ToOctets(CompressWords(mid.h, WithNonce(mid, NonceOf(n)))) == Digest(HeaderOctets(b.(nonce := n)))
  {
    hide CompressWords, WithNonce, NonceOf, Digest, ToOctets, MidstateOf, HeaderOctets, Trial;
    FortyOctetAddressFits(b);
    TrialIsHeader(b, n);
    MidstateIsDigest(HeaderOctets(b), NonceOf(n));
  }

  /** Header hashing is SHA-256 of the header bytes, read as a number. */
  ghost predicate HashesHeaders(c: Crypto) {
    forall b: Block :: OctetString(b.miner) ==> c.headerHash(b) == HeaderNumber(b)
  }

  function HeaderNumber(b: Block): Hash
    requires OctetString(b.miner)
  {
    Value(Numbers(Digest(HeaderOctets(b))), 256)
  }

  /** One kernel trial: hash the template with the nonce, compare with the target. */
  method KernelTrial(mid: Midstate, nonce: bv64, target: seq<Word>) returns (hit: bool)
    requires |mid.h| == 8 && |mid.block| == 16 && mid.nonceWord + 1 < 16 && |target| == 8
    ensures hit == WordsLess(CompressWords(mid.h, WithNonce(mid, nonce)), target)
  {
    hide CompressWords, WithNonce;
    var out := KernelHash(mid, nonce);
    hit := KernelLess(out, target);
  }

  /** The kernel hits exactly on the nonces that make the block meet its target: for every block with a
      forty-octet miner address, every positive difficulty and every nonce. */
  lemma KernelHitsMeetTarget(c: Crypto, b: Block, n: u64)
    requires HashesHeaders(c) && OctetString(b.miner) && |b.miner| == 40 && b.difficulty > 0
    ensures FitsMidstate(|HeaderOctets(b)|)
    ensures var mid := MidstateOf(HeaderOctets(b));
            && |mid.h| == 8 && |mid.block| == 16 && mid.nonceWord + 1 < 16
            && (WordsLess(CompressWords(mid.h, WithNonce(mid, NonceOf(n))), TargetWords(Target(b.difficulty)))
                <==> MeetsTarget(c, b.(nonce := n)))
  {
    hide CompressWords, WithNonce, NonceOf, Digest, ToOctets, ToWords, Value, Target, MidstateOf, HeaderOctets,
         TargetWords, Numbers, Trial;
    FinishHashesHeader(b, n);
    var hdr, trial := HeaderOctets(b), b.(nonce := n);
    var words := CompressWords(MidstateOf(hdr).h, WithNonce(MidstateOf(hdr), NonceOf(n)));
    WordsRoundTrip(words);
    KernelAgrees(Digest(HeaderOctets(trial)), b.difficulty);
    assert HeaderOctets(trial.(txs := [])) == HeaderOctets(trial) by { TxsNotHashed(trial); }
  }

  lemma TxsNotHashed(b: Block)
    requires OctetString(b.miner)
    ensures HeaderOctets(b.(txs := [])) == HeaderOctets(b)
  {
    hide Write;
    assert HeaderFields(b.(txs := [])) == HeaderFields(b);
  }
}

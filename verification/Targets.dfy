/** Digests as numbers: comparing octets, hex strings and big-endian values is one and the same order. */
module Targets {
  import opened Basics
  import opened Chain
  import opened Conservation

  // ----- positional numbers, most significant digit first -----

  ghost predicate Digits(s: seq<nat>, base: nat) {
    forall i :: 0 <= i < |s| ==> s[i] < base
  }

  function Value(s: seq<nat>, base: nat): nat {
    if |s| == 0 then 0 else Value(s[..|s| - 1], base) * base + s[|s| - 1]
  }

  function Quot(v: nat, base: nat): (q: nat)
    requires base > 0
  {
    v / base
  }

  function Rest(v: nat, base: nat): (r: nat)
    requires base > 0
    ensures r < base
  {
    v % base
  }

  lemma Euclid(v: nat, base: nat)
    requires base > 0
    ensures v == Quot(v, base) * base + Rest(v, base)
  {
  }

  /** The last n digits of a number. */
  function DigitsOf(v: nat, base: nat, n: nat): (s: seq<nat>)
    requires base > 0
    ensures |s| == n
    decreases n
  {
    if n == 0 then [] else DigitsOf(Quot(v, base), base, n - 1) + [Rest(v, base)]
  }

  function Power(base: nat, n: nat): nat {
    if n == 0 then 1 else Power(base, n - 1) * base
  }

  lemma {:induction false} DigitsInRange(v: nat, base: nat, n: nat)
    requires base > 0
    ensures Digits(DigitsOf(v, base, n), base)
    decreases n
  {
    hide Quot, Rest;
    if n == 0 {
    } else {
      DigitsInRange(Quot(v, base), base, n - 1);
    }
  }

  lemma {:induction false} ValueOfDigits(v: nat, base: nat, n: nat)
    requires base > 0 && v < Power(base, n)
    ensures Value(DigitsOf(v, base, n), base) == v
    decreases n
  {
    hide Quot, Rest;
    if n == 0 {
    } else {
      var q := Quot(v, base);
      Euclid(v, base);
      if q >= Power(base, n - 1) {
        MulMono(base, Power(base, n - 1), q);
      }
      ValueOfDigits(q, base, n - 1);
      ValueSnoc(DigitsOf(q, base, n - 1), Rest(v, base), base);
    }
  }

  lemma ValueSnoc(s: seq<nat>, d: nat, base: nat)
    ensures Value(s + [d], base) == Value(s, base) * base + d
  {
    assert (s + [d])[..|s|] == s;
  }

  lemma {:induction false} ValueBound(s: seq<nat>, base: nat)
    requires Digits(s, base) && base > 0
    ensures Value(s, base) < Power(base, |s|)
  {
    if |s| == 0 {
    } else {
      var init := s[..|s| - 1];
      ValueBound(init, base);
      OneMoreDigit(Value(init, base), s[|s| - 1], base, Power(base, |init|));
    }
  }

  lemma OneMoreDigit(v: nat, d: nat, base: nat, unit: nat)
    requires v < unit && d < base
    ensures v * base + d < unit * base
  {
    MulMono(base, v + 1, unit);
  }

  /** Whether the first difference between two digit strings is in favour of the first. */
  predicate LexLess(a: seq<nat>, b: seq<nat>)
    requires |a| == |b|
  {
    |a| > 0 && (a[0] < b[0] || (a[0] == b[0] && LexLess(a[1..], b[1..])))
  }

  lemma {:induction false} ValueConcat(a: seq<nat>, b: seq<nat>, base: nat)
    ensures Value(a + b, base) == Value(a, base) * Power(base, |b|) + Value(b, base)
  {
    if |b| == 0 {
      assert a + b == a;
    } else {
      var init, last := b[..|b| - 1], b[|b| - 1];
      assert (a + b)[..|a + b| - 1] == a + init;
      ValueConcat(a, init, base);
      calc {
        Value(a + b, base);
        (Value(a, base) * Power(base, |init|) + Value(init, base)) * base + last;
        { Distribute(Value(a, base), Power(base, |init|), Value(init, base), base); }
        Value(a, base) * Power(base, |b|) + Value(b, base);
      }
    }
  }

  lemma Distribute(x: int, y: int, z: int, k: int)
    ensures (x * y + z) * k == x * (y * k) + z * k
  {
  }

  /** Comparing digit by digit from the front is comparing values. */
  lemma {:induction false} LexIsNumeric(a: seq<nat>, b: seq<nat>, base: nat)
    requires |a| == |b| && base > 0 && Digits(a, base) && Digits(b, base)
    ensures LexLess(a, b) <==> Value(a, base) < Value(b, base)
  {
    if |a| == 0 {
    } else {
      var x, y := a[1..], b[1..];
      assert a == [a[0]] + x && b == [b[0]] + y;
      ValueConcat([a[0]], x, base);
      ValueConcat([b[0]], y, base);
      ValueOne(a[0], base);
      ValueOne(b[0], base);
      ValueBound(x, base);
      ValueBound(y, base);
      LexIsNumeric(x, y, base);
      LeadingDigit(a[0], b[0], Power(base, |x|), Value(x, base), Value(y, base));
    }
  }

  lemma ValueOne(d: nat, base: nat)
    ensures Value([d], base) == d
  {
    assert [d][..0] == [];
  }

  lemma LeadingDigit(d: nat, e: nat, unit: nat, x: nat, y: nat)
    requires x < unit && y < unit
    ensures d < e ==> d * unit + x < e * unit + y
    ensures e < d ==> e * unit + y < d * unit + x
  {
    if d < e {
      MulMono(unit, d + 1, e);
    } else if e < d {
      MulMono(unit, e + 1, d);
    }
  }

  // ----- targets -----

  lemma Power256Is()
    ensures Power(256, 32) == MAX_TARGET + 1
  {
    PowerSquare(256, 16);
    PowerSquare(256, 8);
    PowerSquare(256, 4);
    PowerSquare(256, 2);
    assert Power(256, 1) == 256;
    assert Power(256, 2) == 0x1_0000;
  }

  lemma {:induction false} PowerAdd(base: nat, m: nat, n: nat)
    ensures Power(base, m + n) == Power(base, m) * Power(base, n)
  {
    if n == 0 {
    } else {
      PowerAdd(base, m, n - 1);
      assert Power(base, m + n) == Power(base, m + (n - 1)) * base;
      assert Power(base, m) * Power(base, n - 1) * base == Power(base, m) * (Power(base, n - 1) * base);
    }
  }

  lemma PowerSquare(base: nat, n: nat)
    ensures Power(base, 2 * n) == Power(base, n) * Power(base, n)
  {
    PowerAdd(base, n, n);
  }

  lemma TargetFits(difficulty: u64)
    ensures Target(difficulty) <= MAX_TARGET
  {
    var d: nat := if difficulty == 0 then 1 else difficulty;
    assert MAX_TARGET / d <= MAX_TARGET by {
      assert MAX_TARGET == (MAX_TARGET / d) * d + MAX_TARGET % d;
      MulMono(MAX_TARGET / d, 1, d);
    }
  }

  /** At difficulty 1 every digest passes but one: the all-ones digest equals the target. */
  lemma DifficultyOne(c: Crypto, b: Block)
    requires b.difficulty == 1 && BlockHash(c, b) <= MAX_TARGET
    ensures MeetsTarget(c, b) <==> BlockHash(c, b) != MAX_TARGET
  {
    assert Target(1) == MAX_TARGET;
  }

  // ----- hex strings -----

  function HexChar(d: nat): char
    requires d < 16
  {
    if d < 10 then '0' + d as char else 'a' + (d - 10) as char
  }

  lemma HexDigits(d: nat)
    requires d < 16
    ensures HexChar(d) == "0123456789abcdef"[d]
  {
  }

  /** The hex string of a digest, most significant octet first and in each its high half first. */
  lemma HexWrittenOut(b: seq<nat>, i: nat)
    requires Digits(b, 256) && i < |b|
    ensures Hex(b)[2 * i] == "0123456789abcdef"[b[i] / 16] && Hex(b)[2 * i + 1] == "0123456789abcdef"[b[i] % 16]
  {
    hide HexChar;
    NibblesAt(b, i);
    NibblesOk(b);
    HexDigits(b[i] / 16);
    HexDigits(b[i] % 16);
  }

  lemma {:induction false} NibblesAt(b: seq<nat>, i: nat)
    requires i < |b|
    ensures Nibbles(b)[2 * i] == b[i] / 16 && Nibbles(b)[2 * i + 1] == b[i] % 16
  {
    if i == |b| - 1 {
    } else {
      NibblesAt(b[..|b| - 1], i);
    }
  }

  function Nibbles(b: seq<nat>): (s: seq<nat>)
    ensures |s| == 2 * |b|
  {
    if |b| == 0 then [] else Nibbles(b[..|b| - 1]) + [b[|b| - 1] / 16, b[|b| - 1] % 16]
  }

  lemma {:induction false} NibblesOk(b: seq<nat>)
    requires Digits(b, 256)
    ensures Digits(Nibbles(b), 16) && Value(Nibbles(b), 16) == Value(b, 256)
  {
    if |b| == 0 {
    } else {
      var init, last := b[..|b| - 1], b[|b| - 1];
      NibblesOk(init);
      var two := [last / 16, last % 16];
      ValueConcat(Nibbles(init), two, 16);
      ValueOfTwo(last);
    }
  }

  lemma ValueOfTwo(v: nat)
    ensures Value([v / 16, v % 16], 16) == v && Power(16, 2) == 256
  {
    var two := [v / 16, v % 16];
    assert two[..1] == [v / 16];
    ValueOne(v / 16, 16);
    assert Power(16, 1) == 16;
  }

  /** The hex string of a digest. */
  function Hex(b: seq<nat>): (s: string)
    requires Digits(b, 256)
    ensures |s| == 2 * |b|
  {
    NibblesOk(b);
    var n := Nibbles(b);
    seq(|n|, i requires 0 <= i < |n| => HexChar(n[i]))
  }

  predicate StringLess(a: string, b: string)
    requires |a| == |b|
  {
    |a| > 0 && (a[0] < b[0] || (a[0] == b[0] && StringLess(a[1..], b[1..])))
  }

  lemma {:induction false} StringIsLex(a: string, b: string, x: seq<nat>, y: seq<nat>)
    requires |a| == |b| == |x| == |y| && Digits(x, 16) && Digits(y, 16)
    requires forall i :: 0 <= i < |x| ==> a[i] == HexChar(x[i]) && b[i] == HexChar(y[i])
    ensures StringLess(a, b) <==> LexLess(x, y)
  {
    if |x| == 0 {
    } else {
      HexOrder(x[0], y[0]);
      StringIsLex(a[1..], b[1..], x[1..], y[1..]);
    }
  }

  lemma HexOrder(d: nat, e: nat)
    requires d < 16 && e < 16
    ensures HexChar(d) < HexChar(e) <==> d < e
    ensures HexChar(d) == HexChar(e) <==> d == e
  {
  }

  /** Ties between chains broken by comparing hex strings are broken by comparing digests as numbers. */
  lemma HexStringOrder(a: seq<nat>, b: seq<nat>)
    requires |a| == |b| && Digits(a, 256) && Digits(b, 256)
    ensures StringLess(Hex(a), Hex(b)) <==> Value(a, 256) < Value(b, 256)
  {
    hide Nibbles, Value, HexChar;
    NibblesOk(a);
    NibblesOk(b);
    StringIsLex(Hex(a), Hex(b), Nibbles(a), Nibbles(b));
    LexIsNumeric(Nibbles(a), Nibbles(b), 16);
  }

  // ----- targets -----

  /** A digest meets a difficulty exactly if the number after it, times the difficulty, stays below 2^256. */
  lemma TargetMeaning(h: Hash, d: u64)
    requires d > 0
    ensures h < Target(d) <==>
            (h + 1) * d < 0x1_00000000_00000000_00000000_00000000_00000000_00000000_00000000_00000000
  {
    var q := Target(d);
    TargetQuotient(d);
    if h < q {
      MulMono(d, h + 1, q);
      assert d * (h + 1) == (h + 1) * d && d * q == q * d;
    } else {
      MulMono(d, q + 1, h + 1);
      assert d * (h + 1) == (h + 1) * d && d * (q + 1) == (q + 1) * d;
    }
  }

  lemma TargetQuotient(d: u64)
    requires d > 0
    ensures Target(d) * d <= MAX_TARGET < (Target(d) + 1) * d
  {
    var q := MAX_TARGET / d;
    assert MAX_TARGET == q * d + MAX_TARGET % d;
    assert (q + 1) * d == q * d + d;
  }

  /** So does a block, unless its difficulty is 0. */
  lemma WorkMeaning(c: Crypto, b: Block)
    ensures MeetsTarget(c, b) <==>
            && b.difficulty != 0
            && (BlockHash(c, b) + 1) * b.difficulty
               < 0x1_00000000_00000000_00000000_00000000_00000000_00000000_00000000_00000000
  {
    hide Target, BlockHash;
    if b.difficulty != 0 { TargetMeaning(BlockHash(c, b), b.difficulty); }
  }
}
